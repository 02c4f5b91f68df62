/** Numeric helpers shared by the strategies: the competitive advantage and the logistic acceptance estimate. */
module Numeric {

  /**
   * How far the applicant's aptitude + synergy at a school lies above the
   * average competitor's, S/2 + W/2 (the midpoint of aptitude on [0, S] plus
   * synergy on [0, W]).
   */
  function Advantage(aptitude: real, synergy: real, s: real, w: real): real {
    (aptitude + synergy) - (s / 2.0 + w / 2.0)
  }

  /** quality + synergy of school u: how much the applicant wants it. */
  function Desirability(schools: seq<real>, synergies: seq<real>, u: int): real
    requires 0 <= u < |schools| && u < |synergies|
  {
    schools[u] + synergies[u]
  }

  /** The advantages of schools 0..n-1: deltas[i] = (aptitude + synergy_i) - (S + W)/2 for schools 0..n-1. */
  function Deltas(n: nat, s: real, w: real, aptitude: real, synergies: seq<real>): seq<real>
    requires n <= |synergies|
  {
    seq(n, i requires 0 <= i < n => Advantage(aptitude, synergies[i], s, w))
  }

  /** `Math.exp` is not modelled; the strategies receive it as a function that is positive everywhere. */
  ghost predicate Positive(f: real -> real) {
    forall x :: f(x) > 0.0
  }

  /** `Math.exp` is increasing. */
  ghost predicate Increasing(f: real -> real) {
    forall x, y :: x <= y ==> f(x) <= f(y)
  }

  /** The logistic curve 1 / (1 + exp(-z)) that angy, angyman and ASU use as an acceptance estimate. */
  function Logistic(exp: real -> real, z: real): (p: real)
    requires Positive(exp)
    ensures 0.0 < p < 1.0
  {
    var e := exp(-z);
    assert 1.0 + e > 1.0;
    1.0 / (1.0 + e)
  }

  /** Larger arguments never give a smaller logistic value, as long as exp is increasing. */
  lemma LogisticMonotone(exp: real -> real, z1: real, z2: real)
    requires Positive(exp) && Increasing(exp)
    requires z1 <= z2
    ensures Logistic(exp, z1) <= Logistic(exp, z2)
  {
    var e1, e2 := exp(-z1), exp(-z2);
    assert e2 <= e1;
    assert 1.0 + e2 <= 1.0 + e1;
    assert (1.0 / (1.0 + e1)) * (1.0 + e1) == 1.0;
    assert (1.0 / (1.0 + e2)) * (1.0 + e2) == 1.0;
  }

  /** A desirability weighted by a probability in [0, 1] lies between 0 and the desirability. */
  lemma WeightedBetween(desirability: real, p: real)
    requires 0.0 <= desirability
    requires 0.0 <= p <= 1.0
    ensures 0.0 <= desirability * p <= desirability
  {
  }

  /** Multiplying by a non-negative number keeps the order. */
  lemma ScaleMonotone(k: real, a: real, b: real)
    requires k >= 0.0 && a <= b
    ensures k * a <= k * b
  {
    assert k * b - k * a == k * (b - a);
  }

  /** Dividing by a positive number keeps the order. */
  lemma DivideMonotone(a: real, b: real, c: real)
    requires a <= b && c > 0.0
    ensures a / c <= b / c
  {
    assert b / c - a / c == (b - a) / c;
  }

  /** A share of a positive whole lies in [0, 1]. */
  lemma FractionAtMostOne(a: real, b: real)
    requires 0.0 <= a <= b && b > 0.0
    ensures 0.0 <= a / b <= 1.0
  {
    DivideMonotone(a, b, b);
    DivideMonotone(0.0, a, b);
  }
}
