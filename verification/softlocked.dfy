/**
 * Student_softlocked: turn the applicant's advantages over all schools into
 * softmax weights exp(tau * delta) / sum of exp(tau * delta), weight each
 * school's desirability (quality + synergy) by its share, and apply to the
 * first ten by that score.
 */
module Softlocked {
  import opened Ranking
  import opened Numeric

  /** The softmax temperature tau. */
  const Tau: real := 5.0

  /** The sum of a sequence, accumulated left to right; positive when every term is. */
  function Sum(xs: seq<real>): (r: real)
    ensures |xs| > 0 && AllPositive(xs) ==> r > 0.0
  {
    if |xs| == 0 then 0.0 else Sum(xs[..|xs| - 1]) + xs[|xs| - 1]
  }

  predicate AllPositive(xs: seq<real>) {
    forall i :: 0 <= i < |xs| ==> xs[i] > 0.0
  }

  /** The exponentials exp(tau * delta_i). */
  function ExpWeights(deltas: seq<real>, exp: real -> real): (e: seq<real>)
    requires Positive(exp)
    ensures |e| == |deltas| && AllPositive(e)
  {
    seq(|deltas|, i requires 0 <= i < |deltas| => exp(Tau * deltas[i]))
  }

  /** Each value divided by the total. */
  function Normalised(xs: seq<real>): seq<real>
    requires AllPositive(xs)
  {
    seq(|xs|, i requires 0 <= i < |xs| => xs[i] / Sum(xs))
  }

  /** The softmax probabilities of the deltas. */
  function Softmax(deltas: seq<real>, exp: real -> real): seq<real>
    requires Positive(exp)
  {
    Normalised(ExpWeights(deltas, exp))
  }

  /** Each school's desirability (quality + synergy) weighted by its probability. */
  function Weighted(qualities: seq<real>, synergies: seq<real>, p: seq<real>): (r: seq<real>)
    requires |p| <= |qualities| && |p| <= |synergies|
    ensures |r| == |p|
  {
    seq(|p|, i requires 0 <= i < |p| => (qualities[i] + synergies[i]) * p[i])
  }

  /** score_i = (quality_i + synergy_i) * softmax_i. */
  function Scores(n: nat, s: real, w: real, aptitude: real, qualities: seq<real>, synergies: seq<real>,
                  exp: real -> real): seq<real>
    requires n <= |qualities| && n <= |synergies|
    requires Positive(exp)
  {
    Weighted(qualities, synergies, Softmax(Deltas(n, s, w, aptitude, synergies), exp))
  }

  /** `getApplications`: deltas, exponentials and their sum, normalisation in place, scores, sort, first ten. */
  method GetApplications(n: nat, s: real, w: real, aptitude: real, qualities: seq<real>, synergies: seq<real>,
                         exp: real -> real)
    returns (applications: array<int>)
    requires 10 <= n <= |qualities| && n <= |synergies|
    requires Positive(exp)
    ensures fresh(applications)
    ensures applications[..] == TopTen(Scores(n, s, w, aptitude, qualities, synergies, exp))
    ensures IsTop(applications[..], Scores(n, s, w, aptitude, qualities, synergies, exp), 10)
  {
    var deltas := new real[n];
    for i := 0 to n
      invariant forall j :: 0 <= j < i ==> deltas[j] == Advantage(aptitude, synergies[j], s, w)
    {
      var synergy := synergies[i];
      deltas[i] := (aptitude + synergy) - ((s + w) / 2.0);
    }
    ghost var d := Deltas(n, s, w, aptitude, synergies);
    assert deltas[..] == d;

    var expDeltas := SoftmaxWeights(deltas, exp);

    var preferences := ScoreAll(expDeltas, qualities, synergies);
    assert preferences[..] == Records(Scores(n, s, w, aptitude, qualities, synergies, exp));
    Sort(preferences);
    applications := CopyTopTen(preferences);
    TopTenIsTop(Scores(n, s, w, aptitude, qualities, synergies, exp));
  }

  /** The exponential, sum and normalisation loops: a new array holding the softmax of the deltas. */
  method SoftmaxWeights(deltas: array<real>, exp: real -> real) returns (expDeltas: array<real>)
    requires Positive(exp)
    ensures fresh(expDeltas)
    ensures expDeltas[..] == Softmax(deltas[..], exp)
  {
    var expSum;
    expDeltas, expSum := Exponentials(deltas, exp);
    Normalise(expDeltas, expSum);
  }

  /** The first two loops: exp(tau * delta_i) into a new array, and their running sum. */
  method Exponentials(deltas: array<real>, exp: real -> real) returns (expDeltas: array<real>, expSum: real)
    requires Positive(exp)
    ensures fresh(expDeltas)
    ensures expDeltas[..] == ExpWeights(deltas[..], exp)
    ensures expSum == Sum(expDeltas[..])
  {
    ghost var e := ExpWeights(deltas[..], exp);
    expDeltas := new real[deltas.Length];
    var tau := Tau;
    expSum := 0.0;
    for i := 0 to deltas.Length
      invariant forall j :: 0 <= j < i ==> expDeltas[j] == e[j]
      invariant expSum == Sum(e[..i])
    {
      expDeltas[i] := exp(tau * deltas[i]);
      expSum := expSum + expDeltas[i];
      assert e[..i + 1][..i] == e[..i];
    }
    assert e[..deltas.Length] == e;
    assert expDeltas[..] == e;
  }

  /** The normalisation loop: every weight divided in place by their sum. */
  method Normalise(expDeltas: array<real>, expSum: real)
    requires AllPositive(expDeltas[..])
    requires expSum == Sum(expDeltas[..])
    modifies expDeltas
    ensures expDeltas[..] == Normalised(old(expDeltas[..]))
  {
    ghost var e := expDeltas[..];
    for i := 0 to expDeltas.Length
      invariant forall j :: 0 <= j < i ==> expDeltas[j] == e[j] / expSum
      invariant forall j :: i <= j < expDeltas.Length ==> expDeltas[j] == e[j]
    {
      expDeltas[i] := expDeltas[i] / expSum;
    }
    assert forall j :: 0 <= j < expDeltas.Length ==> expDeltas[j] == Normalised(e)[j];
  }

  /** The scoring loop of `getApplications`: one record per school, in index order. */
  method ScoreAll(expDeltas: array<real>, qualities: seq<real>, synergies: seq<real>) returns (preferences: array<Scored>)
    requires expDeltas.Length <= |qualities| && expDeltas.Length <= |synergies|
    ensures fresh(preferences)
    ensures preferences[..] == Records(Weighted(qualities, synergies, expDeltas[..]))
  {
    preferences := new Scored[expDeltas.Length];
    ghost var sc := Weighted(qualities, synergies, expDeltas[..]);
    for i := 0 to expDeltas.Length
      invariant forall j :: 0 <= j < i ==> preferences[j] == Scored(j, sc[j])
    {
      var quality := qualities[i];
      var synergy := synergies[i];
      var desirability := quality + synergy;
      var acceptanceProb := expDeltas[i];
      var score := desirability * acceptanceProb;
      preferences[i] := Scored(i, score);
    }
    assert forall j :: 0 <= j < expDeltas.Length ==> preferences[j] == Records(sc)[j];
  }

  /** Dividing every term by c divides the sum by c. */
  lemma {:induction false} SumDivided(xs: seq<real>, c: real)
    requires c != 0.0
    ensures Sum(seq(|xs|, i requires 0 <= i < |xs| => xs[i] / c)) == Sum(xs) / c
  {
    var ys := seq(|xs|, i requires 0 <= i < |xs| => xs[i] / c);
    if |xs| > 0 {
      var init := xs[..|xs| - 1];
      var yinit := seq(|init|, i requires 0 <= i < |init| => init[i] / c);
      assert ys[..|ys| - 1] == yinit;
      SumDivided(init, c);
      AddDivided(Sum(init), xs[|xs| - 1], c);
    }
  }

  /** With positive terms, each term is at most the sum. */
  lemma {:induction false} TermAtMostSum(xs: seq<real>, i: nat)
    requires AllPositive(xs)
    requires i < |xs|
    ensures xs[i] <= Sum(xs)
  {
    var init := xs[..|xs| - 1];
    assert AllPositive(init);
    if i < |xs| - 1 {
      TermAtMostSum(init, i);
    } else if |init| > 0 {
      assert Sum(init) > 0.0;
    }
  }

  /** Normalised positive values sum to one and each lies in (0, 1]. */
  lemma NormalisedDistribution(xs: seq<real>)
    requires |xs| > 0 && AllPositive(xs)
    ensures Sum(Normalised(xs)) == 1.0
    ensures forall i :: 0 <= i < |xs| ==> 0.0 < Normalised(xs)[i] <= 1.0
  {
    SumDivided(xs, Sum(xs));
    assert Normalised(xs) == seq(|xs|, i requires 0 <= i < |xs| => xs[i] / Sum(xs));
    forall i | 0 <= i < |xs|
      ensures 0.0 < Normalised(xs)[i] <= 1.0
    {
      TermAtMostSum(xs, i);
      FractionInUnit(xs[i], Sum(xs));
    }
  }

  /** The softmax weights of a non-empty set of schools form a probability distribution. */
  lemma SoftmaxDistribution(deltas: seq<real>, exp: real -> real)
    requires |deltas| > 0
    requires Positive(exp)
    ensures Sum(Softmax(deltas, exp)) == 1.0
    ensures forall i :: 0 <= i < |deltas| ==> 0.0 < Softmax(deltas, exp)[i] <= 1.0
  {
    NormalisedDistribution(ExpWeights(deltas, exp));
  }

  /** With exp increasing, a school where the advantage is larger never gets a smaller softmax weight. */
  lemma SoftmaxFollowsAdvantage(deltas: seq<real>, i: nat, j: nat, exp: real -> real)
    requires i < |deltas| && j < |deltas|
    requires deltas[i] <= deltas[j]
    requires Positive(exp) && Increasing(exp)
    ensures Softmax(deltas, exp)[i] <= Softmax(deltas, exp)[j]
  {
    var e := ExpWeights(deltas, exp);
    assert Tau * deltas[i] <= Tau * deltas[j];
    assert e[i] <= e[j];
    DivideMonotone(e[i], e[j], Sum(e));
  }


  lemma AddDivided(a: real, b: real, c: real)
    requires c != 0.0
    ensures a / c + b / c == (a + b) / c
  {
  }

  lemma FractionInUnit(a: real, b: real)
    requires 0.0 < a <= b
    ensures 0.0 < a / b <= 1.0
  {
    DivideMonotone(a, b, b);
  }
}
