/**
 * Student_angyman: a logistic acceptance estimate whose midpoint and slope
 * are fitted to the spread of the applicant's own advantages over all
 * schools. The scan for the smallest and largest advantage starts from
 * positive and negative infinity, and the slope falls back to 1 when every
 * advantage is the same.
 */
module Angyman {
  import opened Ranking
  import opened Numeric

  /** A double that may be infinite: the starting values of the dmin/dmax scan. */
  datatype Extended = NegInfinity | Finite(value: real) | PosInfinity

  /** x < e. */
  predicate Below(x: real, e: Extended) {
    match e
    case NegInfinity => false
    case Finite(v) => x < v
    case PosInfinity => true
  }

  /** x > e. */
  predicate Above(x: real, e: Extended) {
    match e
    case NegInfinity => true
    case Finite(v) => x > v
    case PosInfinity => false
  }

  /** The smallest value, taken left to right as the scan does. */
  function MinOf(d: seq<real>): (m: real)
    requires |d| > 0
    ensures m in d
    ensures forall i :: 0 <= i < |d| ==> m <= d[i]
  {
    if |d| == 1 then
      d[0]
    else
      var init := d[..|d| - 1];
      var m := MinOf(init);
      assert forall i :: 0 <= i < |init| ==> init[i] == d[i];
      if d[|d| - 1] < m then d[|d| - 1] else m
  }

  /** The largest value, taken left to right as the scan does. */
  function MaxOf(d: seq<real>): (m: real)
    requires |d| > 0
    ensures m in d
    ensures forall i :: 0 <= i < |d| ==> d[i] <= m
  {
    if |d| == 1 then
      d[0]
    else
      var init := d[..|d| - 1];
      var m := MaxOf(init);
      assert forall i :: 0 <= i < |init| ==> init[i] == d[i];
      if d[|d| - 1] > m then d[|d| - 1] else m
  }

  /** The dmin/dmax scan: infinite when there are no deltas, otherwise the smallest and largest delta. */
  method ScanExtremes(deltas: array<real>) returns (dmin: Extended, dmax: Extended)
    ensures deltas.Length == 0 ==> dmin == PosInfinity && dmax == NegInfinity
    ensures deltas.Length > 0 ==> dmin == Finite(MinOf(deltas[..])) && dmax == Finite(MaxOf(deltas[..]))
  {
    dmin := PosInfinity;
    dmax := NegInfinity;
    for i := 0 to deltas.Length
      invariant i == 0 ==> dmin == PosInfinity && dmax == NegInfinity
      invariant i > 0 ==> dmin == Finite(MinOf(deltas[..i])) && dmax == Finite(MaxOf(deltas[..i]))
    {
      var delta := deltas[i];
      assert deltas[..i + 1][..i] == deltas[..i];
      if Below(delta, dmin) {
        dmin := Finite(delta);
      }
      if Above(delta, dmax) {
        dmax := Finite(delta);
      }
    }
    assert deltas[..deltas.Length] == deltas[..];
  }

  function Midpoint(dmin: real, dmax: real): real {
    (dmin + dmax) / 2.0
  }

  /** The midpoint of the extremes lies between them, at equal distance from both. */
  lemma MidpointBetween(dmin: real, dmax: real)
    requires dmin <= dmax
    ensures dmin <= Midpoint(dmin, dmax) <= dmax
    ensures Midpoint(dmin, dmax) - dmin == dmax - Midpoint(dmin, dmax)
  {
  }

  /** The logistic slope k: ln(99)/(dmax - dmin), or 1 when the extremes coincide, so there is no division by zero. */
  function Slope(dmin: real, dmax: real, log: real -> real): real {
    if dmax - dmin != 0.0 then log(99.0) / (dmax - dmin) else 1.0
  }

  /** The fallback value 1 is used exactly when dmax = dmin; otherwise k * (dmax - dmin) = ln(99). */
  lemma SlopeFallback(dmin: real, dmax: real, log: real -> real)
    ensures dmax == dmin ==> Slope(dmin, dmax, log) == 1.0
    ensures dmax != dmin ==> Slope(dmin, dmax, log) * (dmax - dmin) == log(99.0)
  {
  }

  /** The acceptance estimate of a school whose delta is `delta`, for slope k and the given midpoint. */
  function Acceptance(delta: real, k: real, midpoint: real, exp: real -> real): real
    requires Positive(exp)
  {
    Logistic(exp, k * (delta - midpoint))
  }

  /** score_i = (quality_i + synergy_i) * acceptance_i for schools 0..n-1. */
  function Scores(n: nat, s: real, w: real, aptitude: real, qualities: seq<real>, synergies: seq<real>,
                  exp: real -> real, log: real -> real): seq<real>
    requires 0 < n <= |qualities| && n <= |synergies|
    requires Positive(exp)
  {
    var deltas := Deltas(n, s, w, aptitude, synergies);
    ScoresGiven(qualities, synergies, deltas, Slope(MinOf(deltas), MaxOf(deltas), log),
                Midpoint(MinOf(deltas), MaxOf(deltas)), exp)
  }

  /** The scores once the deltas, the slope and the midpoint are known. */
  function ScoresGiven(qualities: seq<real>, synergies: seq<real>, deltas: seq<real>, k: real, midpoint: real,
                       exp: real -> real): seq<real>
    requires |deltas| <= |qualities| && |deltas| <= |synergies|
    requires Positive(exp)
  {
    seq(|deltas|, i requires 0 <= i < |deltas| => (qualities[i] + synergies[i]) * Acceptance(deltas[i], k, midpoint, exp))
  }

  /** `getApplications`: deltas, their extremes, midpoint and slope, scores, sort (compareTo), first ten. */
  method GetApplications(n: nat, s: real, w: real, aptitude: real, qualities: seq<real>, synergies: seq<real>,
                         exp: real -> real, log: real -> real)
    returns (applications: array<int>)
    requires 10 <= n <= |qualities| && n <= |synergies|
    requires Positive(exp)
    ensures fresh(applications)
    ensures applications[..] == TopTen(Scores(n, s, w, aptitude, qualities, synergies, exp, log))
    ensures IsTop(applications[..], Scores(n, s, w, aptitude, qualities, synergies, exp, log), 10)
  {
    var deltas := new real[n];
    for i := 0 to n
      invariant forall j :: 0 <= j < i ==> deltas[j] == Advantage(aptitude, synergies[j], s, w)
    {
      var synergy := synergies[i];
      var delta := (aptitude + synergy) - ((s + w) / 2.0);
      deltas[i] := delta;
    }
    ghost var d := Deltas(n, s, w, aptitude, synergies);
    assert deltas[..] == d;

    var dmin, dmax := ScanExtremes(deltas);
    assert dmin == Finite(MinOf(d)) && dmax == Finite(MaxOf(d));
    var midpoint := (dmin.value + dmax.value) / 2.0;
    var k := if dmax.value - dmin.value != 0.0 then log(99.0) / (dmax.value - dmin.value) else 1.0;
    assert midpoint == Midpoint(MinOf(d), MaxOf(d));
    assert k == Slope(MinOf(d), MaxOf(d), log);
    assert Scores(n, s, w, aptitude, qualities, synergies, exp, log) == ScoresGiven(qualities, synergies, d, k, midpoint, exp);
    var preferences := ScoreAll(deltas, qualities, synergies, k, midpoint, exp);

    Sort(preferences);
    applications := CopyTopTen(preferences);
    TopTenIsTop(Scores(n, s, w, aptitude, qualities, synergies, exp, log));
  }

  /** The scoring loop of `getApplications`: one record per school, in index order. */
  method ScoreAll(deltas: array<real>, qualities: seq<real>, synergies: seq<real>, k: real, midpoint: real,
                  exp: real -> real)
    returns (preferences: array<Scored>)
    requires deltas.Length <= |qualities| && deltas.Length <= |synergies|
    requires Positive(exp)
    ensures fresh(preferences)
    ensures preferences[..] == Records(ScoresGiven(qualities, synergies, deltas[..], k, midpoint, exp))
  {
    preferences := new Scored[deltas.Length];
    ghost var sc := ScoresGiven(qualities, synergies, deltas[..], k, midpoint, exp);
    for i := 0 to deltas.Length
      invariant forall j :: 0 <= j < i ==> preferences[j] == Scored(j, sc[j])
    {
      var quality := qualities[i];
      var synergy := synergies[i];
      var desirability := quality + synergy;
      var delta := deltas[i];
      var acceptanceProb := 1.0 / (1.0 + exp(-k * (delta - midpoint)));
      AcceptanceInline(delta, k, midpoint, exp);
      var score := desirability * acceptanceProb;
      assert score == sc[i];
      preferences[i] := Scored(i, score);
    }
    assert forall j :: 0 <= j < deltas.Length ==> preferences[j] == Records(sc)[j];
  }

  /** The acceptance estimate as `getApplications` writes it inline. */
  lemma AcceptanceInline(delta: real, k: real, midpoint: real, exp: real -> real)
    requires Positive(exp)
    ensures 1.0 / (1.0 + exp(-k * (delta - midpoint))) == Acceptance(delta, k, midpoint, exp)
  {
  }

  /** Every delta lies between the extremes the scan finds. */
  lemma DeltasWithinExtremes(d: seq<real>, i: nat)
    requires i < |d|
    ensures MinOf(d) <= d[i] <= MaxOf(d)
  {
  }

  /** With ln(99) > 0 the slope is positive. */
  lemma SlopePositive(dmin: real, dmax: real, log: real -> real)
    requires dmin <= dmax
    requires log(99.0) > 0.0
    ensures Slope(dmin, dmax, log) > 0.0
  {
    if dmax != dmin {
      var k := Slope(dmin, dmax, log);
      SlopeFallback(dmin, dmax, log);
      if k <= 0.0 {
        ScaleMonotone(dmax - dmin, k, 0.0);
      }
    }
  }

  lemma ScaledLogisticMonotone(exp: real -> real, k: real, a: real, b: real)
    requires Positive(exp) && Increasing(exp)
    requires k > 0.0 && a <= b
    ensures Logistic(exp, k * a) <= Logistic(exp, k * b)
  {
    ScaleMonotone(k, a, b);
    LogisticMonotone(exp, k * a, k * b);
  }

  /** With a positive slope and exp increasing, a larger delta never gets a smaller acceptance estimate. */
  lemma AcceptanceMonotone(k: real, midpoint: real, di: real, dj: real, exp: real -> real)
    requires k > 0.0 && di <= dj
    requires Positive(exp) && Increasing(exp)
    ensures Acceptance(di, k, midpoint, exp) <= Acceptance(dj, k, midpoint, exp)
  {
    ScaledLogisticMonotone(exp, k, di - midpoint, dj - midpoint);
  }

  /**
   * When ln(99) > 0 and exp is increasing, a school where the applicant's
   * advantage is larger never gets a smaller acceptance estimate.
   */
  lemma AcceptanceFollowsAdvantage(d: seq<real>, i: nat, j: nat, exp: real -> real, log: real -> real)
    requires i < |d| && j < |d|
    requires d[i] <= d[j]
    requires Positive(exp) && Increasing(exp)
    requires log(99.0) > 0.0
    ensures var k, m := Slope(MinOf(d), MaxOf(d), log), Midpoint(MinOf(d), MaxOf(d));
            Acceptance(d[i], k, m, exp) <= Acceptance(d[j], k, m, exp)
  {
    DeltasWithinExtremes(d, i);
    SlopePositive(MinOf(d), MaxOf(d), log);
    AcceptanceMonotone(Slope(MinOf(d), MaxOf(d), log), Midpoint(MinOf(d), MaxOf(d)), d[i], d[j], exp);
  }
}
