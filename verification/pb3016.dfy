/**
 * Student_pb3016: rank schools by desirability (quality + synergy) plus
 * competitiveness (aptitude + synergy minus the average competitor's
 * aptitude + synergy, S/2 + W/2), and apply to the first ten.
 */
module Pb3016 {
  import opened Ranking
  import opened Numeric

  /** The metric of one school. */
  function Metric(quality: real, synergy: real, aptitude: real, s: real, w: real): real {
    (quality + synergy) + Advantage(aptitude, synergy, s, w)
  }

  /** The metrics of schools 0..n-1. */
  function Metrics(n: nat, s: real, w: real, aptitude: real, schools: seq<real>, synergies: seq<real>): seq<real>
    requires n <= |schools| && n <= |synergies|
  {
    seq(n, i requires 0 <= i < n => Metric(schools[i], synergies[i], aptitude, s, w))
  }

  /** `getApplications`: score every school, sort by metric (compareTo), copy out the first ten. */
  method GetApplications(n: nat, s: real, w: real, aptitude: real, schools: seq<real>, synergies: seq<real>)
    returns (ret: array<int>)
    requires 10 <= n <= |schools| && n <= |synergies|
    ensures fresh(ret)
    ensures ret[..] == TopTen(Metrics(n, s, w, aptitude, schools, synergies))
    ensures IsTop(ret[..], Metrics(n, s, w, aptitude, schools, synergies), 10)
  {
    var preferences := new Scored[n];
    var avgCompetitor := s / 2.0 + w / 2.0;
    for i := 0 to n
      invariant forall j :: 0 <= j < i ==> preferences[j] == Scored(j, Metric(schools[j], synergies[j], aptitude, s, w))
    {
      var quality := schools[i];
      var synergy := synergies[i];
      var desirability := quality + synergy;
      var competitiveness := (aptitude + synergy) - avgCompetitor;
      var metric := desirability + competitiveness;
      preferences[i] := Scored(i, metric);
    }
    assert preferences[..] == Records(Metrics(n, s, w, aptitude, schools, synergies));
    Sort(preferences);
    ret := CopyTopTen(preferences);
    TopTenIsTop(Metrics(n, s, w, aptitude, schools, synergies));
  }

  /** The metric is quality + 2 * synergy plus a constant that is the same for every school. */
  lemma MetricDecomposes(quality: real, synergy: real, aptitude: real, s: real, w: real)
    ensures Metric(quality, synergy, aptitude, s, w) == (quality + 2.0 * synergy) + (aptitude - (s / 2.0 + w / 2.0))
  {
  }

  /** The schools chosen, and their order, depend only on quality + 2 * synergy: aptitude, S and W play no part. */
  lemma ChoiceDependsOnlyOnQualityAndSynergy(n: nat, s: real, w: real, aptitude: real, schools: seq<real>, synergies: seq<real>)
    requires 10 <= n <= |schools| && n <= |synergies|
    ensures TopTen(Metrics(n, s, w, aptitude, schools, synergies))
         == TopTen(seq(n, i requires 0 <= i < n => schools[i] + 2.0 * synergies[i]))
  {
    var base := seq(n, i requires 0 <= i < n => schools[i] + 2.0 * synergies[i]);
    var c := aptitude - (s / 2.0 + w / 2.0);
    assert Metrics(n, s, w, aptitude, schools, synergies) == seq(n, i requires 0 <= i < n => base[i] + c);
    TopTenShift(base, c);
  }
}
