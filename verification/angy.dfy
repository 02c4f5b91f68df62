/**
 * Student_angy: weight each school's desirability (quality + synergy) by a
 * logistic competitiveness factor of how far aptitude + synergy is above the
 * average competitor's, and apply to the first ten by that score.
 */
module Angy {
  import opened Ranking
  import opened Numeric

  const Aggressiveness: real := 0.5

  /** The score of one school: desirability times the competitiveness factor. */
  function Score(quality: real, synergy: real, aptitude: real, s: real, w: real, exp: real -> real): real
    requires Positive(exp)
  {
    (quality + synergy) * Logistic(exp, Aggressiveness * Advantage(aptitude, synergy, s, w))
  }

  function Scores(n: nat, s: real, w: real, aptitude: real, schools: seq<real>, synergies: seq<real>, exp: real -> real): seq<real>
    requires n <= |schools| && n <= |synergies|
    requires Positive(exp)
  {
    seq(n, i requires 0 <= i < n => Score(schools[i], synergies[i], aptitude, s, w, exp))
  }

  /** `getApplications`: score every school, sort by score (compareTo), copy out the first ten. */
  method GetApplications(n: nat, s: real, w: real, aptitude: real, schools: seq<real>, synergies: seq<real>, exp: real -> real)
    returns (ret: array<int>)
    requires 10 <= n <= |schools| && n <= |synergies|
    requires Positive(exp)
    ensures fresh(ret)
    ensures ret[..] == TopTen(Scores(n, s, w, aptitude, schools, synergies, exp))
    ensures IsTop(ret[..], Scores(n, s, w, aptitude, schools, synergies, exp), 10)
  {
    var preferences := new Scored[n];
    var avgCompetitor := s / 2.0 + w / 2.0;
    var aggressiveness := Aggressiveness;
    for i := 0 to n
      invariant forall j :: 0 <= j < i ==> preferences[j] == Scored(j, Score(schools[j], synergies[j], aptitude, s, w, exp))
    {
      var quality := schools[i];
      var synergy := synergies[i];
      var desirability := quality + synergy;
      var delta := (aptitude + synergy) - avgCompetitor;
      var competitivenessFactor := 1.0 / (1.0 + exp(-aggressiveness * delta));
      assert competitivenessFactor == Logistic(exp, Aggressiveness * Advantage(aptitude, synergy, s, w));
      var score := desirability * competitivenessFactor;
      preferences[i] := Scored(i, score);
    }
    assert preferences[..] == Records(Scores(n, s, w, aptitude, schools, synergies, exp));
    Sort(preferences);
    ret := CopyTopTen(preferences);
    TopTenIsTop(Scores(n, s, w, aptitude, schools, synergies, exp));
  }

  /** The competitiveness factor is strictly between 0 and 1, so a school's score lies between 0 and its desirability. */
  lemma ScoreWithinDesirability(quality: real, synergy: real, aptitude: real, s: real, w: real, exp: real -> real)
    requires Positive(exp)
    requires 0.0 <= quality + synergy
    ensures 0.0 <= Score(quality, synergy, aptitude, s, w, exp) <= quality + synergy
  {
    WeightedBetween(quality + synergy, Logistic(exp, Aggressiveness * Advantage(aptitude, synergy, s, w)));
  }
}
