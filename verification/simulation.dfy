/**
 * Student_simulation: estimate the probability of being the top applicant at
 * each school by M mini-lotteries of COMP_POOL random competitors, weight the
 * school's desirability (quality + synergy) by it, and apply to the first ten
 * by that expected utility.
 */
module Simulation {
  import opened Ranking
  import opened Numeric
  import opened MiniLottery

  /** Mini-lotteries per school. */
  const M: nat := 300
  /** Competitors per mini-lottery. */
  const CompPool: nat := 30

  /** The position of the first draw of school u's lotteries: schools are simulated in index order, each reading on from the previous one. */
  function StartOf(draws: nat -> real, pos: nat, u: nat, s: real, w: real, aptitude: real, synergies: seq<real>): nat
    requires u <= |synergies|
  {
    if u == 0 then pos
    else Wins(draws, StartOf(draws, pos, u - 1, s, w, aptitude, synergies), M, CompPool, s, w, aptitude + synergies[u - 1]).next
  }

  /** The lotteries of school u: M trials against competitors who must stay below aptitude + synergy_u. */
  function SchoolTally(draws: nat -> real, pos: nat, u: nat, s: real, w: real, aptitude: real, synergies: seq<real>): Tally
    requires u < |synergies|
  {
    Wins(draws, StartOf(draws, pos, u, s, w, aptitude, synergies), M, CompPool, s, w, aptitude + synergies[u])
  }

  /** A school's desirability times the share of its lotteries won. */
  function ExpectedUtility(desirability: real, t: Tally): real {
    desirability * Estimate(t, M)
  }

  /** The expected utility of school u. */
  function UtilityOf(draws: nat -> real, pos: nat, u: nat, s: real, w: real, aptitude: real,
                     schools: seq<real>, synergies: seq<real>): real
    requires u < |schools| && u < |synergies|
  {
    ExpectedUtility(schools[u] + synergies[u], SchoolTally(draws, pos, u, s, w, aptitude, synergies))
  }

  /** The expected utilities of schools 0..n-1. */
  function Utilities(draws: nat -> real, pos: nat, n: nat, s: real, w: real, aptitude: real,
                     schools: seq<real>, synergies: seq<real>): seq<real>
    requires n <= |schools| && n <= |synergies|
  {
    seq(n, u requires 0 <= u < n => UtilityOf(draws, pos, u, s, w, aptitude, schools, synergies))
  }

  /** `getApplications`: M lotteries per school, expected utility, sort (compareTo), first ten. */
  method GetApplications(n: nat, s: real, w: real, aptitude: real, schools: seq<real>, synergies: seq<real>,
                         draws: nat -> real, pos: nat)
    returns (ret: array<int>, next: nat)
    requires 10 <= n <= |schools| && n <= |synergies|
    ensures fresh(ret)
    ensures next == StartOf(draws, pos, n, s, w, aptitude, synergies)
    ensures ret[..] == TopTen(Utilities(draws, pos, n, s, w, aptitude, schools, synergies))
    ensures IsTop(ret[..], Utilities(draws, pos, n, s, w, aptitude, schools, synergies), 10)
  {
    var scores := new Scored[n];
    next := pos;
    for u := 0 to n
      invariant next == StartOf(draws, pos, u, s, w, aptitude, synergies)
      invariant forall j :: 0 <= j < u ==> scores[j] == Scored(j, UtilityOf(draws, pos, j, s, w, aptitude, schools, synergies))
    {
      var expUtility;
      expUtility, next := SimulateSchool(u, s, w, aptitude, schools, synergies, draws, pos, next);
      scores[u] := Scored(u, expUtility);
    }
    ghost var values := Utilities(draws, pos, n, s, w, aptitude, schools, synergies);
    assert scores[..] == Records(values);
    Sort(scores);
    ret := CopyTopTen(scores);
    TopTenIsTop(values);
  }

  /** The body of the per-school loop: M lotteries for school u, then its expected utility. */
  method SimulateSchool(u: nat, s: real, w: real, aptitude: real, schools: seq<real>, synergies: seq<real>,
                        draws: nat -> real, pos: nat, start: nat)
    returns (expUtility: real, next: nat)
    requires u < |schools| && u < |synergies|
    requires start == StartOf(draws, pos, u, s, w, aptitude, synergies)
    ensures expUtility == UtilityOf(draws, pos, u, s, w, aptitude, schools, synergies)
    ensures next == StartOf(draws, pos, u + 1, s, w, aptitude, synergies)
  {
    var myCompet := aptitude + synergies[u];
    var numWins;
    numWins, next := CountWins(draws, start, M, CompPool, s, w, myCompet);
    var pAdmission := numWins as real / M as real;
    var desirability := schools[u] + synergies[u];
    expUtility := desirability * pAdmission;
    SchoolStep(u, s, w, aptitude, schools, synergies, draws, pos, Tally(numWins, next), desirability, pAdmission);
  }

  /** School u's tally determines where school u + 1 starts and, with the desirability, school u's expected utility. */
  lemma SchoolStep(u: nat, s: real, w: real, aptitude: real, schools: seq<real>, synergies: seq<real>,
                   draws: nat -> real, pos: nat, t: Tally, desirability: real, pAdmission: real)
    requires u < |schools| && u < |synergies|
    requires t == SchoolTally(draws, pos, u, s, w, aptitude, synergies)
    requires desirability == schools[u] + synergies[u]
    requires pAdmission == t.wins as real / M as real
    ensures desirability * pAdmission == UtilityOf(draws, pos, u, s, w, aptitude, schools, synergies)
    ensures t.next == StartOf(draws, pos, u + 1, s, w, aptitude, synergies)
  {
    assert pAdmission == Estimate(t, M);
    assert UtilityOf(draws, pos, u, s, w, aptitude, schools, synergies) == ExpectedUtility(desirability, t);
  }

  /** Winning a share of at most M trials keeps the expected utility between 0 and the desirability; all of them gives the desirability, none gives 0. */
  lemma ExpectedUtilityBounds(desirability: real, t: Tally)
    requires t.wins <= M
    ensures desirability >= 0.0 ==> 0.0 <= ExpectedUtility(desirability, t) <= desirability
    ensures t.wins == M ==> ExpectedUtility(desirability, t) == desirability
    ensures t.wins == 0 ==> ExpectedUtility(desirability, t) == 0.0
  {
    var p := Estimate(t, M);
    assert ExpectedUtility(desirability, t) == desirability * p;
    FractionAtMostOne(t.wins as real, M as real);
    if desirability >= 0.0 {
      WeightedBetween(desirability, p);
    }
    if t.wins == M {
      assert p == 1.0;
    }
  }

  /**
   * With S, W >= 0 and draws in [0, 1): school i's expected utility lies
   * between 0 and its desirability when that is non-negative; it is the whole
   * desirability when aptitude + synergy exceeds S + W, and 0 when
   * aptitude + synergy is not positive.
   */
  lemma UtilityBounded(draws: nat -> real, pos: nat, n: nat, i: nat, s: real, w: real, aptitude: real,
                       schools: seq<real>, synergies: seq<real>)
    requires i < n <= |schools| && n <= |synergies|
    requires UnitDraws(draws)
    requires s >= 0.0 && w >= 0.0
    ensures var v := Utilities(draws, pos, n, s, w, aptitude, schools, synergies)[i];
            var d := schools[i] + synergies[i];
            && (d >= 0.0 ==> 0.0 <= v <= d)
            && (aptitude + synergies[i] > s + w ==> v == d)
            && (aptitude + synergies[i] <= 0.0 ==> v == 0.0)
  {
    var start := StartOf(draws, pos, i, s, w, aptitude, synergies);
    var myCompet := aptitude + synergies[i];
    var t := SchoolTally(draws, pos, i, s, w, aptitude, synergies);
    WinsCertain(draws, start, M, CompPool, s, w, myCompet);
    ExpectedUtilityBounds(schools[i] + synergies[i], t);
  }
}
