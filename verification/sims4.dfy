/**
 * Student_sims4: mini-lotteries against "holist" competitors. Each competitor
 * draws an aptitude on [0, S) and a synergy on [0, W) for every school, applies
 * to the ten schools with the highest quality + synergy, and only competitors
 * who apply to a school compete there. A trial is won when no applicant to the
 * school reaches the applicant's aptitude + synergy; the share of M trials won
 * weights the school's desirability, and the first ten by that expected
 * utility are applied to.
 *
 * The draws are an input stream read in the order the source calls
 * `nextDouble()`: per competitor the aptitude and then the synergies of
 * schools 0..N-1, competitors one after the other, every competitor of a
 * trial drawn before any is checked.
 */
module Sims4 {
  import opened Ranking
  import opened Numeric
  import opened MiniLottery

  /** Mini-lotteries per school. */
  const M: nat := 100
  /** Competitors per mini-lottery. */
  const PoolSize: nat := 30

  /** A holist competitor: aptitude, one synergy per school, and the ten schools applied to. */
  datatype Holist = Holist(aptitude: real, synergy: seq<real>, apps: seq<int>)

  /** quality + synergy of every school for a competitor with synergies `syn`: the value a `SchoolChoice` holds. */
  function Values(schools: seq<real>, syn: seq<real>): seq<real>
    requires |schools| <= |syn|
  {
    seq(|schools|, i requires 0 <= i < |schools| => schools[i] + syn[i])
  }

  /** The competitor the constructor builds: it applies to the first ten schools by value in compareTo order. */
  function Competitor(apt: real, syn: seq<real>, schools: seq<real>): Holist
    requires 10 <= |schools| <= |syn|
  {
    Holist(apt, syn, TopTen(Values(schools, syn)))
  }

  /** The HolistCompetitor constructor: value every school, sort the choices (compareTo), keep the first ten. */
  method NewHolist(apt: real, syn: seq<real>, schools: seq<real>) returns (h: Holist)
    requires 10 <= |schools| <= |syn|
    ensures h == Competitor(apt, syn, schools)
    ensures IsTop(h.apps, Values(schools, syn), 10)
  {
    var n := |schools|;
    ghost var records := Records(Values(schools, syn));
    var choices := new Scored[n];
    for i := 0 to n
      invariant choices[..i] == records[..i]
    {
      var value := schools[i] + syn[i];
      choices[i] := Scored(i, value);
    }
    assert choices[..] == records;
    Sort(choices);
    var apps := CopyTopTen(choices);
    h := Holist(apt, syn, apps[..]);
    TopTenIsTop(Values(schools, syn));
  }

  /** `appliesTo`: scan the ten applications for u. */
  method AppliesTo(h: Holist, u: int) returns (b: bool)
    ensures b <==> u in h.apps
  {
    for i := 0 to |h.apps|
      invariant u !in h.apps[..i]
    {
      if h.apps[i] == u {
        return true;
      }
      assert h.apps[..i + 1] == h.apps[..i] + [h.apps[i]];
    }
    assert h.apps[..|h.apps|] == h.apps;
    return false;
  }

  /** `competitivenessAt`: how school u ranks the competitor. */
  function CompetitivenessAt(h: Holist, u: int): real
    requires 0 <= u < |h.synergy|
  {
    h.aptitude + h.synergy[u]
  }

  /** Every competitor of the pool has a synergy for school u. */
  predicate Covers(pool: seq<Holist>, u: int) {
    0 <= u && forall c :: 0 <= c < |pool| ==> u < |pool[c].synergy|
  }

  /** The competitor applies to u and ranks at least as high there as the applicant. */
  predicate Beats(h: Holist, u: int, myCompet: real)
    requires 0 <= u < |h.synergy|
  {
    u in h.apps && CompetitivenessAt(h, u) >= myCompet
  }

  /** The applicant is top at u: no competitor of the pool beats them there. */
  predicate TopAmong(pool: seq<Holist>, u: int, myCompet: real)
    requires Covers(pool, u)
  {
    forall c :: 0 <= c < |pool| ==> !Beats(pool[c], u, myCompet)
  }

  /** The check loop of a trial: the first competitor who applies to u and reaches the applicant ends it. */
  method CheckTop(pool: seq<Holist>, u: int, myCompet: real) returns (iAmTop: bool)
    requires Covers(pool, u)
    ensures iAmTop == TopAmong(pool, u, myCompet)
  {
    iAmTop := true;
    var c := 0;
    while c < |pool|
      invariant 0 <= c <= |pool|
      invariant forall c' :: 0 <= c' < c ==> !Beats(pool[c'], u, myCompet)
    {
      var hc := pool[c];
      var applies := AppliesTo(hc, u);
      if applies {
        var competitorRank := CompetitivenessAt(hc, u);
        if competitorRank >= myCompet {
          iAmTop := false;
          assert Beats(pool[c], u, myCompet);
          break;
        }
      }
      c := c + 1;
    }
  }

  /** The competitors of the pool who apply to u, in pool order. */
  function Applicants(pool: seq<Holist>, u: int): (a: seq<Holist>)
    ensures forall h :: h in a <==> h in pool && u in h.apps
  {
    if pool == [] then []
    else (if u in pool[0].apps then [pool[0]] else []) + Applicants(pool[1..], u)
  }

  /** Competitors who do not apply to u never change the outcome at u: only the applicants count. */
  lemma {:induction false} NonApplicantsIrrelevant(pool: seq<Holist>, u: int, myCompet: real)
    requires Covers(pool, u)
    ensures Covers(Applicants(pool, u), u)
    ensures TopAmong(pool, u, myCompet) <==> TopAmong(Applicants(pool, u), u, myCompet)
  {
    var a := Applicants(pool, u);
    assert Covers(a, u) by {
      forall c | 0 <= c < |a|
        ensures u < |a[c].synergy|
      {
        assert a[c] in a;
        var j :| 0 <= j < |pool| && pool[j] == a[c];
      }
    }
    if TopAmong(pool, u, myCompet) {
      forall c | 0 <= c < |a|
        ensures !Beats(a[c], u, myCompet)
      {
        assert a[c] in a;
        var j :| 0 <= j < |pool| && pool[j] == a[c];
      }
    }
    if TopAmong(a, u, myCompet) {
      forall c | 0 <= c < |pool|
        ensures !Beats(pool[c], u, myCompet)
      {
        if u in pool[c].apps {
          assert pool[c] in pool;
          assert pool[c] in a;
          var j :| 0 <= j < |a| && a[j] == pool[c];
        }
      }
    }
  }

  /** The synergies a competitor draws for schools 0..n-1, starting at draw p. */
  function SynDraws(draws: nat -> real, p: nat, n: nat, w: real): seq<real> {
    seq(n, k requires 0 <= k < n => draws(p + k) * w)
  }

  /** The competitor whose draws start at p: aptitude first, then one synergy per school. */
  function CompetitorAt(draws: nat -> real, p: nat, n: nat, s: real, w: real, schools: seq<real>): Holist
    requires 10 <= |schools| <= n
  {
    Competitor(draws(p) * s, SynDraws(draws, p + 1, n, w), schools)
  }

  /** The draws one competitor consumes: an aptitude and N synergies. */
  function Stride(n: nat): nat {
    n + 1
  }

  /** The pool of a trial whose draws start at p: competitor c reads from p + c * (N + 1) on. */
  function Pool(draws: nat -> real, p: nat, n: nat, s: real, w: real, schools: seq<real>): (pool: seq<Holist>)
    requires 10 <= |schools| <= n
    ensures |pool| == PoolSize
    ensures forall c :: 0 <= c < |pool| ==> |pool[c].synergy| == n
  {
    seq(PoolSize, c requires 0 <= c < PoolSize => CompetitorAt(draws, p + c * Stride(n), n, s, w, schools))
  }

  /** One competitor: `rand.nextDouble() * S`, then N synergies `rand.nextDouble() * W`, then the constructor. */
  method DrawCompetitor(draws: nat -> real, p: nat, n: nat, s: real, w: real, schools: seq<real>)
    returns (h: Holist, next: nat)
    requires 10 <= |schools| <= n
    ensures h == CompetitorAt(draws, p, n, s, w, schools)
    ensures next == p + n + 1
  {
    var cApt := draws(p) * s;
    var cSyn := new real[n];
    next := p + 1;
    for k := 0 to n
      invariant next == p + 1 + k
      invariant cSyn[..k] == SynDraws(draws, p + 1, n, w)[..k]
    {
      assert SynDraws(draws, p + 1, n, w)[k] == draws(next) * w;
      cSyn[k] := draws(next) * w;
      next := next + 1;
    }
    assert cSyn[..] == SynDraws(draws, p + 1, n, w);
    h := NewHolist(cApt, cSyn[..], schools);
  }

  /** One trial: draw the whole pool, then check whether the applicant is top at u. */
  method RunTrial(draws: nat -> real, p: nat, n: nat, s: real, w: real, schools: seq<real>, u: int, myCompet: real)
    returns (iAmTop: bool, next: nat)
    requires 10 <= |schools| <= n && 0 <= u < n
    ensures iAmTop == TopAmong(Pool(draws, p, n, s, w, schools), u, myCompet)
    ensures next == p + PoolSize * Stride(n)
  {
    ghost var pool := Pool(draws, p, n, s, w, schools);
    var competitorPool: seq<Holist> := [];
    next := p;
    for c := 0 to PoolSize
      invariant next == p + c * Stride(n)
      invariant competitorPool == pool[..c]
    {
      var hc;
      hc, next := DrawCompetitor(draws, next, n, s, w, schools);
      competitorPool := competitorPool + [hc];
      assert next == p + (c + 1) * Stride(n);
    }
    assert competitorPool == pool;
    iAmTop := CheckTop(competitorPool, u, myCompet);
  }

  /** `trials` trials at school u from draw p on: the number won and the next unread draw. */
  function Trials(draws: nat -> real, p: nat, trials: nat, n: nat, s: real, w: real, schools: seq<real>,
                  u: int, myCompet: real): (t: Tally)
    requires 10 <= |schools| <= n && 0 <= u < n
    ensures t.wins <= trials
    decreases trials, p
  {
    if trials == 0 then
      Tally(0, p)
    else
      var before := Trials(draws, p, trials - 1, n, s, w, schools, u, myCompet);
      var won := TopAmong(Pool(draws, before.next, n, s, w, schools), u, myCompet);
      Tally(before.wins + (if won then 1 else 0), before.next + PoolSize * Stride(n))
  }

  /** The trial loop of one school: count the trials won out of M. */
  method CountWins(draws: nat -> real, p: nat, n: nat, s: real, w: real, schools: seq<real>, u: int, myCompet: real)
    returns (wins: nat, next: nat)
    requires 10 <= |schools| <= n && 0 <= u < n
    ensures Tally(wins, next) == Trials(draws, p, M, n, s, w, schools, u, myCompet)
  {
    wins := 0;
    next := p;
    for trial := 0 to M
      invariant Tally(wins, next) == Trials(draws, p, trial, n, s, w, schools, u, myCompet)
    {
      var iAmTop;
      iAmTop, next := RunTrial(draws, next, n, s, w, schools, u, myCompet);
      if iAmTop {
        wins := wins + 1;
      }
    }
  }

  /** The first draw of school u's trials: schools are simulated in index order. */
  function SchoolStart(draws: nat -> real, pos: nat, u: nat, n: nat, s: real, w: real, aptitude: real,
                       schools: seq<real>, synergies: seq<real>): nat
    requires 10 <= |schools| <= n && u <= n && n <= |synergies|
  {
    if u == 0 then pos
    else Trials(draws, SchoolStart(draws, pos, u - 1, n, s, w, aptitude, schools, synergies), M, n, s, w, schools,
                u - 1, aptitude + synergies[u - 1]).next
  }

  /** The M trials of school u. */
  function SchoolTally(draws: nat -> real, pos: nat, u: nat, n: nat, s: real, w: real, aptitude: real,
                       schools: seq<real>, synergies: seq<real>): Tally
    requires 10 <= |schools| <= n && u < n <= |synergies|
  {
    Trials(draws, SchoolStart(draws, pos, u, n, s, w, aptitude, schools, synergies), M, n, s, w, schools,
           u, aptitude + synergies[u])
  }

  /** A school's desirability times the share of its trials won. */
  function ExpectedUtility(desirability: real, t: Tally): real {
    desirability * Estimate(t, M)
  }

  /** The expected utility of school u. */
  function UtilityOf(draws: nat -> real, pos: nat, u: nat, n: nat, s: real, w: real, aptitude: real,
                     schools: seq<real>, synergies: seq<real>): real
    requires 10 <= |schools| == n <= |synergies| && u < n
  {
    ExpectedUtility(Desirability(schools, synergies, u), SchoolTally(draws, pos, u, n, s, w, aptitude, schools, synergies))
  }

  /** The expected utilities of schools 0..N-1. */
  function Utilities(draws: nat -> real, pos: nat, n: nat, s: real, w: real, aptitude: real,
                     schools: seq<real>, synergies: seq<real>): seq<real>
    requires 10 <= |schools| == n <= |synergies|
  {
    seq(n, u requires 0 <= u < n => UtilityOf(draws, pos, u, n, s, w, aptitude, schools, synergies))
  }

  /** `getApplications`: M trials per school, expected utility, sort (compareTo), first ten. */
  method GetApplications(n: nat, s: real, w: real, aptitude: real, schools: seq<real>, synergies: seq<real>,
                         draws: nat -> real, pos: nat)
    returns (ret: array<int>, next: nat)
    requires 10 <= n == |schools| && n <= |synergies|
    ensures fresh(ret)
    ensures next == SchoolStart(draws, pos, n, n, s, w, aptitude, schools, synergies)
    ensures ret[..] == TopTen(Utilities(draws, pos, n, s, w, aptitude, schools, synergies))
    ensures IsTop(ret[..], Utilities(draws, pos, n, s, w, aptitude, schools, synergies), 10)
  {
    var results := new Scored[n];
    next := pos;
    for u := 0 to n
      invariant next == SchoolStart(draws, pos, u, n, s, w, aptitude, schools, synergies)
      invariant forall j :: 0 <= j < u ==> results[j] == Scored(j, UtilityOf(draws, pos, j, n, s, w, aptitude, schools, synergies))
    {
      var expUtility;
      expUtility, next := SimulateSchool(u, n, s, w, aptitude, schools, synergies, draws, pos, next);
      results[u] := Scored(u, expUtility);
    }
    ghost var values := Utilities(draws, pos, n, s, w, aptitude, schools, synergies);
    assert results[..] == Records(values);
    Sort(results);
    ret := CopyTopTen(results);
    TopTenIsTop(values);
  }

  /** The body of the per-school loop: M trials at school u, then its expected utility. */
  method SimulateSchool(u: nat, n: nat, s: real, w: real, aptitude: real, schools: seq<real>, synergies: seq<real>,
                        draws: nat -> real, pos: nat, start: nat)
    returns (expUtility: real, next: nat)
    requires 10 <= |schools| == n <= |synergies| && u < n
    requires start == SchoolStart(draws, pos, u, n, s, w, aptitude, schools, synergies)
    ensures expUtility == UtilityOf(draws, pos, u, n, s, w, aptitude, schools, synergies)
    ensures next == SchoolStart(draws, pos, u + 1, n, s, w, aptitude, schools, synergies)
  {
    var myCompet := aptitude + synergies[u];
    var wins;
    wins, next := CountWins(draws, start, n, s, w, schools, u, myCompet);
    var pAdmission := wins as real / M as real;
    var desirability := schools[u] + synergies[u];
    expUtility := desirability * pAdmission;
    UtilityStep(Tally(wins, next), desirability, pAdmission);
  }

  /** The share of M trials won, weighting the desirability, is the school's expected utility. */
  lemma UtilityStep(t: Tally, desirability: real, pAdmission: real)
    requires pAdmission == t.wins as real / M as real
    ensures desirability * pAdmission == ExpectedUtility(desirability, t)
  {
    assert pAdmission == Estimate(t, M);
  }

  /** A competitor drawn from unit draws with S, W >= 0 ranks at most S + W at every school. */
  lemma CompetitorBounded(draws: nat -> real, p: nat, n: nat, s: real, w: real, schools: seq<real>, u: nat)
    requires UnitDraws(draws)
    requires s >= 0.0 && w >= 0.0
    requires 10 <= |schools| <= n && u < n
    ensures CompetitivenessAt(CompetitorAt(draws, p, n, s, w, schools), u) <= s + w
  {
    var h := CompetitorAt(draws, p, n, s, w, schools);
    assert h.aptitude <= s by {
      WeightedBetween(s, draws(p));
    }
    assert h.synergy[u] <= w by {
      assert h.synergy[u] == draws(p + 1 + u) * w;
      WeightedBetween(w, draws(p + 1 + u));
    }
  }

  /** An applicant above S + W is top in every pool drawn from unit draws, whoever applies. */
  lemma TopCertain(draws: nat -> real, p: nat, n: nat, s: real, w: real, schools: seq<real>, u: nat, myCompet: real)
    requires UnitDraws(draws)
    requires s >= 0.0 && w >= 0.0 && myCompet > s + w
    requires 10 <= |schools| <= n && u < n
    ensures TopAmong(Pool(draws, p, n, s, w, schools), u, myCompet)
  {
    var pool := Pool(draws, p, n, s, w, schools);
    forall c | 0 <= c < |pool|
      ensures !Beats(pool[c], u, myCompet)
    {
      CompetitorBounded(draws, p + c * Stride(n), n, s, w, schools, u);
    }
  }

  /** An applicant above S + W wins every trial, whoever applies. */
  lemma {:induction false} TrialsCertain(draws: nat -> real, p: nat, trials: nat, n: nat, s: real, w: real,
                                         schools: seq<real>, u: nat, myCompet: real)
    requires UnitDraws(draws)
    requires s >= 0.0 && w >= 0.0 && myCompet > s + w
    requires 10 <= |schools| <= n && u < n
    ensures Trials(draws, p, trials, n, s, w, schools, u, myCompet).wins == trials
    decreases trials
  {
    if trials > 0 {
      var before := Trials(draws, p, trials - 1, n, s, w, schools, u, myCompet);
      TrialsCertain(draws, p, trials - 1, n, s, w, schools, u, myCompet);
      TopCertain(draws, before.next, n, s, w, schools, u, myCompet);
    }
  }

  /** Winning a share of at most M trials keeps the expected utility between 0 and the desirability; all of them gives the desirability, none gives 0. */
  lemma ExpectedUtilityBounds(desirability: real, t: Tally)
    requires t.wins <= M
    ensures desirability >= 0.0 ==> 0.0 <= ExpectedUtility(desirability, t) <= desirability
    ensures t.wins == M ==> ExpectedUtility(desirability, t) == desirability
    ensures t.wins == 0 ==> ExpectedUtility(desirability, t) == 0.0
  {
    var p := Estimate(t, M);
    assert ExpectedUtility(desirability, t) == desirability * p;
    FractionAtMostOne(t.wins as real, M as real);
    if desirability >= 0.0 {
      WeightedBetween(desirability, p);
    }
    if t.wins == M {
      assert p == 1.0;
    }
  }

  /**
   * School u's expected utility lies between 0 and its desirability when that
   * is non-negative; with S, W >= 0 and unit draws, it is the whole
   * desirability when aptitude + synergy_u exceeds S + W.
   */
  lemma UtilityBounded(draws: nat -> real, pos: nat, n: nat, u: nat, s: real, w: real, aptitude: real,
                       schools: seq<real>, synergies: seq<real>)
    requires 10 <= |schools| == n <= |synergies| && u < n
    ensures var v := Utilities(draws, pos, n, s, w, aptitude, schools, synergies)[u];
            var d := Desirability(schools, synergies, u);
            && (d >= 0.0 ==> 0.0 <= v <= d)
            && (UnitDraws(draws) && s >= 0.0 && w >= 0.0 && aptitude + synergies[u] > s + w ==> v == d)
  {
    var t := SchoolTally(draws, pos, u, n, s, w, aptitude, schools, synergies);
    var d := Desirability(schools, synergies, u);
    assert Utilities(draws, pos, n, s, w, aptitude, schools, synergies)[u] == ExpectedUtility(d, t);
    if UnitDraws(draws) && s >= 0.0 && w >= 0.0 && aptitude + synergies[u] > s + w {
      TrialsCertain(draws, SchoolStart(draws, pos, u, n, s, w, aptitude, schools, synergies), M, n, s, w, schools,
                    u, aptitude + synergies[u]);
    }
    ExpectedUtilityBounds(d, t);
  }
}
