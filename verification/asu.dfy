/**
 * Student_ASU: for N <= K every school is rescored directly (the single
 * phase). For larger N a quick filter keeps the K schools with the highest
 * quality + synergy in compareTo order, and only those are rescored. A
 * rescored school's admission estimate blends a logistic curve in the
 * competitive advantage with the share of M mini-lotteries won; its expected
 * utility is desirability times that estimate, and the first ten by expected
 * utility are applied to.
 *
 * The mini-lotteries read the draw stream in the order the schools are
 * rescored: index order in the single phase, candidate order in the second.
 */
module Asu {
  import opened Ranking
  import opened Numeric
  import opened MiniLottery

  /** Schools kept by the quick filter. */
  const K: nat := 20
  /** Mini-lotteries per school. */
  const M: nat := 120
  /** Competitors per mini-lottery. */
  const PoolSize: nat := 35
  /** Steepness of the logistic estimate. */
  const Aggressiveness: real := 3.0

  /** Which of the two rescoring loops a school is rescored by. */
  datatype Phase = Single | TwoPhase

  /** Every school in `order` is one of 0..n-1. */
  predicate Within(order: seq<int>, n: nat) {
    forall k :: 0 <= k < |order| ==> 0 <= order[k] < n
  }

  /** Schools 0..n-1 in index order. */
  function Order(n: nat): (order: seq<int>)
    ensures |order| == n && Within(order, n)
  {
    seq(n, i requires 0 <= i < n => i)
  }

  /** quality + synergy of schools 0..n-1, the quick desirability measure. */
  function Desirabilities(n: nat, schools: seq<real>, synergies: seq<real>): seq<real>
    requires n <= |schools| && n <= |synergies|
  {
    seq(n, i requires 0 <= i < n => Desirability(schools, synergies, i))
  }

  /** The quick filter: the first K schools by desirability in compareTo order. */
  function Candidates(n: nat, schools: seq<real>, synergies: seq<real>): seq<int>
    requires K <= n <= |schools| && n <= |synergies|
  {
    Top(Records(Desirabilities(n, schools, synergies)), K)
  }

  /** Probability estimate A: 1 / (1 + exp(-AGGRESSIVENESS * advantage)). */
  function PLogistic(exp: real -> real, aptitude: real, synergy: real, s: real, w: real): real
    requires Positive(exp)
  {
    Logistic(exp, Aggressiveness * Advantage(aptitude, synergy, s, w))
  }

  /** The admission estimate: 50% logistic and 50% simulated in the single phase, 60% simulated and 40% logistic in the second. */
  function Blend(phase: Phase, pSim: real, pLogistic: real): real {
    match phase
    case Single => 0.5 * pLogistic + 0.5 * pSim
    case TwoPhase => 0.6 * pSim + 0.4 * pLogistic
  }

  /** aptitude + synergy at each school of `order`: what the competitors of its mini-lotteries must stay below. */
  function Compets(order: seq<int>, aptitude: real, synergies: seq<real>): (c: seq<real>)
    requires Within(order, |synergies|)
    ensures |c| == |order|
  {
    seq(|order|, k requires 0 <= k < |order| => aptitude + synergies[order[k]])
  }

  /** The position of the first draw of the k-th rescored school's lotteries: each school reads on where the previous one stopped. */
  function StartAt(draws: nat -> real, pos: nat, compets: seq<real>, k: nat, s: real, w: real): nat
    requires k <= |compets|
  {
    if k == 0 then pos
    else Wins(draws, StartAt(draws, pos, compets, k - 1, s, w), M, PoolSize, s, w, compets[k - 1]).next
  }

  /** The lotteries of the k-th rescored school. */
  function TallyAt(draws: nat -> real, pos: nat, compets: seq<real>, k: nat, s: real, w: real): Tally
    requires k < |compets|
  {
    Wins(draws, StartAt(draws, pos, compets, k, s, w), M, PoolSize, s, w, compets[k])
  }

  /** The admission estimate of the k-th rescored school, whose synergy is `synergy`. */
  function Admission(phase: Phase, draws: nat -> real, pos: nat, compets: seq<real>, k: nat, s: real, w: real,
                     aptitude: real, synergy: real, exp: real -> real): real
    requires k < |compets|
    requires Positive(exp)
  {
    Blend(phase, Estimate(TallyAt(draws, pos, compets, k, s, w), M), PLogistic(exp, aptitude, synergy, s, w))
  }

  /** The expected utility of the k-th rescored school. */
  function ScoreAt(phase: Phase, order: seq<int>, k: nat, s: real, w: real, aptitude: real,
                   schools: seq<real>, synergies: seq<real>, draws: nat -> real, pos: nat, exp: real -> real): real
    requires k < |order|
    requires Within(order, |schools|) && Within(order, |synergies|)
    requires Positive(exp)
  {
    var u := order[k];
    Desirability(schools, synergies, u)
      * Admission(phase, draws, pos, Compets(order, aptitude, synergies), k, s, w, aptitude, synergies[u], exp)
  }

  /** The records of the rescored schools, in the order they are rescored. */
  function Rescored(phase: Phase, order: seq<int>, s: real, w: real, aptitude: real,
                    schools: seq<real>, synergies: seq<real>, draws: nat -> real, pos: nat, exp: real -> real)
    : (rs: seq<Scored>)
    requires Within(order, |schools|) && Within(order, |synergies|)
    requires Positive(exp)
    ensures |rs| == |order|
  {
    seq(|order|, k requires 0 <= k < |order| =>
      Scored(order[k], ScoreAt(phase, order, k, s, w, aptitude, schools, synergies, draws, pos, exp)))
  }

  /** The expected utilities of schools 0..n-1 in the single phase. */
  function SingleUtilities(n: nat, s: real, w: real, aptitude: real, schools: seq<real>, synergies: seq<real>,
                           draws: nat -> real, pos: nat, exp: real -> real): (u: seq<real>)
    requires n <= |schools| && n <= |synergies|
    requires Positive(exp)
  {
    seq(n, i requires 0 <= i < n => ScoreAt(Single, Order(n), i, s, w, aptitude, schools, synergies, draws, pos, exp))
  }

  /** `doSinglePhase`: rescore all N schools, sort (compareTo), first ten. */
  method DoSinglePhase(n: nat, s: real, w: real, aptitude: real, schools: seq<real>, synergies: seq<real>,
                       draws: nat -> real, pos: nat, exp: real -> real)
    returns (ret: array<int>, next: nat)
    requires 10 <= n <= |schools| && n <= |synergies|
    requires Positive(exp)
    ensures fresh(ret)
    ensures ret[..] == Top(Rescored(Single, Order(n), s, w, aptitude, schools, synergies, draws, pos, exp), 10)
    ensures next == StartAt(draws, pos, Compets(Order(n), aptitude, synergies), n, s, w)
  {
    var data;
    data, next := RescoreAll(n, s, w, aptitude, schools, synergies, draws, pos, exp);
    Sort(data);
    ret := CopyTopTen(data);
  }

  /** The rescoring loop of `doSinglePhase`: one record per school, in index order. */
  method RescoreAll(n: nat, s: real, w: real, aptitude: real, schools: seq<real>, synergies: seq<real>,
                    draws: nat -> real, pos: nat, exp: real -> real)
    returns (data: array<Scored>, next: nat)
    requires n <= |schools| && n <= |synergies|
    requires Positive(exp)
    ensures fresh(data)
    ensures data[..] == Rescored(Single, Order(n), s, w, aptitude, schools, synergies, draws, pos, exp)
    ensures next == StartAt(draws, pos, Compets(Order(n), aptitude, synergies), n, s, w)
  {
    ghost var order := Order(n);
    ghost var compets := Compets(order, aptitude, synergies);
    ghost var rs := Rescored(Single, order, s, w, aptitude, schools, synergies, draws, pos, exp);
    var avgCompetitor := (s / 2.0) + (w / 2.0);
    data := new Scored[n];
    next := pos;
    for i := 0 to n
      invariant next == StartAt(draws, pos, compets, i, s, w)
      invariant data[..i] == rs[..i]
    {
      var rec;
      rec, next := RescoreSchool(Single, order, i, i, avgCompetitor, s, w, aptitude, schools, synergies,
                                 draws, pos, next, exp);
      data[i] := rec;
      PrefixStep(data[..i + 1], rs, i);
    }
    assert data[..] == data[..n];
  }

  /** Extending an agreeing prefix by one agreeing element. */
  lemma PrefixStep(a: seq<Scored>, rs: seq<Scored>, i: nat)
    requires i < |a| == i + 1 && i < |rs|
    requires a[..i] == rs[..i] && a[i] == rs[i]
    ensures a == rs[..i + 1]
  {
  }

  /** The body of both rescoring loops: school order[k]'s record (index, desirability * blended estimate) and the next unread draw. */
  method RescoreSchool(phase: Phase, ghost order: seq<int>, k: nat, idx: int, avgCompetitor: real, s: real, w: real, aptitude: real,
                       schools: seq<real>, synergies: seq<real>, draws: nat -> real, pos: nat, start: nat,
                       exp: real -> real)
    returns (rec: Scored, next: nat)
    requires k < |order| && Within(order, |schools|) && Within(order, |synergies|)
    requires idx == order[k]
    requires avgCompetitor == s / 2.0 + w / 2.0
    requires start == StartAt(draws, pos, Compets(order, aptitude, synergies), k, s, w)
    requires Positive(exp)
    ensures rec == Rescored(phase, order, s, w, aptitude, schools, synergies, draws, pos, exp)[k]
    ensures next == StartAt(draws, pos, Compets(order, aptitude, synergies), k + 1, s, w)
  {
    ghost var compets := Compets(order, aptitude, synergies);
    var quality := schools[idx];
    var synergy := synergies[idx];
    var desirability := quality + synergy;
    var compAdv := (aptitude + synergy) - avgCompetitor;
    var pLogistic, pSim;
    pLogistic, pSim, next := Estimates(k, compets, s, w, aptitude, synergy, draws, pos, start, compAdv, exp);
    var pAdmission := match phase
      case Single => 0.5 * pLogistic + 0.5 * pSim
      case TwoPhase => 0.6 * pSim + 0.4 * pLogistic;
    var expUtility := desirability * pAdmission;
    UtilityStep(phase, order, k, s, w, aptitude, schools, synergies, draws, pos, exp,
                pLogistic, pSim, desirability, pAdmission);
    rec := Scored(idx, expUtility);
  }

  /** Both estimates of the k-th rescored school, whose synergy is `synergy` and whose lotteries start at draw `start`. */
  method Estimates(ghost k: nat, ghost compets: seq<real>, s: real, w: real, aptitude: real, synergy: real,
                   draws: nat -> real, ghost pos: nat, start: nat, compAdv: real, exp: real -> real)
    returns (pLogistic: real, pSim: real, next: nat)
    requires k < |compets| && compets[k] == aptitude + synergy
    requires start == StartAt(draws, pos, compets, k, s, w)
    requires compAdv == Advantage(aptitude, synergy, s, w)
    requires Positive(exp)
    ensures pLogistic == PLogistic(exp, aptitude, synergy, s, w)
    ensures pSim == Estimate(TallyAt(draws, pos, compets, k, s, w), M)
    ensures next == StartAt(draws, pos, compets, k + 1, s, w)
  {
    pLogistic := 1.0 / (1.0 + exp(-Aggressiveness * compAdv));
    assert -Aggressiveness * compAdv == -(Aggressiveness * compAdv);
    pSim, next := EstimateProbabilitySimulation(draws, start, aptitude, synergy, s, w, M, PoolSize);
  }

  /** The expected utility the loops compute is the specified one. */
  lemma UtilityStep(phase: Phase, order: seq<int>, k: nat, s: real, w: real, aptitude: real,
                    schools: seq<real>, synergies: seq<real>, draws: nat -> real, pos: nat, exp: real -> real,
                    pLogistic: real, pSim: real, desirability: real, pAdmission: real)
    requires k < |order| && Within(order, |schools|) && Within(order, |synergies|)
    requires Positive(exp)
    requires pLogistic == PLogistic(exp, aptitude, synergies[order[k]], s, w)
    requires pSim == Estimate(TallyAt(draws, pos, Compets(order, aptitude, synergies), k, s, w), M)
    requires desirability == Desirability(schools, synergies, order[k])
    requires pAdmission == Blend(phase, pSim, pLogistic)
    ensures desirability * pAdmission == ScoreAt(phase, order, k, s, w, aptitude, schools, synergies, draws, pos, exp)
  {
    assert pAdmission == Admission(phase, draws, pos, Compets(order, aptitude, synergies), k, s, w,
                                   aptitude, synergies[order[k]], exp);
  }

  /** `estimateProbabilitySimulation`: M mini-lotteries of `poolSize` competitors; the share won. */
  method EstimateProbabilitySimulation(draws: nat -> real, pos: nat, myAptitude: real, mySynergy: real,
                                       s: real, w: real, m: nat, poolSize: nat)
    returns (p: real, next: nat)
    requires m > 0
    ensures p == Estimate(Wins(draws, pos, m, poolSize, s, w, myAptitude + mySynergy), m)
    ensures next == Wins(draws, pos, m, poolSize, s, w, myAptitude + mySynergy).next
    ensures 0.0 <= p <= 1.0
  {
    var myScore := myAptitude + mySynergy;
    var wins;
    wins, next := CountWins(draws, pos, m, poolSize, s, w, myScore);
    p := wins as real / m as real;
    EstimateInUnit(draws, pos, m, poolSize, s, w, myScore);
  }

  /** `getApplications`: the single phase for N <= K, otherwise filter to K candidates, rescore them, sort, first ten. */
  method GetApplications(n: nat, s: real, w: real, aptitude: real, schools: seq<real>, synergies: seq<real>,
                         draws: nat -> real, pos: nat, exp: real -> real)
    returns (ret: array<int>, next: nat)
    requires 10 <= n <= |schools| && n <= |synergies|
    requires Positive(exp)
    ensures fresh(ret)
    ensures n <= K ==>
      && ret[..] == Top(Rescored(Single, Order(n), s, w, aptitude, schools, synergies, draws, pos, exp), 10)
      && next == StartAt(draws, pos, Compets(Order(n), aptitude, synergies), n, s, w)
    ensures n > K ==>
      && Within(Candidates(n, schools, synergies), n)
      && ret[..] == Top(Rescored(TwoPhase, Candidates(n, schools, synergies), s, w, aptitude, schools, synergies,
                                 draws, pos, exp), 10)
      && next == StartAt(draws, pos, Compets(Candidates(n, schools, synergies), aptitude, synergies), K, s, w)
  {
    if n <= K {
      ret, next := DoSinglePhase(n, s, w, aptitude, schools, synergies, draws, pos, exp);
      return;
    }
    var candidates := QuickFilter(n, schools, synergies);
    var finalList := RescoreCandidates(candidates, s, w, aptitude, schools, synergies, draws, pos, exp);
    next := finalList.1;
    ret := SortFinalList(finalList.0);
  }

  /** `finalList.sort(null)` followed by the copy of the first ten indices. */
  method SortFinalList(finalList: seq<Scored>) returns (ret: array<int>)
    requires |finalList| >= 10
    ensures fresh(ret)
    ensures ret[..] == Top(finalList, 10)
  {
    var sorted := new Scored[|finalList|](j requires 0 <= j < |finalList| => finalList[j]);
    assert sorted[..] == finalList;
    Sort(sorted);
    ret := CopyTopTen(sorted);
  }

  /** Phase 1: sort the schools by quality + synergy (compareTo) and keep the first min(K, N). */
  method QuickFilter(n: nat, schools: seq<real>, synergies: seq<real>) returns (candidates: seq<Scored>)
    requires K < n <= |schools| && n <= |synergies|
    ensures Indices(candidates) == Candidates(n, schools, synergies)
    ensures Within(Indices(candidates), n)
  {
    var initial := new Scored[n];
    for i := 0 to n
      invariant forall j :: 0 <= j < i ==> initial[j] == Scored(j, schools[j] + synergies[j])
    {
      var desirability := schools[i] + synergies[i];
      initial[i] := Scored(i, desirability);
    }
    assert initial[..] == Records(Desirabilities(n, schools, synergies));
    Sort(initial);
    var kActual := if K < n then K else n;
    candidates := initial[..kActual];
    CandidatesWithin(n, schools, synergies);
  }

  /** Phase 2: rescore the candidates in their order, appending one record per candidate; also the next unread draw. */
  method RescoreCandidates(candidates: seq<Scored>, s: real, w: real, aptitude: real,
                           schools: seq<real>, synergies: seq<real>, draws: nat -> real, pos: nat, exp: real -> real)
    returns (result: (seq<Scored>, nat))
    requires Within(Indices(candidates), |schools|) && Within(Indices(candidates), |synergies|)
    requires Positive(exp)
    ensures result.0 == Rescored(TwoPhase, Indices(candidates), s, w, aptitude, schools, synergies, draws, pos, exp)
    ensures result.1 == StartAt(draws, pos, Compets(Indices(candidates), aptitude, synergies), |candidates|, s, w)
  {
    ghost var order := Indices(candidates);
    ghost var compets := Compets(order, aptitude, synergies);
    ghost var rs := Rescored(TwoPhase, order, s, w, aptitude, schools, synergies, draws, pos, exp);
    var finalList: seq<Scored> := [];
    var next := pos;
    var avgCompetitor := (s / 2.0) + (w / 2.0);
    for k := 0 to |candidates|
      invariant next == StartAt(draws, pos, compets, k, s, w)
      invariant finalList == rs[..k]
    {
      var rec;
      rec, next := RescoreSchool(TwoPhase, order, k, candidates[k].index, avgCompetitor, s, w, aptitude, schools, synergies,
                                 draws, pos, next, exp);
      assert rs[..k + 1] == rs[..k] + [rec];
      finalList := finalList + [rec];
    }
    assert rs[..|candidates|] == rs;
    result := (finalList, next);
  }

  /** The candidates are K distinct schools in range, the top K by desirability in compareTo order. */
  lemma CandidatesAreTop(n: nat, schools: seq<real>, synergies: seq<real>)
    requires K <= n <= |schools| && n <= |synergies|
    ensures IsTop(Candidates(n, schools, synergies), Desirabilities(n, schools, synergies), K)
  {
    TopIsTop(Desirabilities(n, schools, synergies), K);
  }

  lemma CandidatesWithin(n: nat, schools: seq<real>, synergies: seq<real>)
    requires K <= n <= |schools| && n <= |synergies|
    ensures Within(Candidates(n, schools, synergies), n)
  {
    CandidatesAreTop(n, schools, synergies);
  }

  /** The single phase returns the top ten of all N schools by expected utility. */
  lemma SinglePhaseIsTop(n: nat, s: real, w: real, aptitude: real, schools: seq<real>, synergies: seq<real>,
                         draws: nat -> real, pos: nat, exp: real -> real)
    requires 10 <= n <= |schools| && n <= |synergies|
    requires Positive(exp)
    ensures IsTop(Top(Rescored(Single, Order(n), s, w, aptitude, schools, synergies, draws, pos, exp), 10),
                  SingleUtilities(n, s, w, aptitude, schools, synergies, draws, pos, exp), 10)
  {
    var u := SingleUtilities(n, s, w, aptitude, schools, synergies, draws, pos, exp);
    assert Records(u) == Rescored(Single, Order(n), s, w, aptitude, schools, synergies, draws, pos, exp);
    TopIsTop(u, 10);
  }

  /** The rescored records carry the schools of `order`, in that order. */
  lemma RescoredIndices(phase: Phase, order: seq<int>, s: real, w: real, aptitude: real,
                        schools: seq<real>, synergies: seq<real>, draws: nat -> real, pos: nat, exp: real -> real)
    requires Within(order, |schools|) && Within(order, |synergies|)
    requires Positive(exp)
    ensures Indices(Rescored(phase, order, s, w, aptitude, schools, synergies, draws, pos, exp)) == order
  {
  }

  /**
   * For N > K the result is ten distinct candidates: each is one of the K
   * schools the quick filter kept, they are in strictly increasing compareTo
   * order of expected utility, and every candidate left out sorts after all of them.
   */
  lemma TwoPhaseWithinFilter(n: nat, s: real, w: real, aptitude: real, schools: seq<real>, synergies: seq<real>,
                             draws: nat -> real, pos: nat, exp: real -> real)
    requires K < n <= |schools| && n <= |synergies|
    requires Positive(exp)
    ensures var cands := Candidates(n, schools, synergies);
            Within(cands, n) &&
            var rs := Rescored(TwoPhase, cands, s, w, aptitude, schools, synergies, draws, pos, exp);
            && |Top(rs, 10)| == 10
            && Top(rs, 10) == Indices(SortRecords(rs)[..10])
            && IsTopOf(SortRecords(rs)[..10], rs)
            && (forall p :: 0 <= p < 10 ==> Top(rs, 10)[p] in cands)
            && (forall p, q :: 0 <= p < q < 10 ==> Top(rs, 10)[p] != Top(rs, 10)[q])
  {
    var cands := Candidates(n, schools, synergies);
    CandidatesAreTop(n, schools, synergies);
    var rs := Rescored(TwoPhase, cands, s, w, aptitude, schools, synergies, draws, pos, exp);
    RescoredIndices(TwoPhase, cands, s, w, aptitude, schools, synergies, draws, pos, exp);
    DistinctByIndices(rs);
    TopPrefix(rs, 10);
    TopIndices(rs, 10);
  }

  /** Either blend of two probabilities is a probability, and lies between them. */
  lemma BlendInUnit(phase: Phase, pSim: real, pLogistic: real)
    requires 0.0 <= pSim <= 1.0 && 0.0 <= pLogistic <= 1.0
    ensures 0.0 <= Blend(phase, pSim, pLogistic) <= 1.0
    ensures pSim <= pLogistic ==> pSim <= Blend(phase, pSim, pLogistic) <= pLogistic
    ensures pLogistic <= pSim ==> pLogistic <= Blend(phase, pSim, pLogistic) <= pSim
  {
  }

  /**
   * Both blends give an admission estimate in [0, 1], so a rescored school's
   * expected utility lies between 0 and its desirability when that is non-negative.
   */
  lemma ScoreBounded(phase: Phase, order: seq<int>, k: nat, s: real, w: real, aptitude: real,
                     schools: seq<real>, synergies: seq<real>, draws: nat -> real, pos: nat, exp: real -> real)
    requires k < |order| && Within(order, |schools|) && Within(order, |synergies|)
    requires Positive(exp)
    ensures var compets := Compets(order, aptitude, synergies);
            0.0 <= Admission(phase, draws, pos, compets, k, s, w, aptitude, synergies[order[k]], exp) <= 1.0
    ensures var d := Desirability(schools, synergies, order[k]);
            d >= 0.0 ==> 0.0 <= ScoreAt(phase, order, k, s, w, aptitude, schools, synergies, draws, pos, exp) <= d
  {
    var compets := Compets(order, aptitude, synergies);
    EstimateInUnit(draws, StartAt(draws, pos, compets, k, s, w), M, PoolSize, s, w, compets[k]);
    var pSim := Estimate(TallyAt(draws, pos, compets, k, s, w), M);
    var pLogistic := PLogistic(exp, aptitude, synergies[order[k]], s, w);
    BlendInUnit(phase, pSim, pLogistic);
    var p := Blend(phase, pSim, pLogistic);
    var d := Desirability(schools, synergies, order[k]);
    UtilityStep(phase, order, k, s, w, aptitude, schools, synergies, draws, pos, exp, pLogistic, pSim, d, p);
    if d >= 0.0 {
      WeightedBetween(d, p);
    }
  }
}
