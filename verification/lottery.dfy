/**
 * The mini-lottery that ASU and simulation run to estimate an admission
 * probability: a pool of random competitors, each with aptitude drawn
 * uniformly on [0, S) and synergy on [0, W), and the applicant wins the trial
 * when every competitor scores strictly below them. The first competitor who
 * reaches the applicant's score ends the trial.
 *
 * The random draws are an input stream: draws(p) is the p-th value that
 * `nextDouble()` returns. A trial that ends early consumes fewer draws, so
 * every function also returns the position of the next unread draw.
 */
module MiniLottery {
  import opened Numeric

  /** Every draw lies in [0, 1), as `nextDouble()` promises. */
  ghost predicate UnitDraws(draws: nat -> real) {
    forall p :: 0.0 <= draws(p) < 1.0
  }

  /** The outcome of one trial and the position of the next unread draw. */
  datatype Outcome = Outcome(won: bool, next: nat)

  /** The number of trials won and the position of the next unread draw. */
  datatype Tally = Tally(wins: nat, next: nat)

  /** A competitor's score: aptitude draws(p) * S plus synergy draws(p + 1) * W. */
  function CompScore(draws: nat -> real, p: nat, s: real, w: real): real {
    draws(p) * s + draws(p + 1) * w
  }

  /** One trial starting at draw `pos`: it is lost at the first competitor who reaches the applicant, after drawing that competitor. */
  function Trial(draws: nat -> real, pos: nat, pool: nat, s: real, w: real, myScore: real): (r: Outcome)
    ensures pos <= r.next <= pos + 2 * pool
    decreases pool, pos  // consumes competitors until the pool is exhausted
  {
    if pool == 0 then
      Outcome(true, pos)
    else if CompScore(draws, pos, s, w) >= myScore then
      Outcome(false, pos + 2)
    else
      Trial(draws, pos + 2, pool - 1, s, w, myScore)
  }

  /** `trials` trials one after the other, each reading its draws where the previous one stopped. */
  function Wins(draws: nat -> real, pos: nat, trials: nat, pool: nat, s: real, w: real, myScore: real): (t: Tally)
    ensures t.wins <= trials
    ensures pos <= t.next
  {
    if trials == 0 then
      Tally(0, pos)
    else
      var before := Wins(draws, pos, trials - 1, pool, s, w, myScore);
      var trial := Trial(draws, before.next, pool, s, w, myScore);
      Tally(before.wins + (if trial.won then 1 else 0), trial.next)
  }

  /** The share of trials won. */
  function Estimate(t: Tally, m: nat): real
    requires m > 0
  {
    t.wins as real / m as real
  }

  /** The competitor loop of one trial, with its early `break`. */
  method RunTrial(draws: nat -> real, pos: nat, pool: nat, s: real, w: real, myScore: real)
    returns (iAmTop: bool, next: nat)
    ensures Outcome(iAmTop, next) == Trial(draws, pos, pool, s, w, myScore)
  {
    iAmTop := true;
    next := pos;
    var c := 0;
    while c < pool
      invariant 0 <= c <= pool
      invariant next == pos + 2 * c
      invariant Trial(draws, pos, pool, s, w, myScore) == Trial(draws, next, pool - c, s, w, myScore)
    {
      var compApt := draws(next) * s;
      var compSyn := draws(next + 1) * w;
      next := next + 2;
      var compScore := compApt + compSyn;
      if compScore >= myScore {
        iAmTop := false;
        break;
      }
      c := c + 1;
    }
  }

  /** The trial loop: count the trials won out of m. */
  method CountWins(draws: nat -> real, pos: nat, m: nat, pool: nat, s: real, w: real, myScore: real)
    returns (wins: nat, next: nat)
    ensures Tally(wins, next) == Wins(draws, pos, m, pool, s, w, myScore)
  {
    wins := 0;
    next := pos;
    for trial := 0 to m
      invariant Tally(wins, next) == Wins(draws, pos, trial, pool, s, w, myScore)
    {
      var iAmTop;
      iAmTop, next := RunTrial(draws, next, pool, s, w, myScore);
      if iAmTop {
        wins := wins + 1;
      }
    }
  }

  /** A trial is won exactly when every competitor of the pool scores strictly below the applicant. */
  lemma TrialWonIff(draws: nat -> real, pos: nat, pool: nat, s: real, w: real, myScore: real)
    ensures Trial(draws, pos, pool, s, w, myScore).won
        <==> forall c :: 0 <= c < pool ==> CompScore(draws, pos + 2 * c, s, w) < myScore
  {
    if Trial(draws, pos, pool, s, w, myScore).won {
      TrialWonAllBelow(draws, pos, pool, s, w, myScore);
    } else {
      var c := TrialLostAt(draws, pos, pool, s, w, myScore);
    }
  }

  /** In a trial that is won, every competitor scored below the applicant. */
  lemma {:induction false} TrialWonAllBelow(draws: nat -> real, pos: nat, pool: nat, s: real, w: real, myScore: real)
    requires Trial(draws, pos, pool, s, w, myScore).won
    ensures forall c :: 0 <= c < pool ==> CompScore(draws, pos + 2 * c, s, w) < myScore
    decreases pool
  {
    if pool > 0 {
      TrialWonAllBelow(draws, pos + 2, pool - 1, s, w, myScore);
      forall c | 0 <= c < pool
        ensures CompScore(draws, pos + 2 * c, s, w) < myScore
      {
        if c > 0 {
          assert pos + 2 * c == (pos + 2) + 2 * (c - 1);
        }
      }
    }
  }

  /** A lost trial ends right after competitor c, the first who reaches the applicant's score: every earlier one was below. */
  lemma {:induction false} TrialLostAt(draws: nat -> real, pos: nat, pool: nat, s: real, w: real, myScore: real)
    returns (c: nat)
    requires !Trial(draws, pos, pool, s, w, myScore).won
    ensures c < pool
    ensures Trial(draws, pos, pool, s, w, myScore).next == pos + 2 * (c + 1)
    ensures CompScore(draws, pos + 2 * c, s, w) >= myScore
    ensures forall c' :: 0 <= c' < c ==> CompScore(draws, pos + 2 * c', s, w) < myScore
    decreases pool
  {
    if CompScore(draws, pos, s, w) >= myScore {
      c := 0;
    } else {
      var rest := TrialLostAt(draws, pos + 2, pool - 1, s, w, myScore);
      c := rest + 1;
      assert pos + 2 * c == (pos + 2) + 2 * rest && pos + 2 * (c + 1) == (pos + 2) + 2 * (rest + 1);
      forall c' | 0 <= c' < c
        ensures CompScore(draws, pos + 2 * c', s, w) < myScore
      {
        if c' > 0 {
          assert pos + 2 * c' == (pos + 2) + 2 * (c' - 1);
        }
      }
    }
  }

  /** With S, W >= 0, a competitor's score lies in [0, S + W]. */
  lemma CompScoreBounds(draws: nat -> real, p: nat, s: real, w: real)
    requires UnitDraws(draws)
    requires s >= 0.0 && w >= 0.0
    ensures 0.0 <= CompScore(draws, p, s, w) <= s + w
  {
    var a, b := draws(p), draws(p + 1);
    assert 0.0 <= a * s <= s by {
      assert s - a * s == (1.0 - a) * s;
    }
    assert 0.0 <= b * w <= w by {
      assert w - b * w == (1.0 - b) * w;
    }
  }

  /** An applicant above S + W wins every trial. */
  lemma TrialCertainWin(draws: nat -> real, pos: nat, pool: nat, s: real, w: real, myScore: real)
    requires UnitDraws(draws)
    requires s >= 0.0 && w >= 0.0 && myScore > s + w
    ensures Trial(draws, pos, pool, s, w, myScore).won
  {
    forall c | 0 <= c < pool
      ensures CompScore(draws, pos + 2 * c, s, w) < myScore
    {
      CompScoreBounds(draws, pos + 2 * c, s, w);
    }
    TrialWonIff(draws, pos, pool, s, w, myScore);
  }

  /** An applicant whose score is not positive loses every trial against a non-empty pool. */
  lemma TrialCertainLoss(draws: nat -> real, pos: nat, pool: nat, s: real, w: real, myScore: real)
    requires UnitDraws(draws)
    requires s >= 0.0 && w >= 0.0 && myScore <= 0.0 && pool > 0
    ensures !Trial(draws, pos, pool, s, w, myScore).won
  {
    CompScoreBounds(draws, pos + 2 * 0, s, w);
    TrialWonIff(draws, pos, pool, s, w, myScore);
  }

  /** An applicant above S + W wins all trials; one with a non-positive score wins none. */
  lemma {:induction false} WinsCertain(draws: nat -> real, pos: nat, trials: nat, pool: nat, s: real, w: real, myScore: real)
    requires UnitDraws(draws)
    requires s >= 0.0 && w >= 0.0
    ensures myScore > s + w ==> Wins(draws, pos, trials, pool, s, w, myScore).wins == trials
    ensures myScore <= 0.0 && pool > 0 ==> Wins(draws, pos, trials, pool, s, w, myScore).wins == 0
  {
    if trials > 0 {
      WinsCertain(draws, pos, trials - 1, pool, s, w, myScore);
      var before := Wins(draws, pos, trials - 1, pool, s, w, myScore);
      if myScore > s + w {
        TrialCertainWin(draws, before.next, pool, s, w, myScore);
      }
      if myScore <= 0.0 && pool > 0 {
        TrialCertainLoss(draws, before.next, pool, s, w, myScore);
      }
    }
  }

  /** The estimate of m trials is a probability. */
  lemma EstimateInUnit(draws: nat -> real, pos: nat, m: nat, pool: nat, s: real, w: real, myScore: real)
    requires m > 0
    ensures 0.0 <= Estimate(Wins(draws, pos, m, pool, s, w, myScore), m) <= 1.0
  {
    var t := Wins(draws, pos, m, pool, s, w, myScore);
    FractionAtMostOne(t.wins as real, m as real);
  }
}
