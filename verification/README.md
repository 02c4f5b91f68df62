# College-application strategies, modelled in Dafny

The repository holds eight interchangeable applicant strategies for a
college-admissions game. Each implements
`getApplications(N, S, T, W, aptitude, qualities, synergies)` and returns the
indices of the 10 schools the applicant applies to. Seven of them share one
skeleton: score every school `0..N-1`, sort `(index, score)` records with a
comparator (score descending, then index ascending), and copy out the first
ten indices. They differ in how a school is scored:

- **angy**: desirability (quality + synergy) times a logistic factor of the
  applicant's advantage over the average competitor, (aptitude + synergy) − (S/2 + W/2).
- **angyman**: the same advantages, rescaled by their minimum and maximum
  (midpoint and slope ln 99 / (dmax − dmin), with a fallback slope of 1).
- **softlocked**: desirability times the softmax of the advantages (temperature 5).
- **pb3016**: the additive metric desirability + advantage.
- **simulation**: desirability times the share of M = 300 mini-lotteries won
  against 30 random competitors.
- **sims4**: desirability times the share of M = 100 trials won against 30
  synthetic "holist" competitors. Each competitor applies to its own top ten,
  and only those who apply to the school can beat the applicant.
- **ASU**: for N ≤ 20, a blend of logistic and mini-lottery estimates for every
  school. For N > 20, a quick filter first keeps the 20 schools with the highest
  quality + synergy, and only those are rescored.

The eighth, **hybrid**, does not score at all. It picks two safeties (highest
synergy), four reaches and four targets (highest overall among the rest), and
fills up to ten with unused schools in index order.

The model is split into modules, one per strategy plus three shared ones:

- `Ranking` (ranking.dfy): the comparator every `compareTo` implements (`Compare`);
  the reference sort `SortRecords`, a functional insertion sort; the in-place
  `Sort` of an array of records; the copy loop `CopyTopTen`; and the
  specification of a top-k list (`IsTop`). `SortedUnique` shows that any sorted
  permutation equals the reference sort, so the algorithm `Arrays.sort` uses
  does not matter.
- `Numeric` (numeric.dfy): the advantage, the desirability and the logistic curve.
- `MiniLottery` (lottery.dfy): one mini-lottery trial with its early `break`,
  and the win count shared by simulation and ASU.
- `Simulation`, `Sims4`, `Asu`, `Angy`, `Angyman`, `Softlocked`, `Pb3016`,
  `Hybrid`: one module each.

The model's conventions:

- Scores are `real`s.
- `Math.exp` and `Math.log` are function parameters; `exp` is required to be
  positive, and increasing where monotonicity is claimed.
- The random numbers are a stream `draws: nat -> real`: draw i is the i-th call
  of `nextDouble()`. Each method that draws takes the position of its first draw
  and returns the next unread position. Because a lost trial `break`s early, the
  number of draws a school consumes depends on the outcomes, and the model
  threads this position exactly as the Java code consumes draws.
- Where the Java code fills an array (`preferences`, `deltas`, `expDeltas`,
  `used`), the model uses an `array`. Where it builds a `List` (hybrid's lists,
  ASU's `finalList`), the model reassigns a `seq`.
- Every loop is a Dafny loop proved against a specification function, and the
  properties the code and its comments promise are lemmas about those functions.

## Model

| member | source | states |
|---|---|---|
| Ranking.Compare | Student_ASU.java:49-53 | compareTo is negative exactly when the first record has the higher score, or the same score and the lower index, and zero exactly when the two records are equal |
| Ranking.CompareIsTotalOrder | Student_ASU.java:49-53 | compareTo is antisymmetric, is zero only on equal records and is transitive. It puts the higher score first and breaks ties by the lower index, so it is a strict total order on records with distinct indices |
| Ranking.SortRecords | Student_angy.java:70 | the reference for `Arrays.sort`: an insertion sort by compareTo that keeps the length; `SortRecordsSorted` proves it ordered and a permutation |
| Ranking.SortRecordsSorted | Student_angy.java:70 | the reference sort is in compareTo order and is a permutation of its input |
| Ranking.SortedUnique | Student_angy.java:70 | two compareTo-sorted permutations of the same records are equal, so every correct sort gives the same array |
| Ranking.Sort | Student_angy.java:70 | after the in-place sort, the array holds the reference sort of its old contents |
| Ranking.CopyTopTen | Student_angy.java:73-76 | the result has length 10, and entry i is the index of the i-th sorted record |
| Ranking.TopPrefix | Student_simulation.java:85-92 | for records with distinct indices, the first k sorted records are records of the input, in strictly increasing compareTo order, and every record left out sorts after all of them |
| Ranking.TopIsTop | Student_simulation.java:85-92 | the first k indices after sorting schools 0..N-1 are k distinct indices in [0, N), in comparator order, and every school left out sorts after each chosen one |
| Ranking.TopTenIsTop | Student_pb3016.java:60-66 | the first ten indices after sorting form a top-10 list of the scores |
| Ranking.TopIndices | Student_ASU.java:117-121 | the first k indices of sorted distinct records are k distinct indices of those records |
| Ranking.SortShift | Student_pb3016.java:40-60 | raising every score by the same amount gives the same sorted order, with the scores shifted |
| Ranking.TopTenShift | Student_pb3016.java:40-60 | raising every school's score by the same amount leaves the top-10 list unchanged |
| Numeric.Logistic | Student_angy.java:57 | 1 / (1 + exp(−z)) lies strictly between 0 and 1 when exp is positive |
| Numeric.LogisticMonotone | Student_angyman.java:72 | with exp increasing, a larger argument never gives a smaller logistic value |
| MiniLottery.Trial | Student_ASU.java:178-187 | a trial reads at most two draws per competitor |
| MiniLottery.Wins | Student_ASU.java:175-191 | at most M of M trials are won |
| MiniLottery.RunTrial | Student_ASU.java:178-187 | the competitor loop with its break yields the trial's outcome and the next unread draw |
| MiniLottery.CountWins | Student_simulation.java:53-70 | the trial loop counts exactly the specified wins and ends at the specified draw |
| MiniLottery.TrialWonIff | Student_simulation.java:55-66 | a trial is won if and only if every competitor scores strictly below the applicant |
| MiniLottery.TrialWonAllBelow | Student_ASU.java:177-190 | in a won trial, all poolSize competitors score below the applicant |
| MiniLottery.TrialLostAt | Student_ASU.java:183-186 | a lost trial ends right after the first competitor who reaches the applicant's score, and everyone before that competitor was below |
| MiniLottery.CompScoreBounds | Student_ASU.java:180-182 | with draws in [0, 1) and S, W ≥ 0, a competitor scores in [0, S + W] |
| MiniLottery.TrialCertainWin | Student_simulation.java:57-66 | an applicant scoring above S + W wins every trial |
| MiniLottery.TrialCertainLoss | Student_simulation.java:57-66 | an applicant scoring at most 0 loses every trial that has a competitor |
| MiniLottery.WinsCertain | Student_simulation.java:53-70 | above S + W all M trials are won; at or below 0 none is |
| MiniLottery.EstimateInUnit | Student_ASU.java:175-192 | wins / M lies in [0, 1] |
| Simulation.GetApplications | Student_simulation.java:36-93 | the result is the top ten of schools 0..N-1 by expected utility: ten distinct indices in [0, N), in comparator order, every other school after them. It also returns the draw position after the last school |
| Simulation.SimulateSchool | Student_simulation.java:48-81 | one school's lotteries yield its specified expected utility and the start of the next school's draws |
| Simulation.ExpectedUtilityBounds | Student_simulation.java:73-79 | with at most M wins, the expected utility lies between 0 and a non-negative desirability. M wins give the desirability; 0 wins give 0 |
| Simulation.UtilityBounded | Student_simulation.java:48-81 | a school's expected utility lies in [0, desirability]. It equals the desirability when aptitude + synergy > S + W, and 0 when aptitude + synergy ≤ 0 |
| Asu.GetApplications | Student_ASU.java:57-123 | for N ≤ 20 the result is the single phase's; otherwise it is the top ten of the rescored K filtered candidates. Both cases also return the next unread draw |
| Asu.DoSinglePhase | Student_ASU.java:129-161 | the result is the first ten indices of all N schools sorted by single-phase expected utility |
| Asu.RescoreAll | Student_ASU.java:137-150 | the loop fills `data` with every school's single-phase record, in index order |
| Asu.RescoreSchool | Student_ASU.java:94-114 | one school's record is desirability times the blend of its logistic and simulated estimates, and its lotteries end where the next school's begin |
| Asu.Estimates | Student_ASU.java:101-107 | pLogistic is the logistic estimate 1/(1+exp(−3·advantage)) and pSim is the school's share of M lotteries won |
| Asu.EstimateProbabilitySimulation | Student_ASU.java:167-193 | the returned estimate is wins / M of the specified lotteries and lies in [0, 1] |
| Asu.QuickFilter | Student_ASU.java:76-85 | the candidates are the first min(K, N) schools by quality + synergy in comparator order, all in [0, N) |
| Asu.SortFinalList | Student_ASU.java:117-122 | the returned array is new and holds the first ten indices of the final list sorted by compareTo |
| Asu.RescoreCandidates | Student_ASU.java:88-115 | the loop appends exactly the two-phase records of the candidates, in candidate order |
| Asu.CandidatesAreTop | Student_ASU.java:76-85 | the K candidates are a top-K list by quality + synergy: distinct, in [0, N), every other school after them |
| Asu.SinglePhaseIsTop | Student_ASU.java:153-159 | for N ≤ 20 the result is a top-10 list of all schools by expected utility |
| Asu.TwoPhaseWithinFilter | Student_ASU.java:76-121 | for N > 20 the result is ten distinct indices, each one of the K filtered candidates, in strictly increasing comparator order, and every candidate left out sorts after them |
| Asu.BlendInUnit | Student_ASU.java:110 | both blends (0.6/0.4 and 0.5/0.5) of two values in [0, 1] lie in [0, 1], between the two values |
| Asu.ScoreBounded | Student_ASU.java:98-113 | the admission estimate lies in [0, 1], so the expected utility lies between 0 and a non-negative desirability |
| Sims4.NewHolist | Student_sims4.java:50-69 | a competitor's apps are the top ten of its quality + synergy values: ten distinct indices, in comparator order, every other school after them |
| Sims4.AppliesTo | Student_sims4.java:74-79 | true if and only if u is one of the competitor's apps |
| Sims4.CompetitivenessAt | Student_sims4.java:84-86 | computes how school u ranks a holist competitor: its aptitude plus its synergy with u |
| Sims4.Beats | Student_sims4.java:146-149 | computes the losing condition: the competitor applies to u and its competitiveness at u reaches myCompet |
| Sims4.TopAmong | Student_sims4.java:144-154 | computes iAmTop: no competitor of the pool beats the applicant at u |
| Sims4.CheckTop | Student_sims4.java:145-154 | the check loop with its break finds that the applicant is top exactly when no competitor both applies to u and reaches myCompet |
| Sims4.Applicants | Student_sims4.java:146-147 | a competitor is among the applicants at u exactly when it is in the pool and u is in its apps |
| Sims4.NonApplicantsIrrelevant | Student_sims4.java:145-154 | being top among the whole pool is equivalent to being top among the competitors who apply to u |
| Sims4.Pool | Student_sims4.java:132-140 | a trial's pool has POOL_SIZE competitors, each with N synergies |
| Sims4.DrawCompetitor | Student_sims4.java:133-140 | one competitor reads one aptitude draw and then N synergy draws, and is built from them |
| Sims4.RunTrial | Student_sims4.java:131-154 | a trial builds the pool from the draw stream and is won exactly when the applicant is top among it. It consumes POOL_SIZE · (N + 1) draws |
| Sims4.Trials | Student_sims4.java:130-159 | at most `trials` trials are won |
| Sims4.CountWins | Student_sims4.java:128-159 | the trial loop counts exactly the specified wins and ends at the specified draw |
| Sims4.GetApplications | Student_sims4.java:110-182 | the result is the top ten of schools 0..N-1 by expected utility against holist pools: ten distinct indices in [0, N), in comparator order, every other school after them |
| Sims4.SimulateSchool | Student_sims4.java:123-170 | one school's trials yield its specified expected utility and the start of the next school's draws |
| Sims4.CompetitorBounded | Student_sims4.java:134-137 | with draws in [0, 1) and S, W ≥ 0, a holist competitor's competitiveness at any school is at most S + W |
| Sims4.TopCertain | Student_sims4.java:145-154 | an applicant above S + W is top in every pool, whoever applies |
| Sims4.TrialsCertain | Student_sims4.java:130-159 | an applicant above S + W wins every trial |
| Sims4.ExpectedUtilityBounds | Student_sims4.java:162-168 | with at most M wins, the expected utility lies between 0 and a non-negative desirability. M wins give the desirability; 0 wins give 0 |
| Sims4.UtilityBounded | Student_sims4.java:123-170 | each school's expected utility lies in [0, desirability], and equals the desirability when aptitude + synergy > S + W |
| Angy.GetApplications | Student_angy.java:24-79 | the result is the top ten of schools 0..N-1 by desirability times the logistic competitiveness factor: ten distinct indices in [0, N), in comparator order, every other school after them |
| Angy.ScoreWithinDesirability | Student_angy.java:57-64 | the score lies between 0 and a non-negative desirability |
| Angyman.MinOf | Student_angyman.java:47-52 | the minimum is one of the deltas and at most each of them |
| Angyman.MaxOf | Student_angyman.java:47-52 | the maximum is one of the deltas and at least each of them |
| Angyman.ScanExtremes | Student_angyman.java:47-52 | the scan leaves +∞/−∞ when there are no deltas, and otherwise the minimum and the maximum delta |
| Angyman.DeltasWithinExtremes | Student_angyman.java:47-52 | every delta lies in [dmin, dmax] |
| Angyman.Midpoint | Student_angyman.java:55 | computes the midpoint (dmin + dmax) / 2 |
| Angyman.Slope | Student_angyman.java:57 | computes ln 99 / (dmax − dmin), with the fallback 1 when dmax − dmin = 0 |
| Angyman.MidpointBetween | Student_angyman.java:55 | the midpoint lies between dmin and dmax, equally far from both |
| Angyman.SlopeFallback | Student_angyman.java:57 | the fallback value 1 is used exactly when dmax = dmin; otherwise k · (dmax − dmin) = ln 99, so it never divides by zero |
| Angyman.SlopePositive | Student_angyman.java:57 | with ln 99 > 0 the slope is positive |
| Angyman.AcceptanceMonotone | Student_angyman.java:72 | with a positive slope and exp increasing, a larger delta never gets a smaller acceptance estimate |
| Angyman.AcceptanceFollowsAdvantage | Student_angyman.java:55-72 | over the actual deltas, a school with a larger advantage never gets a smaller acceptance estimate |
| Angyman.ScoreAll | Student_angyman.java:60-78 | the scoring loop fills `preferences` with (i, desirability_i · acceptance_i) in index order |
| Angyman.GetApplications | Student_angyman.java:26-90 | the result is the top ten of schools 0..N-1 by desirability times the rescaled logistic acceptance: ten distinct indices in [0, N), in comparator order, every other school after them |
| Softlocked.Sum | Student_softlocked.java:49-53 | a non-empty sum of positive terms is positive |
| Softlocked.ExpWeights | Student_softlocked.java:50-51 | there is one positive exponential per delta |
| Softlocked.Exponentials | Student_softlocked.java:49-53 | the loop stores exp(τ · delta_i), and expSum is their sum |
| Softlocked.Normalise | Student_softlocked.java:56-58 | normalising in place divides every weight by their sum |
| Softlocked.SoftmaxWeights | Student_softlocked.java:49-58 | expDeltas ends up holding the softmax of the deltas |
| Softlocked.NormalisedDistribution | Student_softlocked.java:56-58 | positive values divided by their sum total 1, and each lies in (0, 1] |
| Softlocked.SoftmaxDistribution | Student_softlocked.java:49-58 | the softmax weights of N ≥ 1 schools sum to 1, and each lies in (0, 1] |
| Softlocked.SoftmaxFollowsAdvantage | Student_softlocked.java:49-58 | with exp increasing, a school with a larger advantage never gets a smaller softmax weight |
| Softlocked.ScoreAll | Student_softlocked.java:61-75 | the scoring loop fills `preferences` with (i, desirability_i · expDeltas_i) in index order |
| Softlocked.GetApplications | Student_softlocked.java:26-87 | the result is the top ten of schools 0..N-1 by desirability times softmax weight: ten distinct indices in [0, N), in comparator order, every other school after them |
| Pb3016.GetApplications | Student_pb3016.java:27-69 | the result is the top ten of schools 0..N-1 by the additive metric: ten distinct indices in [0, N), in comparator order, every other school after them |
| Pb3016.MetricDecomposes | Student_pb3016.java:40-54 | metric = quality + 2 · synergy + aptitude − (S/2 + W/2) |
| Pb3016.ChoiceDependsOnlyOnQualityAndSynergy | Student_pb3016.java:40-60 | the chosen indices and their order equal the top ten by quality + 2 · synergy, whatever aptitude, S and W are |
| Hybrid.InsertBy | Student_hybrid.java:45-50 | inserts a candidate ahead of the first element whose key is not larger than its own, so it stays ahead of later candidates with an equal key; the length grows by one |
| Hybrid.SortBy | Student_hybrid.java:45-50 | `Collections.sort` with a descending one-key comparator, as a stable insertion sort that keeps the length; `SortByProps` and `SortByLex` prove its order and that it is a permutation |
| Hybrid.SortByProps | Student_hybrid.java:45-50 | the stable sort by one key is a permutation, in non-increasing key order |
| Hybrid.SortByLex | Student_hybrid.java:45-50 | stable-sorting index-ordered candidates gives key-descending order with ties by ascending index |
| Hybrid.SortBySorted | Student_hybrid.java:99-114 | stable-sorting a list already in key order leaves it unchanged |
| Hybrid.Candidates | Student_hybrid.java:34-37 | there is one candidate per school, and candidate i has index i |
| Hybrid.MakeCandidates | Student_hybrid.java:34-37 | the loop builds exactly the candidate list |
| Hybrid.SafetiesAreTop | Student_hybrid.java:44-56 | the safeties are min(2, N) candidates in synergy order with ties by lower index, and each comes ahead of every non-safety candidate |
| Hybrid.RemoveSafeties | Student_hybrid.java:59-71 | the nested loop with its break keeps exactly the candidates whose index is not a safety's, in order |
| Hybrid.WithoutMembers | Student_hybrid.java:59-71 | a candidate survives the removal exactly when it is a candidate whose index is not excluded |
| Hybrid.WithoutAscending | Student_hybrid.java:59-71 | removal keeps ascending index order |
| Hybrid.RemainingExact | Student_hybrid.java:59-71 | `remaining` is in ascending index order, holds exactly the non-safety candidates, and has at least N − 2 entries |
| Hybrid.RankedExact | Student_hybrid.java:74-79 | sorted `remaining` is in overall order with ties by lower index, repeats no index, and holds only non-safety candidates |
| Hybrid.BucketsOrdered | Student_hybrid.java:81-93 | every reach is ahead of every target, and every target ahead of every remaining non-pick, by overall with ties by lower index |
| Hybrid.ResortUnchanged | Student_hybrid.java:99-123 | re-sorting reaches, targets and safeties changes nothing, so finalList = reaches + targets + safeties |
| Hybrid.BucketsFromCandidates | Student_hybrid.java:96-123 | every entry of finalList is a candidate |
| Hybrid.BucketsDistinct | Student_hybrid.java:96-123 | finalList repeats no index |
| Hybrid.Buckets | Student_hybrid.java:96-123 | computes finalList before the fill: the reaches and the targets each re-sorted by overall, then the safeties re-sorted by synergy |
| Hybrid.BuildBuckets | Student_hybrid.java:44-123 | the safety, removal, reach, target and re-sort steps produce exactly the specified buckets |
| Hybrid.MarkUsed | Student_hybrid.java:128-131 | used[x] is set exactly for the indices in the list |
| Hybrid.WithoutStep | Student_hybrid.java:132-134 | one more candidate is appended exactly when its index is unused |
| Hybrid.FillStops | Student_hybrid.java:135-137 | once m candidates are added, they are the first m unused candidates |
| Hybrid.Fill | Student_hybrid.java:125-140 | computes the fill: a list shorter than ten gets the first unused candidates in index order until it has ten or none are left; a longer list is unchanged |
| Hybrid.FillUp | Student_hybrid.java:127-140 | the fill loop with its break adds the first 10 − size unused candidates, in index order |
| Hybrid.FillAddsUnused | Student_hybrid.java:127-140 | the fill keeps the list as a prefix and adds only unused candidates, in ascending index order. It stops at 10 and adds nothing to a list of 10 or more |
| Hybrid.ResultShape | Student_hybrid.java:127-146 | for N ≥ 10, finalList already has 10 entries, so the fill adds nothing. The ten indices are distinct and in [0, N), and the last two are the safeties |
| Hybrid.GetApplications | Student_hybrid.java:24-148 | the result is the indices of reaches, targets and safeties: ten distinct indices in [0, N), with the safeties last |

## Left out

- `java.util.Random` is not modelled. Its draws are the input stream
  `draws`. Lemmas that need the draws in [0, 1) require `UnitDraws`.
- The statistical accuracy of the estimates, and the tuning of M, POOL_SIZE and
  COMP_POOL, are not modelled. The constants are copied as written.
- `Math.exp` and `Math.log` are not modelled; they are function parameters.
- IEEE-754 doubles are not modelled: no rounding, no NaN, no −0.0, no
  infinities except angyman's scan start values. `Double.compare` is modelled on
  finite values.
- The `Student` interface is not part of this model. The parameter T is
  unused by every strategy and is dropped. Hybrid also ignores N, S, W and
  aptitude, and works on `schools.size()` candidates.
- The debug-only `delta` fields of angyman's and softlocked's `School` records
  are not modelled.
- N < 10 is excluded by precondition. The copy loops would index out of bounds,
  and hybrid's loop over `finalList` would too. Sims4 also requires
  N = `schools.size()`, because the competitor's constructor and the score loop
  use the two sizes interchangeably.
- The sorting algorithm of `Arrays.sort` and `List.sort` is not modelled. It is
  replaced by an insertion sort proved equal to the reference sort.
  `SortedUnique` shows that any correct sort gives the same result.
- Hybrid's `Collections.sort` with a one-key comparator is modelled as a stable
  insertion sort on sequences, because Java's list sort is stable.
- ASU's `finalList.sort(null)` on an `ArrayList` is modelled as a copy into an
  array followed by the same in-place `Sort`.
- Sims4's pool of competitors is built by `DrawCompetitor`, one competitor per
  call, and checked by `CheckTop`. The trial loop holds it as a sequence that
  grows by one per competitor, in place of the `ArrayList`.
- Sims4.UtilityBounded: unlike the simulation strategy's lemma, it states no
  zero-utility case for a low score. A holist competitor who does not apply to
  the school cannot beat the applicant, so even a very low score can win a trial.
