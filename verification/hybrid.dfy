/**
 * Student_hybrid: bucket the schools instead of scoring them. The two
 * schools with the highest synergy are safeties; of the rest, the four with
 * the highest quality + synergy are reaches and the next four are targets.
 * The list is reaches, targets, safeties, topped up with unused schools in
 * index order if it is short, and its first ten indices are returned.
 *
 * `Collections.sort` with `Double.compare(b.key, a.key)` is a stable sort by
 * descending key; `SortBy` is the reference stable insertion sort that gives
 * it its meaning. Only the qualities and synergies are read: N, S, T, W and
 * the aptitude are ignored by this strategy.
 */
module Hybrid {

  /** A `SchoolCandidate`: index, quality, synergy and overall = quality + synergy. */
  datatype Candidate = Candidate(index: int, quality: real, synergy: real, overall: real)

  /** The `SchoolCandidate` constructor. */
  function NewCandidate(index: int, quality: real, synergy: real): Candidate {
    Candidate(index, quality, synergy, quality + synergy)
  }

  /** The two comparators: by synergy and by overall, both descending. */
  datatype Key = BySynergy | ByOverall

  function KeyOf(k: Key, c: Candidate): real {
    match k
    case BySynergy => c.synergy
    case ByOverall => c.overall
  }

  function Min(a: int, b: int): int {
    if a <= b then a else b
  }

  /** Non-increasing by the key. */
  predicate SortedBy(k: Key, s: seq<Candidate>) {
    forall i, j :: 0 <= i < j < |s| ==> KeyOf(k, s[i]) >= KeyOf(k, s[j])
  }

  /** a comes first: a larger key, or an equal key and a lower index. */
  predicate Ahead(k: Key, a: Candidate, b: Candidate) {
    KeyOf(k, a) > KeyOf(k, b) || (KeyOf(k, a) == KeyOf(k, b) && a.index < b.index)
  }

  /** Ordered by descending key with ties broken by lower index. */
  predicate LexSorted(k: Key, s: seq<Candidate>) {
    forall i, j :: 0 <= i < j < |s| ==> Ahead(k, s[i], s[j])
  }

  /** Strictly increasing indices: the order in which the candidates list is built. */
  predicate Ascending(s: seq<Candidate>) {
    forall i, j :: 0 <= i < j < |s| ==> s[i].index < s[j].index
  }

  /** No index appears twice. */
  predicate DistinctIdx(s: seq<Candidate>) {
    forall i, j :: 0 <= i < j < |s| ==> s[i].index != s[j].index
  }

  /** The indices of a list of candidates. */
  function IndicesOf(s: seq<Candidate>): seq<int> {
    seq(|s|, i requires 0 <= i < |s| => s[i].index)
  }

  /** The set of indices in a list of candidates. */
  function IndexSet(s: seq<Candidate>): set<int> {
    set i | 0 <= i < |s| :: s[i].index
  }

  /** Inserts x in front of the first element whose key is not larger than its own, so before the equal ones, which keeps the sort stable. */
  function InsertBy(k: Key, x: Candidate, s: seq<Candidate>): (r: seq<Candidate>)
    ensures |r| == |s| + 1
  {
    if s == [] || KeyOf(k, x) >= KeyOf(k, s[0]) then [x] + s else [s[0]] + InsertBy(k, x, s[1..])
  }

  /** `Collections.sort` with a descending comparator on the key: a stable insertion sort. */
  function SortBy(k: Key, s: seq<Candidate>): (r: seq<Candidate>)
    ensures |r| == |s|
  {
    if s == [] then [] else InsertBy(k, s[0], SortBy(k, s[1..]))
  }

  /** Insertion adds x to the elements. */
  lemma {:induction false} InsertByPerm(k: Key, x: Candidate, s: seq<Candidate>)
    ensures multiset(InsertBy(k, x, s)) == multiset(s) + multiset{x}
  {
    if s != [] && KeyOf(k, x) < KeyOf(k, s[0]) {
      InsertByPerm(k, x, s[1..]);
      assert s == [s[0]] + s[1..];
    }
  }

  /** An element whose key is at least every key of a sorted list can go in front of it. */
  lemma SortedCons(k: Key, y: Candidate, t: seq<Candidate>)
    requires SortedBy(k, t)
    requires forall m :: 0 <= m < |t| ==> KeyOf(k, y) >= KeyOf(k, t[m])
    ensures SortedBy(k, [y] + t)
  {
    forall i, j | 0 <= i < j < |[y] + t|
      ensures KeyOf(k, ([y] + t)[i]) >= KeyOf(k, ([y] + t)[j])
    {
      assert ([y] + t)[j] == t[j - 1];
      if i > 0 {
        assert ([y] + t)[i] == t[i - 1];
      }
    }
  }

  /** Insertion keeps a sorted list sorted. */
  lemma {:induction false} InsertBySorted(k: Key, x: Candidate, s: seq<Candidate>)
    requires SortedBy(k, s)
    ensures SortedBy(k, InsertBy(k, x, s))
  {
    if s == [] || KeyOf(k, x) >= KeyOf(k, s[0]) {
      SortedCons(k, x, s);
    } else {
      assert SortedBy(k, s[1..]) by {
        forall i, j | 0 <= i < j < |s[1..]|
          ensures KeyOf(k, s[1..][i]) >= KeyOf(k, s[1..][j])
        {
          assert s[1..][i] == s[i + 1] && s[1..][j] == s[j + 1];
        }
      }
      InsertBySorted(k, x, s[1..]);
      InsertByPerm(k, x, s[1..]);
      var rest := InsertBy(k, x, s[1..]);
      forall m | 0 <= m < |rest|
        ensures KeyOf(k, s[0]) >= KeyOf(k, rest[m])
      {
        assert rest[m] in multiset(rest);
        if rest[m] != x {
          assert rest[m] in multiset(s[1..]);
          var j :| 0 <= j < |s[1..]| && s[1..][j] == rest[m];
          assert s[j + 1] == rest[m];
        }
      }
      SortedCons(k, s[0], rest);
    }
  }

  /** The sort returns its input, rearranged, in non-increasing key order. */
  lemma {:induction false} SortByProps(k: Key, s: seq<Candidate>)
    ensures multiset(SortBy(k, s)) == multiset(s)
    ensures SortedBy(k, SortBy(k, s))
  {
    if s != [] {
      SortByProps(k, s[1..]);
      InsertByPerm(k, s[0], SortBy(k, s[1..]));
      InsertBySorted(k, s[0], SortBy(k, s[1..]));
      assert s == [s[0]] + s[1..];
    }
  }

  /** Sorting a list that is already in order leaves it unchanged. */
  lemma {:induction false} SortBySorted(k: Key, s: seq<Candidate>)
    requires SortedBy(k, s)
    ensures SortBy(k, s) == s
  {
    if s != [] {
      assert SortedBy(k, s[1..]) by {
        forall i, j | 0 <= i < j < |s[1..]|
          ensures KeyOf(k, s[1..][i]) >= KeyOf(k, s[1..][j])
        {
          assert s[1..][i] == s[i + 1] && s[1..][j] == s[j + 1];
        }
      }
      SortBySorted(k, s[1..]);
      assert s == [s[0]] + s[1..];
    }
  }

  /** An element ahead of every element of a lexicographically ordered list can go in front of it. */
  lemma LexCons(k: Key, y: Candidate, t: seq<Candidate>)
    requires LexSorted(k, t)
    requires forall m :: 0 <= m < |t| ==> Ahead(k, y, t[m])
    ensures LexSorted(k, [y] + t)
  {
    forall i, j | 0 <= i < j < |[y] + t|
      ensures Ahead(k, ([y] + t)[i], ([y] + t)[j])
    {
      assert ([y] + t)[j] == t[j - 1];
      if i > 0 {
        assert ([y] + t)[i] == t[i - 1];
      }
    }
  }

  /** Dropping the first element keeps a list ordered. */
  lemma LexTail(k: Key, s: seq<Candidate>)
    requires s != [] && LexSorted(k, s)
    ensures LexSorted(k, s[1..])
  {
    forall i, j | 0 <= i < j < |s[1..]|
      ensures Ahead(k, s[1..][i], s[1..][j])
    {
      assert s[1..][i] == s[i + 1] && s[1..][j] == s[j + 1];
    }
  }

  /** Inserting an element whose index is below all others keeps the order lexicographic. */
  lemma {:induction false} InsertLex(k: Key, x: Candidate, s: seq<Candidate>)
    requires LexSorted(k, s)
    requires forall e :: e in s ==> x.index < e.index
    ensures LexSorted(k, InsertBy(k, x, s))
  {
    if s == [] || KeyOf(k, x) >= KeyOf(k, s[0]) {
      forall m | 0 <= m < |s|
        ensures Ahead(k, x, s[m])
      {
        assert s[m] in s;
      }
      LexCons(k, x, s);
    } else {
      LexTail(k, s);
      InsertLex(k, x, s[1..]);
      var rest := InsertBy(k, x, s[1..]);
      InsertByPerm(k, x, s[1..]);
      forall m | 0 <= m < |rest|
        ensures Ahead(k, s[0], rest[m])
      {
        assert rest[m] in multiset(rest);
        if rest[m] != x {
          assert rest[m] in multiset(s[1..]);
          var j :| 0 <= j < |s[1..]| && s[1..][j] == rest[m];
          assert s[j + 1] == rest[m];
        }
      }
      LexCons(k, s[0], rest);
    }
  }

  /** The sort is stable: candidates in index order come out by descending key, equal keys in index order. */
  lemma {:induction false} SortByLex(k: Key, s: seq<Candidate>)
    requires Ascending(s)
    ensures LexSorted(k, SortBy(k, s))
  {
    if s != [] {
      SortByLex(k, s[1..]);
      var rest := SortBy(k, s[1..]);
      SortByProps(k, s[1..]);
      forall e | e in rest
        ensures s[0].index < e.index
      {
        assert e in multiset(rest);
        assert e in multiset(s[1..]);
        var j :| 0 <= j < |s[1..]| && s[1..][j] == e;
        assert s[j + 1] == e;
      }
      InsertLex(k, s[0], rest);
    }
  }

  /** A lexicographically ordered rearrangement of candidates in index order repeats no index. */
  lemma LexDistinct(k: Key, r: seq<Candidate>, s: seq<Candidate>)
    requires Ascending(s)
    requires LexSorted(k, r)
    requires multiset(r) == multiset(s)
    ensures DistinctIdx(r)
  {
    forall i, j | 0 <= i < j < |r|
      ensures r[i].index != r[j].index
    {
      assert r[i] in multiset(r) && r[j] in multiset(r);
      var p :| 0 <= p < |s| && s[p] == r[i];
      var q :| 0 <= q < |s| && s[q] == r[j];
      assert Ahead(k, r[i], r[j]);
      assert p != q;
    }
  }

  /** The candidates list: one per school, in index order. */
  function Candidates(schools: seq<real>, synergies: seq<real>): (cs: seq<Candidate>)
    requires |schools| <= |synergies|
    ensures |cs| == |schools|
    ensures forall i :: 0 <= i < |cs| ==> cs[i].index == i
  {
    seq(|schools|, i requires 0 <= i < |schools| => NewCandidate(i, schools[i], synergies[i]))
  }

  /** The candidates whose index is not excluded, in their original order. */
  function Without(cs: seq<Candidate>, ex: set<int>): seq<Candidate> {
    if cs == [] then
      []
    else
      Without(cs[..|cs| - 1], ex) + (if cs[|cs| - 1].index in ex then [] else [cs[|cs| - 1]])
  }

  /** The filter keeps exactly the candidates whose index is not excluded. */
  lemma {:induction false} WithoutMembers(cs: seq<Candidate>, ex: set<int>)
    ensures forall c :: c in Without(cs, ex) <==> c in cs && c.index !in ex
    decreases |cs|
  {
    if cs != [] {
      var init := cs[..|cs| - 1];
      WithoutMembers(init, ex);
      assert cs == init + [cs[|cs| - 1]];
    }
  }

  /** Filtering a concatenation filters each part. */
  lemma {:induction false} WithoutAppend(a: seq<Candidate>, b: seq<Candidate>, ex: set<int>)
    ensures Without(a + b, ex) == Without(a, ex) + Without(b, ex)
    decreases |b|
  {
    if b != [] {
      var init := b[..|b| - 1];
      var last := b[|b| - 1];
      assert (a + b)[..|a + b| - 1] == a + init;
      assert (a + b)[|a + b| - 1] == last;
      WithoutAppend(a, init, ex);
    } else {
      assert a + b == a;
    }
  }

  /** Filtering keeps the index order. */
  lemma {:induction false} WithoutAscending(cs: seq<Candidate>, ex: set<int>)
    requires Ascending(cs)
    ensures Ascending(Without(cs, ex))
    decreases |cs|
  {
    if cs != [] {
      var init := cs[..|cs| - 1];
      var last := cs[|cs| - 1];
      WithoutAscending(init, ex);
      WithoutMembers(init, ex);
      forall e | e in Without(init, ex)
        ensures e.index < last.index
      {
        var j :| 0 <= j < |init| && init[j] == e;
      }
    }
  }

  /** Excluding an index no candidate has changes nothing. */
  lemma {:induction false} WithoutIgnores(cs: seq<Candidate>, ex: set<int>, x: int)
    requires forall c :: c in cs ==> c.index != x
    ensures Without(cs, ex) == Without(cs, ex - {x})
    decreases |cs|
  {
    if cs != [] {
      WithoutIgnores(cs[..|cs| - 1], ex, x);
      assert cs[|cs| - 1] in cs;
    }
  }

  /** Excluding a set of indices from candidates in index order removes at most that many. */
  lemma {:induction false} WithoutSize(cs: seq<Candidate>, ex: set<int>)
    requires Ascending(cs)
    ensures |Without(cs, ex)| + |ex| >= |cs|
    decreases |cs|
  {
    if cs != [] {
      var init := cs[..|cs| - 1];
      var last := cs[|cs| - 1];
      if last.index in ex {
        forall c | c in init
          ensures c.index != last.index
        {
          var j :| 0 <= j < |init| && init[j] == c;
        }
        WithoutIgnores(init, ex, last.index);
        WithoutSize(init, ex - {last.index});
      } else {
        WithoutSize(init, ex);
      }
    }
  }

  /** A list of candidates has at most as many distinct indices as elements. */
  lemma {:induction false} IndexSetSize(s: seq<Candidate>)
    ensures |IndexSet(s)| <= |s|
    decreases |s|
  {
    if s != [] {
      var init := s[..|s| - 1];
      IndexSetSize(init);
      assert IndexSet(s) == IndexSet(init) + {s[|s| - 1].index} by {
        forall x | x in IndexSet(s)
          ensures x in IndexSet(init) + {s[|s| - 1].index}
        {
          var i :| 0 <= i < |s| && s[i].index == x;
          if i < |s| - 1 {
            assert init[i] == s[i];
          }
        }
        forall x | x in IndexSet(init)
          ensures x in IndexSet(s)
        {
          var i :| 0 <= i < |init| && init[i].index == x;
          assert s[i] == init[i];
        }
      }
    }
  }

  /** The first m elements, or all of them when there are fewer. */
  function Take(s: seq<Candidate>, m: int): (r: seq<Candidate>)
    ensures |r| == (if 0 <= m <= |s| then m else if m < 0 then 0 else |s|)
  {
    if m < 0 then [] else if m <= |s| then s[..m] else s
  }

  /** The safeties: the first min(2, N) candidates by synergy. */
  function Safeties(cands: seq<Candidate>): seq<Candidate> {
    SortBy(BySynergy, cands)[..Min(2, |cands|)]
  }

  /** `remaining` as the removal loop leaves it: the non-safeties in index order. */
  function Remaining(cands: seq<Candidate>): seq<Candidate> {
    Without(cands, IndexSet(Safeties(cands)))
  }

  /** `remaining` after its sort by overall. */
  function Ranked(cands: seq<Candidate>): seq<Candidate> {
    SortBy(ByOverall, Remaining(cands))
  }

  function ReachCount(cands: seq<Candidate>): int {
    Min(4, |Ranked(cands)|)
  }

  function TargetCount(cands: seq<Candidate>): int {
    Min(4, |Ranked(cands)| - ReachCount(cands))
  }

  /** The reaches: the first min(4, |remaining|) non-safeties by overall. */
  function Reaches(cands: seq<Candidate>): seq<Candidate> {
    Ranked(cands)[..ReachCount(cands)]
  }

  /** The targets: the next min(4, |remaining| - reachCount). */
  function Targets(cands: seq<Candidate>): seq<Candidate> {
    Ranked(cands)[ReachCount(cands)..ReachCount(cands) + TargetCount(cands)]
  }

  /** `finalList` before the fill: reaches and targets re-sorted by overall, then safeties re-sorted by synergy. */
  function Buckets(cands: seq<Candidate>): seq<Candidate> {
    SortBy(ByOverall, Reaches(cands)) + SortBy(ByOverall, Targets(cands)) + SortBy(BySynergy, Safeties(cands))
  }

  /** The fill step: a list shorter than ten gets unused candidates in index order until it has ten or none are left. */
  function Fill(list: seq<Candidate>, cands: seq<Candidate>): seq<Candidate> {
    if |list| < 10 then list + Take(Without(cands, IndexSet(list)), 10 - |list|) else list
  }

  /** The list whose first ten indices are returned. */
  function Choices(schools: seq<real>, synergies: seq<real>): seq<Candidate>
    requires |schools| <= |synergies|
  {
    var cands := Candidates(schools, synergies);
    Fill(Buckets(cands), cands)
  }

  /** Candidates built in index order are in index order. */
  lemma CandidatesAscending(schools: seq<real>, synergies: seq<real>)
    requires |schools| <= |synergies|
    ensures Ascending(Candidates(schools, synergies))
  {
  }

  /** A slice of a sorted list is sorted. */
  lemma SortedSlice(k: Key, s: seq<Candidate>, lo: int, hi: int)
    requires SortedBy(k, s) && 0 <= lo <= hi <= |s|
    ensures SortedBy(k, s[lo..hi])
  {
    forall i, j | 0 <= i < j < hi - lo
      ensures KeyOf(k, s[lo..hi][i]) >= KeyOf(k, s[lo..hi][j])
    {
      assert s[lo..hi][i] == s[lo + i] && s[lo..hi][j] == s[lo + j];
    }
  }

  /**
   * The safeties are the min(2, N) highest-synergy schools, ties going to the
   * lower index: each comes ahead of every other candidate, and the first
   * ahead of the second.
   */
  lemma SafetiesAreTop(cands: seq<Candidate>)
    requires Ascending(cands)
    ensures |Safeties(cands)| == Min(2, |cands|)
    ensures LexSorted(BySynergy, Safeties(cands))
    ensures forall x, c :: x in Safeties(cands) && c in cands && c.index !in IndexSet(Safeties(cands)) ==>
      Ahead(BySynergy, x, c)
  {
    var sorted := SortBy(BySynergy, cands);
    var m := Min(2, |cands|);
    var sf := sorted[..m];
    assert sf == Safeties(cands);
    SortByLex(BySynergy, cands);
    SortByProps(BySynergy, cands);
    forall i, j | 0 <= i < j < m
      ensures Ahead(BySynergy, sf[i], sf[j])
    {
      assert sf[i] == sorted[i] && sf[j] == sorted[j];
    }
    forall q | 0 <= q < m
      ensures sorted[q].index in IndexSet(sf)
    {
      assert sf[q] == sorted[q];
    }
    forall x, c | x in sf && c in cands && c.index !in IndexSet(sf)
      ensures Ahead(BySynergy, x, c)
    {
      var p :| 0 <= p < m && sf[p] == x;
      assert sorted[p] == x;
      assert c in multiset(sorted);
      var q :| 0 <= q < |sorted| && sorted[q] == c;
    }
  }

  /** The removal loop keeps every non-safety exactly once, in index order. */
  lemma RemainingExact(cands: seq<Candidate>)
    requires Ascending(cands)
    ensures Ascending(Remaining(cands))
    ensures forall c :: c in Remaining(cands) <==> c in cands && c.index !in IndexSet(Safeties(cands))
    ensures |Remaining(cands)| + Min(2, |cands|) >= |cands|
  {
    var sf := Safeties(cands);
    WithoutAscending(cands, IndexSet(sf));
    WithoutMembers(cands, IndexSet(sf));
    WithoutSize(cands, IndexSet(sf));
    IndexSetSize(sf);
  }

  /** After its sort by overall, `remaining` is in order with ties to the lower index, repeats no index and holds no safety. */
  lemma RankedExact(cands: seq<Candidate>)
    requires Ascending(cands)
    ensures LexSorted(ByOverall, Ranked(cands))
    ensures DistinctIdx(Ranked(cands))
    ensures forall c :: c in Ranked(cands) ==> c in cands && c.index !in IndexSet(Safeties(cands))
    ensures |Ranked(cands)| + Min(2, |cands|) >= |cands|
  {
    var rem := Remaining(cands);
    var ranked := Ranked(cands);
    RemainingExact(cands);
    SortByLex(ByOverall, rem);
    SortByProps(ByOverall, rem);
    LexDistinct(ByOverall, ranked, rem);
    forall c | c in ranked
      ensures c in rem
    {
      assert c in multiset(ranked);
    }
  }

  /** Re-sorting reaches, targets and safeties leaves each as it was, since each is already in order. */
  lemma ResortUnchanged(cands: seq<Candidate>)
    ensures Buckets(cands) == Reaches(cands) + Targets(cands) + Safeties(cands)
  {
    var ranked := Ranked(cands);
    var sorted := SortBy(BySynergy, cands);
    var rc, tc, m := ReachCount(cands), TargetCount(cands), Min(2, |cands|);
    SortByProps(ByOverall, Remaining(cands));
    SortByProps(BySynergy, cands);
    SortedSlice(ByOverall, ranked, 0, rc);
    assert ranked[0..rc] == Reaches(cands);
    SortedSlice(ByOverall, ranked, rc, rc + tc);
    SortedSlice(BySynergy, sorted, 0, m);
    assert sorted[0..m] == Safeties(cands);
    SortBySorted(ByOverall, Reaches(cands));
    SortBySorted(ByOverall, Targets(cands));
    SortBySorted(BySynergy, Safeties(cands));
  }

  /** In a lexicographically ordered list, an earlier block comes ahead of a later one. */
  lemma LexBlocks(k: Key, s: seq<Candidate>, lo: int, hi: int)
    requires LexSorted(k, s) && 0 <= lo <= hi <= |s|
    ensures forall x, y :: x in s[..lo] && y in s[lo..hi] ==> Ahead(k, x, y)
    ensures forall y, z :: y in s[lo..hi] && z in s[hi..] ==> Ahead(k, y, z)
  {
    forall x, y | x in s[..lo] && y in s[lo..hi]
      ensures Ahead(k, x, y)
    {
      var p :| 0 <= p < lo && s[..lo][p] == x;
      var q :| 0 <= q < hi - lo && s[lo..hi][q] == y;
      assert s[p] == x && s[lo + q] == y;
    }
    forall y, z | y in s[lo..hi] && z in s[hi..]
      ensures Ahead(k, y, z)
    {
      var q :| 0 <= q < hi - lo && s[lo..hi][q] == y;
      var r :| 0 <= r < |s| - hi && s[hi..][r] == z;
      assert s[lo + q] == y && s[hi + r] == z;
    }
  }

  /**
   * Reaches come ahead of targets, and targets ahead of every other
   * non-safety, by overall with ties going to the lower index.
   */
  lemma BucketsOrdered(cands: seq<Candidate>)
    requires Ascending(cands)
    ensures forall x, y :: x in Reaches(cands) && y in Targets(cands) ==> Ahead(ByOverall, x, y)
    ensures forall y, z :: y in Targets(cands) && z in Ranked(cands)[ReachCount(cands) + TargetCount(cands)..] ==>
      Ahead(ByOverall, y, z)
  {
    RankedExact(cands);
    LexBlocks(ByOverall, Ranked(cands), ReachCount(cands), ReachCount(cands) + TargetCount(cands));
  }

  /** Every entry of the buckets is one of the candidates. */
  lemma BucketsFromCandidates(cands: seq<Candidate>)
    requires Ascending(cands)
    ensures forall c :: c in Buckets(cands) ==> c in cands
  {
    ResortUnchanged(cands);
    RankedExact(cands);
    var ranked := Ranked(cands);
    var sorted := SortBy(BySynergy, cands);
    var picked := ranked[..ReachCount(cands) + TargetCount(cands)];
    var sf := Safeties(cands);
    assert Buckets(cands) == picked + sf;
    SortByProps(BySynergy, cands);
    forall c | c in picked
      ensures c in cands
    {
      var j :| 0 <= j < |picked| && picked[j] == c;
      assert ranked[j] == c;
    }
    forall c | c in sf
      ensures c in cands
    {
      var j :| 0 <= j < |sf| && sf[j] == c;
      assert sorted[j] == c;
      assert c in multiset(sorted);
    }
  }

  /** Two lists without repeated indices, the first using none of the second's, concatenate without repeats. */
  lemma DistinctConcat(a: seq<Candidate>, b: seq<Candidate>)
    requires DistinctIdx(a) && DistinctIdx(b)
    requires forall c :: c in a ==> c.index !in IndexSet(b)
    ensures DistinctIdx(a + b)
  {
    forall i, j | 0 <= i < j < |a + b|
      ensures (a + b)[i].index != (a + b)[j].index
    {
      if j >= |a| && i < |a| {
        assert (a + b)[i] == a[i] && a[i] in a;
        assert (a + b)[j] == b[j - |a|];
      } else if i >= |a| {
        assert (a + b)[i] == b[i - |a|] && (a + b)[j] == b[j - |a|];
      }
    }
  }

  /** A prefix of a list without repeats has none. */
  lemma DistinctPrefix(s: seq<Candidate>, m: int)
    requires DistinctIdx(s) && 0 <= m <= |s|
    ensures DistinctIdx(s[..m])
  {
    assert forall i :: 0 <= i < m ==> s[..m][i] == s[i];
  }

  /** The fill step only adds unused candidates, in index order, and never takes the list past ten. */
  lemma FillAddsUnused(list: seq<Candidate>, cands: seq<Candidate>)
    requires Ascending(cands)
    ensures |list| < 10 ==> |list| <= |Fill(list, cands)| <= 10
    ensures Fill(list, cands)[..|list|] == list
    ensures forall c :: c in Fill(list, cands)[|list|..] ==> c in cands && c.index !in IndexSet(list)
    ensures Ascending(Fill(list, cands)[|list|..])
    ensures |list| >= 10 ==> Fill(list, cands) == list
  {
    var unused := Without(cands, IndexSet(list));
    WithoutAscending(cands, IndexSet(list));
    WithoutMembers(cands, IndexSet(list));
    if |list| < 10 {
      var added := Take(unused, 10 - |list|);
      assert Fill(list, cands)[|list|..] == added;
      forall c | c in added
        ensures c in unused
      {
        var j :| 0 <= j < |added| && added[j] == c;
        assert unused[j] == c;
      }
    } else {
      assert Fill(list, cands)[|list|..] == [];
    }
  }

  /** The buckets repeat no index: reaches and targets are distinct non-safeties, the safeties distinct from each other. */
  lemma BucketsDistinct(cands: seq<Candidate>)
    requires Ascending(cands)
    ensures DistinctIdx(Buckets(cands))
  {
    ResortUnchanged(cands);
    RankedExact(cands);
    var ranked := Ranked(cands);
    var sorted := SortBy(BySynergy, cands);
    var picked := ranked[..ReachCount(cands) + TargetCount(cands)];
    var sf := Safeties(cands);
    assert Buckets(cands) == picked + sf;
    SortByLex(BySynergy, cands);
    SortByProps(BySynergy, cands);
    LexDistinct(BySynergy, sorted, cands);
    DistinctPrefix(sorted, |sf|);
    DistinctPrefix(ranked, |picked|);
    forall c | c in picked
      ensures c.index !in IndexSet(sf)
    {
      var j :| 0 <= j < |picked| && picked[j] == c;
      assert ranked[j] == c;
    }
    DistinctConcat(picked, sf);
  }

  /**
   * For N >= 10: the buckets already hold ten schools, so the fill step adds
   * nothing; the ten indices are distinct and in [0, N); the last two are the
   * safeties.
   */
  lemma ResultShape(schools: seq<real>, synergies: seq<real>)
    requires 10 <= |schools| <= |synergies|
    ensures var cands := Candidates(schools, synergies);
            var choices := Choices(schools, synergies);
            && choices == Buckets(cands)
            && choices == Reaches(cands) + Targets(cands) + Safeties(cands)
            && |choices| == 10
            && choices[8..] == Safeties(cands)
            && (forall i :: 0 <= i < 10 ==> 0 <= choices[i].index < |schools|)
            && (forall i, j :: 0 <= i < j < 10 ==> choices[i].index != choices[j].index)
  {
    var cands := Candidates(schools, synergies);
    CandidatesAscending(schools, synergies);
    SafetiesAreTop(cands);
    RankedExact(cands);
    ResortUnchanged(cands);
    BucketsFromCandidates(cands);
    BucketsDistinct(cands);
    var list := Buckets(cands);
    assert forall i, j :: 0 <= i < j < |list| ==> list[i].index != list[j].index;
    assert |Ranked(cands)| >= 8;
    assert |list| == 10;
    forall i | 0 <= i < 10
      ensures 0 <= list[i].index < |schools|
    {
      assert list[i] in list;
      var j :| 0 <= j < |cands| && cands[j] == list[i];
    }
  }

  /** `getApplications`: the buckets, the fill step and the copy of the first ten indices. */
  method GetApplications(schools: seq<real>, synergies: seq<real>) returns (result: array<int>)
    requires 10 <= |schools| <= |synergies|
    ensures fresh(result)
    ensures result.Length == 10
    ensures result[..] == IndicesOf(Choices(schools, synergies))
    ensures result[8..] == IndicesOf(Safeties(Candidates(schools, synergies)))
    ensures forall i :: 0 <= i < 10 ==> 0 <= result[i] < |schools|
    ensures forall i, j :: 0 <= i < j < 10 ==> result[i] != result[j]
  {
    var candidates := MakeCandidates(schools, synergies);
    ghost var cands := candidates;
    var finalList := BuildBuckets(candidates);
    CandidatesAscending(schools, synergies);
    BucketsFromCandidates(cands);
    if |finalList| < 10 {
      finalList := FillUp(finalList, candidates);
    }
    assert finalList == Choices(schools, synergies);
    ResultShape(schools, synergies);
    result := new int[10];
    for i := 0 to 10
      invariant result[..i] == IndicesOf(finalList)[..i]
    {
      result[i] := finalList[i].index;
    }
  }

  /** The candidate-building loop: one candidate per school, in index order. */
  method MakeCandidates(schools: seq<real>, synergies: seq<real>) returns (candidates: seq<Candidate>)
    requires |schools| <= |synergies|
    ensures candidates == Candidates(schools, synergies)
  {
    candidates := [];
    for i := 0 to |schools|
      invariant candidates == Candidates(schools, synergies)[..i]
    {
      candidates := candidates + [NewCandidate(i, schools[i], synergies[i])];
    }
  }

  /** Safeties, removal, reaches and targets, and the re-sort of each bucket. */
  method BuildBuckets(candidates: seq<Candidate>) returns (finalList: seq<Candidate>)
    ensures finalList == Buckets(candidates)
  {
    ghost var cands := candidates;
    // Safety picks: the first min(2, N) by synergy.
    var bySynergy := SortBy(BySynergy, candidates);
    var safeties: seq<Candidate> := [];
    var safetyCount := Min(2, |bySynergy|);
    for i := 0 to safetyCount
      invariant safeties == bySynergy[..i]
    {
      safeties := safeties + [bySynergy[i]];
    }
    assert safeties == Safeties(cands);
    var remaining := RemoveSafeties(candidates, safeties);
    // Reach and target picks by overall.
    remaining := SortBy(ByOverall, remaining);
    assert remaining == Ranked(cands);
    var reaches: seq<Candidate> := [];
    var reachCount := Min(4, |remaining|);
    for i := 0 to reachCount
      invariant reaches == remaining[..i]
    {
      reaches := reaches + [remaining[i]];
    }
    var targets: seq<Candidate> := [];
    var targetCount := Min(4, |remaining| - reachCount);
    for i := reachCount to reachCount + targetCount
      invariant targets == remaining[reachCount..i]
    {
      targets := targets + [remaining[i]];
    }
    assert reaches == Reaches(cands) && targets == Targets(cands);
    reaches := SortBy(ByOverall, reaches);
    targets := SortBy(ByOverall, targets);
    safeties := SortBy(BySynergy, safeties);
    finalList := reaches + targets + safeties;
    assert finalList == Buckets(cands);
  }

  /** The loop that drops the safeties from the candidates, with its inner search and `break`. */
  method RemoveSafeties(candidates: seq<Candidate>, safeties: seq<Candidate>) returns (remaining: seq<Candidate>)
    ensures remaining == Without(candidates, IndexSet(safeties))
  {
    remaining := [];
    for c := 0 to |candidates|
      invariant remaining == Without(candidates[..c], IndexSet(safeties))
    {
      var cand := candidates[c];
      var isSafety := false;
      var j := 0;
      while j < |safeties|
        invariant 0 <= j <= |safeties|
        invariant isSafety ==> cand.index in IndexSet(safeties)
        invariant !isSafety ==> forall k :: 0 <= k < j ==> safeties[k].index != cand.index
      {
        if cand.index == safeties[j].index {
          isSafety := true;
          break;
        }
        j := j + 1;
      }
      if !isSafety {
        remaining := remaining + [cand];
      }
      WithoutStep(candidates, c, IndexSet(safeties));
    }
    assert candidates[..|candidates|] == candidates;
  }

  /** Filtering one more candidate appends it unless its index is excluded. */
  lemma WithoutStep(cs: seq<Candidate>, c: int, ex: set<int>)
    requires 0 <= c < |cs|
    ensures Without(cs[..c + 1], ex) == Without(cs[..c], ex) + (if cs[c].index in ex then [] else [cs[c]])
  {
    assert cs[..c + 1][..c] == cs[..c];
  }

  /** Once the filtered prefix up to c holds m candidates, the first m of the whole filter are exactly those. */
  lemma FillStops(cs: seq<Candidate>, c: int, ex: set<int>, m: int)
    requires 0 <= c < |cs|
    requires |Without(cs[..c + 1], ex)| == m
    ensures Take(Without(cs, ex), m) == Without(cs[..c + 1], ex)
  {
    WithoutAppend(cs[..c + 1], cs[c + 1..], ex);
    assert cs[..c + 1] + cs[c + 1..] == cs;
  }

  /** The marking loop: `used[i]` is set exactly for the indices in the list. */
  method MarkUsed(list: seq<Candidate>, candidates: seq<Candidate>) returns (used: array<bool>)
    requires forall i :: 0 <= i < |candidates| ==> candidates[i].index == i
    requires forall c :: c in list ==> c in candidates
    ensures fresh(used)
    ensures used.Length == |candidates|
    ensures forall x :: 0 <= x < used.Length ==> (used[x] <==> x in IndexSet(list))
  {
    used := new bool[|candidates|](_ => false);
    for k := 0 to |list|
      invariant forall x :: 0 <= x < used.Length ==> (used[x] <==> x in IndexSet(list[..k]))
    {
      assert list[k] in list;
      var j :| 0 <= j < |candidates| && candidates[j] == list[k];
      used[list[k].index] := true;
      assert IndexSet(list[..k + 1]) == IndexSet(list[..k]) + {list[k].index} by {
        assert forall i :: 0 <= i < k ==> list[..k + 1][i] == list[..k][i];
      }
    }
    assert list[..|list|] == list;
  }

  /** The fill step: add unused candidates in index order until the list has ten. */
  method FillUp(list: seq<Candidate>, candidates: seq<Candidate>) returns (finalList: seq<Candidate>)
    requires |list| < 10
    requires forall i :: 0 <= i < |candidates| ==> candidates[i].index == i
    requires forall c :: c in list ==> c in candidates
    ensures finalList == Fill(list, candidates)
  {
    var used := MarkUsed(list, candidates);
    ghost var ex := IndexSet(list);
    finalList := list;
    var c := 0;
    while c < |candidates|
      invariant 0 <= c <= |candidates|
      invariant finalList == list + Without(candidates[..c], ex)
      invariant |finalList| < 10
      invariant used.Length == |candidates|
      invariant forall x :: 0 <= x < used.Length ==> (used[x] <==> x in ex)
    {
      var cand := candidates[c];
      WithoutStep(candidates, c, ex);
      assert cand.index == c;
      if !used[cand.index] {
        finalList := finalList + [cand];
        if |finalList| == 10 {
          FillStops(candidates, c, ex, 10 - |list|);
          return;
        }
      }
      c := c + 1;
    }
    assert candidates[..c] == candidates;
  }
}
