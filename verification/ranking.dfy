/**
 * The ranking skeleton that every applicant strategy shares: (index, score)
 * records, the comparator their `compareTo` methods implement (score
 * descending, then index ascending), the in-place sort of an array of records
 * and the copy of the first ten indices into the result.
 *
 * `SortRecords` is a functional insertion sort that serves as the reference
 * meaning of "the array sorted by compareTo"; `SortedUnique` shows that any
 * sorted permutation equals it, so the particular sorting algorithm the
 * library uses does not matter.
 */
module Ranking {

  /** One school with the score a strategy gave it (School, SchoolData, SchoolScore, SchoolChoice). */
  datatype Scored = Scored(index: int, score: real)

  /** `Double.compare(a, b)` on finite values. */
  function RealCompare(a: real, b: real): int {
    if a < b then -1 else if a > b then 1 else 0
  }

  /** `Integer.compare(a, b)`. */
  function IntCompare(a: int, b: int): int {
    if a < b then -1 else if a > b then 1 else 0
  }

  /** `compareTo`: compare the other's score with ours (so higher scores come first), then our index with the other's. */
  function Compare(x: Scored, y: Scored): (r: int)
    ensures r < 0 <==> x.score > y.score || (x.score == y.score && x.index < y.index)
    ensures r == 0 <==> x == y
  {
    var c := RealCompare(y.score, x.score);
    if c == 0 then IntCompare(x.index, y.index) else c
  }

  /** x sorts no later than y. */
  predicate Le(x: Scored, y: Scored) {
    Compare(x, y) <= 0
  }

  /** x sorts strictly before y. */
  predicate Precedes(x: Scored, y: Scored) {
    Compare(x, y) < 0
  }

  /** The comparator is antisymmetric, consistent with equality, and it puts a higher score first and breaks ties by the lower index. */
  lemma CompareIsTotalOrder(x: Scored, y: Scored, z: Scored)
    ensures Compare(x, y) in {-1, 0, 1}
    ensures Compare(x, y) == -Compare(y, x)
    ensures Compare(x, y) == 0 <==> x == y
    ensures Precedes(x, y) <==> x.score > y.score || (x.score == y.score && x.index < y.index)
    ensures Le(x, y) && Le(y, z) ==> Le(x, z)
    ensures Precedes(x, y) && Precedes(y, z) ==> Precedes(x, z)
    ensures x.index != y.index ==> (Precedes(x, y) <==> !Precedes(y, x))
  {
  }

  predicate Sorted(s: seq<Scored>) {
    forall i, j :: 0 <= i < j < |s| ==> Le(s[i], s[j])
  }

  predicate DistinctIndices(s: seq<Scored>) {
    forall i, j :: 0 <= i < j < |s| ==> s[i].index != s[j].index
  }

  /** Inserts x before the first record it sorts no later than. */
  function Insert(x: Scored, s: seq<Scored>): (r: seq<Scored>)
    ensures |r| == |s| + 1
  {
    if s == [] || Le(x, s[0]) then
      [x] + s
    else
      [s[0]] + Insert(x, s[1..])
  }

  /** A record that sorts no later than x and than every record of t sorts no later than anything in Insert(x, t). */
  lemma {:induction false} InsertBound(y: Scored, x: Scored, t: seq<Scored>)
    requires Le(y, x)
    requires forall k :: 0 <= k < |t| ==> Le(y, t[k])
    ensures forall k :: 0 <= k < |t| + 1 ==> Le(y, Insert(x, t)[k])
  {
    if t != [] && !Le(x, t[0]) {
      InsertBound(y, x, t[1..]);
      assert Insert(x, t) == [t[0]] + Insert(x, t[1..]);
    }
  }

  /** Inserting into a sorted sequence keeps it sorted and adds exactly x. */
  lemma InsertSorted(x: Scored, s: seq<Scored>)
    requires Sorted(s)
    ensures Sorted(Insert(x, s))
    ensures multiset(Insert(x, s)) == multiset(s) + multiset{x}
  {
    InsertKeepsSorted(x, s);
    InsertPerm(x, s);
  }

  lemma {:induction false} InsertKeepsSorted(x: Scored, s: seq<Scored>)
    requires Sorted(s)
    ensures Sorted(Insert(x, s))
  {
    if s != [] && !Le(x, s[0]) {
      SortedTail(s);
      InsertKeepsSorted(x, s[1..]);
      CompareIsTotalOrder(x, s[0], x);
      InsertBound(s[0], x, s[1..]);
      SortedCons(s[0], Insert(x, s[1..]));
    } else if s != [] {
      SortedCons(x, s);
    }
  }

  lemma {:induction false} InsertPerm(x: Scored, s: seq<Scored>)
    ensures multiset(Insert(x, s)) == multiset(s) + multiset{x}
  {
    if s != [] && !Le(x, s[0]) {
      InsertPerm(x, s[1..]);
      assert s == [s[0]] + s[1..];
    }
  }

  /** A record that sorts no later than every record of a sorted sequence can go in front of it. */
  lemma SortedCons(y: Scored, t: seq<Scored>)
    requires Sorted(t)
    requires forall k :: 0 <= k < |t| ==> Le(y, t[k])
    ensures Sorted([y] + t)
  {
    forall i, j | 0 <= i < j < |[y] + t|
      ensures Le(([y] + t)[i], ([y] + t)[j])
    {
      assert ([y] + t)[j] == t[j - 1];
      if i > 0 {
        assert ([y] + t)[i] == t[i - 1];
      }
    }
  }

  /** The reference sort: records in compareTo order. */
  function SortRecords(s: seq<Scored>): (r: seq<Scored>)
    ensures |r| == |s|
  {
    if s == [] then [] else Insert(s[0], SortRecords(s[1..]))
  }

  /** The reference sort is sorted and a permutation of its input. */
  lemma {:induction false} SortRecordsSorted(s: seq<Scored>)
    ensures Sorted(SortRecords(s))
    ensures multiset(SortRecords(s)) == multiset(s)
  {
    if s != [] {
      assert s == [s[0]] + s[1..];
      SortRecordsSorted(s[1..]);
      InsertSorted(s[0], SortRecords(s[1..]));
    }
  }

  lemma MemberAt(x: Scored, s: seq<Scored>) returns (k: nat)
    requires x in multiset(s)
    ensures k < |s| && s[k] == x
  {
    assert x in s;
    k :| 0 <= k < |s| && s[k] == x;
  }

  /** A sequence sorted by compareTo is determined by its multiset of records. */
  lemma {:induction false} SortedUnique(s: seq<Scored>, t: seq<Scored>)
    requires Sorted(s) && Sorted(t)
    requires multiset(s) == multiset(t)
    ensures s == t
  {
    assert |s| == |multiset(s)| == |multiset(t)| == |t|;
    if s != [] {
      SameHead(s, t);
      SortedTail(s);
      SortedTail(t);
      SortedUnique(s[1..], t[1..]);
      assert s == [s[0]] + s[1..] && t == [t[0]] + t[1..];
    }
  }

  /** Two sorted permutations of each other start with the same record and continue with permutations of each other. */
  lemma SameHead(s: seq<Scored>, t: seq<Scored>)
    requires Sorted(s) && Sorted(t)
    requires multiset(s) == multiset(t)
    requires s != [] && t != []
    ensures s[0] == t[0]
    ensures multiset(s[1..]) == multiset(t[1..])
  {
    var j := MemberAt(s[0], t);
    var i := MemberAt(t[0], s);
    assert Le(t[0], t[j]) && Le(s[0], s[i]);
    CompareIsTotalOrder(s[0], t[0], t[0]);
    DropHead(s);
    DropHead(t);
  }

  /** The multiset of a non-empty sequence's tail is its multiset without the head. */
  lemma DropHead(s: seq<Scored>)
    requires s != []
    ensures multiset(s[1..]) == multiset(s) - multiset{s[0]}
  {
    assert s == [s[0]] + s[1..];
  }

  /** Position in the original sequence of position m after removing position k. */
  function Skip(m: nat, k: nat): nat {
    if m < k then m else m + 1
  }

  /** Removing the record at position k keeps indices distinct and removes k's index. */
  lemma RemoveAt(t: seq<Scored>, k: nat) returns (t': seq<Scored>)
    requires k < |t|
    requires DistinctIndices(t)
    ensures multiset(t') == multiset(t) - multiset{t[k]}
    ensures DistinctIndices(t')
    ensures forall x :: x in multiset(t') ==> x.index != t[k].index
  {
    t' := t[..k] + t[k + 1..];
    assert multiset(t) == multiset(t[..k]) + multiset([t[k]]) + multiset(t[k + 1..]) by {
      assert t == t[..k] + [t[k]] + t[k + 1..];
    }
    forall m | 0 <= m < |t'|
      ensures t'[m] == t[Skip(m, k)]
    {
      if m < k {
        assert t'[m] == t[..k][m];
      } else {
        assert t'[m] == t[k + 1..][m - k];
      }
    }
    forall i, j | 0 <= i < j < |t'|
      ensures t'[i].index != t'[j].index
    {
      assert t'[i] == t[Skip(i, k)] && t'[j] == t[Skip(j, k)];
    }
    forall x | x in multiset(t')
      ensures x.index != t[k].index
    {
      var m := MemberAt(x, t');
      assert x == t[Skip(m, k)];
    }
  }

  /** A permutation of a sequence with distinct indices has distinct indices. */
  lemma {:induction false} PermutationKeepsDistinct(s: seq<Scored>, t: seq<Scored>)
    requires multiset(s) == multiset(t)
    requires DistinctIndices(t)
    ensures DistinctIndices(s)
  {
    if s != [] {
      var k := MemberAt(s[0], t);
      var t' := RemoveAt(t, k);
      assert s == [s[0]] + s[1..];
      assert multiset(s[1..]) == multiset(t');
      PermutationKeepsDistinct(s[1..], t');
      forall i, j | 0 <= i < j < |s|
        ensures s[i].index != s[j].index
      {
        assert s[j] == s[1..][j - 1];
        if i == 0 {
          assert s[j] in multiset(t');
        } else {
          assert s[i] == s[1..][i - 1];
        }
      }
    }
  }

  /** `Arrays.sort` on an array of records: afterwards the array is its reference sort. */
  method Sort(a: array<Scored>)
    modifies a
    ensures a[..] == SortRecords(old(a[..]))
  {
    var i := 0;
    while i < a.Length
      invariant 0 <= i <= a.Length
      invariant forall p, q :: 0 <= p < q < i ==> Le(a[p], a[q])
      invariant multiset(a[..]) == multiset(old(a[..]))
    {
      SinkLast(a, i);
      i := i + 1;
    }
    SortRecordsSorted(old(a[..]));
    SortedUnique(a[..], SortRecords(old(a[..])));
  }

  /** One step of the sort: moves a[i] left past every record that sorts after it. */
  method SinkLast(a: array<Scored>, i: nat)
    requires i < a.Length
    requires forall p, q :: 0 <= p < q < i ==> Le(a[p], a[q])
    modifies a
    ensures forall p, q :: 0 <= p < q <= i ==> Le(a[p], a[q])
    ensures multiset(a[..]) == multiset(old(a[..]))
  {
    var j := i;
    while j > 0 && Precedes(a[j], a[j - 1])
      invariant 0 <= j <= i
      invariant forall p, q :: 0 <= p < q < j ==> Le(a[p], a[q])
      invariant forall p, q :: j <= p < q <= i ==> Le(a[p], a[q])
      invariant forall p, q :: 0 <= p < j < q <= i ==> Le(a[p], a[q])
      invariant multiset(a[..]) == multiset(old(a[..]))
    {
      Swap(a, j - 1, j);
      j := j - 1;
    }
  }

  method Swap(a: array<Scored>, i: nat, j: nat)
    requires i < j < a.Length
    modifies a
    ensures a[i] == old(a[j]) && a[j] == old(a[i])
    ensures forall m :: 0 <= m < a.Length && m != i && m != j ==> a[m] == old(a[m])
    ensures multiset(a[..]) == multiset(old(a[..]))
  {
    a[i], a[j] := a[j], a[i];
  }

  /** The indices of a sequence of records. */
  function Indices(rs: seq<Scored>): seq<int> {
    seq(|rs|, i requires 0 <= i < |rs| => rs[i].index)
  }

  /** The copy loop `ret[i] = preferences[i].index` for i < 10. */
  method CopyTopTen(a: array<Scored>) returns (ret: array<int>)
    requires a.Length >= 10
    ensures fresh(ret)
    ensures ret.Length == 10
    ensures ret[..] == Indices(a[..10])
  {
    ret := new int[10];
    for i := 0 to 10
      invariant forall k :: 0 <= k < i ==> ret[k] == a[k].index
    {
      ret[i] := a[i].index;
    }
  }

  /** The records a strategy builds for schools 0..|scores|-1: `new School(i, score_i)`. */
  function Records(scores: seq<real>): seq<Scored> {
    seq(|scores|, i requires 0 <= i < |scores| => Scored(i, scores[i]))
  }

  /** The first k indices of the records in compareTo order. */
  function Top(rs: seq<Scored>, k: nat): seq<int>
    requires k <= |rs|
  {
    Indices(SortRecords(rs)[..k])
  }

  /** What every strategy but the hybrid returns: the first ten indices after sorting schools 0..N-1 by score. */
  function TopTen(scores: seq<real>): seq<int>
    requires |scores| >= 10
  {
    Top(Records(scores), 10)
  }

  /**
   * `out` is the first |out| records of `rs` in compareTo order: each is one of
   * `rs`, they are in strictly increasing compareTo order, and every record of
   * `rs` left out sorts after all of them.
   */
  predicate IsTopOf(out: seq<Scored>, rs: seq<Scored>) {
    && (forall i :: 0 <= i < |out| ==> out[i] in rs)
    && (forall i, j :: 0 <= i < j < |out| ==> Precedes(out[i], out[j]))
    && (forall r, i :: r in rs && r !in out && 0 <= i < |out| ==> Precedes(out[i], r))
  }

  /** Taking the first k records of the reference sort gives the top k (records with distinct indices). */
  lemma TopPrefix(rs: seq<Scored>, k: nat)
    requires k <= |rs|
    requires DistinctIndices(rs)
    ensures |SortRecords(rs)[..k]| == k
    ensures IsTopOf(SortRecords(rs)[..k], rs)
    ensures DistinctIndices(SortRecords(rs)[..k])
  {
    var t := SortRecords(rs);
    var out := t[..k];
    SortRecordsSorted(rs);
    PermutationKeepsDistinct(t, rs);
    forall i, j | 0 <= i < j < |t|
      ensures Precedes(t[i], t[j])
    {
      assert Le(t[i], t[j]);
    }
    forall i | 0 <= i < k
      ensures out[i] in rs
    {
      assert out[i] in multiset(t);
    }
    forall r, i | r in rs && r !in out && 0 <= i < k
      ensures Precedes(out[i], r)
    {
      assert r in multiset(t);
      var p := MemberAt(r, t);
      assert p >= k;
    }
  }

  /** The records of schools 0..N-1 have distinct indices. */
  lemma RecordsDistinct(scores: seq<real>)
    ensures DistinctIndices(Records(scores))
  {
  }

  /**
   * `apps` is a top-k list for `scores`: k pairwise-distinct schools in
   * [0, N), in strictly decreasing score order with ties by ascending index,
   * and every school left out has a lower score than the last one chosen, or
   * an equal score and a larger index.
   */
  predicate IsTop(apps: seq<int>, scores: seq<real>, k: nat) {
    && |apps| == k
    && (forall p :: 0 <= p < k ==> 0 <= apps[p] < |scores|)
    && (forall p, q :: 0 <= p < q < k ==> apps[p] != apps[q])
    && (forall p, q :: 0 <= p < q < k ==>
          Precedes(Scored(apps[p], scores[apps[p]]), Scored(apps[q], scores[apps[q]])))
    && (forall u, p :: 0 <= u < |scores| && u !in apps && 0 <= p < k ==>
          Precedes(Scored(apps[p], scores[apps[p]]), Scored(u, scores[u])))
  }

  /** The first k indices after sorting are a top-k list. */
  lemma TopIsTop(scores: seq<real>, k: nat)
    requires k <= |scores|
    ensures IsTop(Top(Records(scores), k), scores, k)
  {
    var rs := Records(scores);
    RecordsDistinct(scores);
    TopPrefix(rs, k);
    var out := SortRecords(rs)[..k];
    var apps := Top(rs, k);
    forall p | 0 <= p < k
      ensures 0 <= apps[p] < |scores| && out[p] == Scored(apps[p], scores[apps[p]])
    {
      assert out[p] in rs;
    }
    forall u, p | 0 <= u < |scores| && u !in apps && 0 <= p < k
      ensures Precedes(Scored(apps[p], scores[apps[p]]), Scored(u, scores[u]))
    {
      assert rs[u] in rs;
      forall q | 0 <= q < k
        ensures out[q] != rs[u]
      {
        assert apps[q] != u;
      }
    }
  }

  /** TopTen returns a top-10 list. */
  lemma TopTenIsTop(scores: seq<real>)
    requires |scores| >= 10
    ensures IsTop(TopTen(scores), scores, 10)
  {
    TopIsTop(scores, 10);
  }

  /** Records whose indices are pairwise distinct have distinct indices. */
  lemma DistinctByIndices(rs: seq<Scored>)
    requires forall p, q :: 0 <= p < q < |rs| ==> Indices(rs)[p] != Indices(rs)[q]
    ensures DistinctIndices(rs)
  {
    forall i, j | 0 <= i < j < |rs|
      ensures rs[i].index != rs[j].index
    {
      assert Indices(rs)[i] == rs[i].index && Indices(rs)[j] == rs[j].index;
    }
  }

  /** The first k indices after sorting records with distinct indices are k distinct indices of those records. */
  lemma TopIndices(rs: seq<Scored>, k: nat)
    requires k <= |rs| && DistinctIndices(rs)
    ensures |Top(rs, k)| == k
    ensures forall p :: 0 <= p < k ==> Top(rs, k)[p] in Indices(rs)
    ensures forall p, q :: 0 <= p < q < k ==> Top(rs, k)[p] != Top(rs, k)[q]
  {
    TopPrefix(rs, k);
    var out := SortRecords(rs)[..k];
    forall p | 0 <= p < k
      ensures Top(rs, k)[p] in Indices(rs)
    {
      assert out[p] in rs;
      var j :| 0 <= j < |rs| && rs[j] == out[p];
      assert Indices(rs)[j] == out[p].index;
    }
    forall p, q | 0 <= p < q < k
      ensures Top(rs, k)[p] != Top(rs, k)[q]
    {
      assert Top(rs, k)[p] == out[p].index && Top(rs, k)[q] == out[q].index;
    }
  }

  /** Every record's score raised by c. */
  function Shift(rs: seq<Scored>, c: real): seq<Scored> {
    seq(|rs|, i requires 0 <= i < |rs| => Scored(rs[i].index, rs[i].score + c))
  }

  lemma ShiftCons(x: Scored, r: seq<Scored>, c: real)
    ensures Shift([x] + r, c) == [Scored(x.index, x.score + c)] + Shift(r, c)
  {
  }

  lemma SortedTail(s: seq<Scored>)
    requires Sorted(s) && s != []
    ensures Sorted(s[1..])
  {
    forall i, j | 0 <= i < j < |s[1..]|
      ensures Le(s[1..][i], s[1..][j])
    {
      assert s[1..][i] == s[i + 1] && s[1..][j] == s[j + 1];
    }
  }

  lemma {:induction false} InsertShift(x: Scored, s: seq<Scored>, c: real)
    ensures Insert(Scored(x.index, x.score + c), Shift(s, c)) == Shift(Insert(x, s), c)
  {
    var x' := Scored(x.index, x.score + c);
    var s' := Shift(s, c);
    if s == [] {
      assert Insert(x', s') == [x'] + s';
      ShiftCons(x, s, c);
    } else if Le(x, s[0]) {
      assert Le(x', s'[0]);
      assert Insert(x', s') == [x'] + s';
      ShiftCons(x, s, c);
    } else {
      assert !Le(x', s'[0]);
      assert s'[1..] == Shift(s[1..], c);
      InsertShift(x, s[1..], c);
      assert Insert(x', s') == [s'[0]] + Insert(x', s'[1..]);
      assert Insert(x, s) == [s[0]] + Insert(x, s[1..]);
      ShiftCons(s[0], Insert(x, s[1..]), c);
    }
  }

  lemma SortRecordsCons(s: seq<Scored>)
    requires s != []
    ensures SortRecords(s) == Insert(s[0], SortRecords(s[1..]))
  {
  }

  lemma ShiftSplit(s: seq<Scored>, c: real)
    requires s != []
    ensures Shift(s, c) != [] && Shift(s, c)[0] == Scored(s[0].index, s[0].score + c)
    ensures Shift(s, c)[1..] == Shift(s[1..], c)
  {
  }

  /** Raising every score by the same amount does not change the sorted order of the records. */
  lemma {:induction false} SortShift(s: seq<Scored>, c: real)
    ensures SortRecords(Shift(s, c)) == Shift(SortRecords(s), c)
  {
    if s != [] {
      var tail := SortRecords(s[1..]);
      ShiftSplit(s, c);
      calc {
        SortRecords(Shift(s, c));
        { SortRecordsCons(Shift(s, c)); }
        Insert(Scored(s[0].index, s[0].score + c), SortRecords(Shift(s[1..], c)));
        { SortShift(s[1..], c); }
        Insert(Scored(s[0].index, s[0].score + c), Shift(tail, c));
        { InsertShift(s[0], tail, c); }
        Shift(Insert(s[0], tail), c);
        { SortRecordsCons(s); }
        Shift(SortRecords(s), c);
      }
    }
  }

  /** Raising every school's score by the same amount leaves the top-10 list unchanged. */
  lemma TopTenShift(scores: seq<real>, c: real)
    requires |scores| >= 10
    ensures TopTen(seq(|scores|, i requires 0 <= i < |scores| => scores[i] + c)) == TopTen(scores)
  {
    var shifted := seq(|scores|, i requires 0 <= i < |scores| => scores[i] + c);
    assert Records(shifted) == Shift(Records(scores), c);
    SortShift(Records(scores), c);
  }
}
