/** Ranking records descending by a tab's metric, as `Array.prototype.sort`
    does with the comparator `tab === "acv" ? b.acv - a.acv : b.count - a.count`.
    That sort is stable (section 23.1.3.30 of ECMA-262, 2023 edition), so
    records with equal metric keep their input order. The order is given once
    as a function, `StableSort`, and the in-place array sort is proved to
    produce it. */
module Ranking {
  import opened Records

  /** Places `x` after every record of `t` whose metric is at least `x`'s: the
      step that inserting a later record into a ranked prefix takes. */
  function Insert(t: seq<Industry>, x: Industry, key: Key): (r: seq<Industry>)
    ensures |r| == |t| + 1
    ensures r[0] == x || (t != [] && r[0] == t[0])
  {
    if t == [] || Metric(key, t[0]) < Metric(key, x) then [x] + t
    else
      assert t == [t[0]] + t[1..];
      [t[0]] + Insert(t[1..], x, key)
  }

  /** Inserting adds `x` and nothing else. */
  lemma {:induction false} InsertPermutes(t: seq<Industry>, x: Industry, key: Key)
    ensures multiset(Insert(t, x, key)) == multiset(t) + multiset{x}
  {
    if t != [] && Metric(key, t[0]) >= Metric(key, x) {
      InsertPermutes(t[1..], x, key);
      assert t == [t[0]] + t[1..];
    }
  }

  /** The points of an inserted sequence are the old points plus `x`'s, for
      whatever metric the points carry. */
  lemma {:induction false} InsertPermutesEntries(t: seq<Industry>, x: Industry, key: Key, shown: Key)
    ensures multiset(Entries(Insert(t, x, key), shown)) == multiset(Entries(t, shown)) + multiset{EntryOf(shown, x)}
  {
    if t != [] && Metric(key, t[0]) >= Metric(key, x) {
      InsertPermutesEntries(t[1..], x, key, shown);
      assert Entries(t, shown) == [EntryOf(shown, t[0])] + Entries(t[1..], shown);
    }
  }

  /** Sorting permutes the records, so it permutes their points too. */
  lemma {:induction false} StableSortPermutesEntries(s: seq<Industry>, key: Key, shown: Key)
    ensures multiset(Entries(StableSort(s, key), shown)) == multiset(Entries(s, shown))
  {
    if s != [] {
      var n := |s| - 1;
      assert s == s[..n] + [s[n]];
      StableSortPermutesEntries(s[..n], key, shown);
      InsertPermutesEntries(StableSort(s[..n], key), s[n], key, shown);
      EntriesConcat(s[..n], [s[n]], shown);
    }
  }

  /** Inserting into a ranked sequence keeps it ranked. */
  lemma {:induction false} InsertSorted(t: seq<Industry>, x: Industry, key: Key)
    requires SortedDesc(t, key)
    ensures SortedDesc(Insert(t, x, key), key)
  {
    if t != [] && Metric(key, t[0]) >= Metric(key, x) {
      InsertSorted(t[1..], x, key);
    }
  }

  /** The order the stable descending sort produces: each record, taken in
      input order, is placed after every earlier record whose metric is at
      least its own. */
  function StableSort(s: seq<Industry>, key: Key): (r: seq<Industry>)
    ensures |r| == |s|
    ensures multiset(r) == multiset(s)
    ensures SortedDesc(r, key)
  {
    if s == [] then []
    else
      assert s == s[..|s| - 1] + [s[|s| - 1]];
      InsertSorted(StableSort(s[..|s| - 1], key), s[|s| - 1], key);
      InsertPermutes(StableSort(s[..|s| - 1], key), s[|s| - 1], key);
      Insert(StableSort(s[..|s| - 1], key), s[|s| - 1], key)
  }

  /** The stable sort of a prefix extended by one record. */
  lemma StableSortSnoc(s: seq<Industry>, n: nat, key: Key)
    requires n < |s|
    ensures StableSort(s[..n + 1], key) == Insert(StableSort(s[..n], key), s[n], key)
  {
    assert s[..n + 1][..n] == s[..n];
  }

  /** Where `Insert` puts `x`: before position `j` when every record before `j`
      has metric at least `x`'s and the one at `j` (if any) has a smaller one. */
  lemma {:induction false} InsertAt(t: seq<Industry>, x: Industry, key: Key, j: nat)
    requires j <= |t|
    requires forall i :: 0 <= i < j ==> Metric(key, t[i]) >= Metric(key, x)
    requires j < |t| ==> Metric(key, t[j]) < Metric(key, x)
    ensures Insert(t, x, key) == t[..j] + [x] + t[j..]
  {
    if j > 0 {
      assert Insert(t, x, key) == [t[0]] + Insert(t[1..], x, key);
      InsertAt(t[1..], x, key, j - 1);
      SpliceCons(t, x, j);
    }
  }

  /** Splicing `x` in at position `j > 0` keeps the first record in front. */
  lemma SpliceCons(t: seq<Industry>, x: Industry, j: nat)
    requires 0 < j <= |t|
    ensures [t[0]] + (t[1..][..j - 1] + [x] + t[1..][j - 1..]) == t[..j] + [x] + t[j..]
  {
    assert t[1..][..j - 1] == t[1..j];
    assert t[1..][j - 1..] == t[j..];
    assert t[..j] == [t[0]] + t[1..j];
  }

  /** No record of `s` has metric `k`, so none is selected. */
  lemma {:induction false} WithKeyNone(s: seq<Industry>, key: Key, k: int)
    requires forall i :: 0 <= i < |s| ==> Metric(key, s[i]) != k
    ensures WithKey(s, key, k) == []
  {
    if s != [] {
      WithKeyNone(s[1..], key, k);
    }
  }

  /** Inserting into a ranked sequence appends `x` to the records of its own
      metric and leaves the records of every other metric as they were. */
  lemma {:induction false} InsertKeepsTies(t: seq<Industry>, x: Industry, key: Key, k: int)
    requires SortedDesc(t, key)
    ensures WithKey(Insert(t, x, key), key, k)
         == WithKey(t, key, k) + (if Metric(key, x) == k then [x] else [])
  {
    if t == [] || Metric(key, t[0]) < Metric(key, x) {
      InsertFrontKeepsTies(t, x, key, k);
    } else {
      SortedTail(t, key);
      InsertKeepsTies(t[1..], x, key, k);
      InsertBehindKeepsTies(t, x, key, k);
    }
  }

  /** The case of `InsertKeepsTies` where `x` goes behind the first record,
      given the property for the rest of `t`. */
  lemma InsertBehindKeepsTies(t: seq<Industry>, x: Industry, key: Key, k: int)
    requires t != [] && Metric(key, t[0]) >= Metric(key, x)
    requires WithKey(Insert(t[1..], x, key), key, k)
          == WithKey(t[1..], key, k) + (if Metric(key, x) == k then [x] else [])
    ensures WithKey(Insert(t, x, key), key, k)
         == WithKey(t, key, k) + (if Metric(key, x) == k then [x] else [])
  {
    var hx := if Metric(key, x) == k then [x] else [];
    var h0 := if Metric(key, t[0]) == k then [t[0]] else [];
    InsertBehind(t, x, key);
    WithKeyCons(t[0], Insert(t[1..], x, key), key, k);
    assert t == [t[0]] + t[1..];
    WithKeyCons(t[0], t[1..], key, k);
    var a := WithKey(t[1..], key, k);
    assert h0 + (a + hx) == (h0 + a) + hx;
  }

  /** `x` goes behind a first record whose metric is at least its own. */
  lemma InsertBehind(t: seq<Industry>, x: Industry, key: Key)
    requires t != [] && Metric(key, t[0]) >= Metric(key, x)
    ensures Insert(t, x, key) == [t[0]] + Insert(t[1..], x, key)
  {
  }

  lemma WithKeyCons(y: Industry, s: seq<Industry>, key: Key, k: int)
    ensures WithKey([y] + s, key, k) == (if Metric(key, y) == k then [y] else []) + WithKey(s, key, k)
  {
    assert ([y] + s)[0] == y;
    assert ([y] + s)[1..] == s;
  }

  /** The case of `InsertKeepsTies` where `x` goes in front: every record of
      `t` has a smaller metric than `x`, so none shares its metric. */
  lemma InsertFrontKeepsTies(t: seq<Industry>, x: Industry, key: Key, k: int)
    requires SortedDesc(t, key)
    requires t == [] || Metric(key, t[0]) < Metric(key, x)
    ensures WithKey([x] + t, key, k)
         == WithKey(t, key, k) + (if Metric(key, x) == k then [x] else [])
  {
    WithKeyTail([x] + t, key, k);
    assert ([x] + t)[1..] == t;
    if Metric(key, x) == k && t != [] {
      SortedHead(t, key);
      WithKeyNone(t, key, k);
    }
  }

  /** Stability: the records of any one metric value appear in the sorted
      sequence in exactly the order they have in the input. */
  lemma {:induction false} StableSortKeepsTies(s: seq<Industry>, key: Key, k: int)
    ensures WithKey(StableSort(s, key), key, k) == WithKey(s, key, k)
  {
    if s != [] {
      var n := |s| - 1;
      var p := s[..n];
      assert s == p + [s[n]];
      StableSortKeepsTies(p, key, k);
      InsertKeepsTies(StableSort(p, key), s[n], key, k);
      WithKeyConcat(p, [s[n]], key, k);
    }
  }

  /** In a ranked sequence no record of metric `k` exists unless the first
      record's metric is at least `k`. */
  lemma TopKey(r: seq<Industry>, key: Key, k: int)
    requires SortedDesc(r, key)
    requires WithKey(r, key, k) != []
    ensures r != [] && Metric(key, r[0]) >= k
  {
    var y := WithKey(r, key, k)[0];
    WithKeyMembers(r, key, k, y);
  }

  /** Dropping the first record of `r` drops it from the records of its own
      metric and from no others. */
  lemma WithKeyTail(r: seq<Industry>, key: Key, k: int)
    requires r != []
    ensures WithKey(r, key, k)
         == (if Metric(key, r[0]) == k then [r[0]] else []) + WithKey(r[1..], key, k)
  {
  }

  /** Sequences with the same records of every metric value are empty together. */
  lemma SameTiesSameEmptiness(r1: seq<Industry>, r2: seq<Industry>, key: Key)
    requires forall k :: WithKey(r1, key, k) == WithKey(r2, key, k)
    ensures r1 == [] <==> r2 == []
  {
    if r1 != [] {
      WithKeyTail(r1, key, Metric(key, r1[0]));
      assert WithKey(r2, key, Metric(key, r1[0])) != [];
    }
    if r2 != [] {
      WithKeyTail(r2, key, Metric(key, r2[0]));
      assert WithKey(r1, key, Metric(key, r2[0])) != [];
    }
  }

  /** A ranked sequence is determined by the order of its ties: two sequences
      ranked by the same metric whose records of every metric value appear
      in the same order are equal. */
  lemma {:induction false} RankingUnique(r1: seq<Industry>, r2: seq<Industry>, key: Key)
    requires SortedDesc(r1, key) && SortedDesc(r2, key)
    requires forall k :: WithKey(r1, key, k) == WithKey(r2, key, k)
    ensures r1 == r2
    decreases |r1|
  {
    SameTiesSameEmptiness(r1, r2, key);
    if r1 != [] {
      var m1, m2 := Metric(key, r1[0]), Metric(key, r2[0]);
      WithKeyTail(r1, key, m1);
      WithKeyTail(r2, key, m2);
      TopKey(r2, key, m1);
      TopKey(r1, key, m2);
      assert m1 == m2;
      assert WithKey(r1, key, m1) == WithKey(r2, key, m1);
      assert WithKey(r1, key, m1)[0] == r1[0];
      assert WithKey(r2, key, m1)[0] == r2[0];
      forall k ensures WithKey(r1[1..], key, k) == WithKey(r2[1..], key, k) {
        WithKeyTail(r1, key, k);
        WithKeyTail(r2, key, k);
        var p := if m1 == k then [r1[0]] else [];
        assert WithKey(r1, key, k) == p + WithKey(r1[1..], key, k);
        assert WithKey(r2, key, k) == p + WithKey(r2[1..], key, k);
        assert WithKey(r1[1..], key, k) == WithKey(r1, key, k)[|p|..];
        assert WithKey(r2[1..], key, k) == WithKey(r2, key, k)[|p|..];
      }
      assert SortedDesc(r1[1..], key) && SortedDesc(r2[1..], key);
      RankingUnique(r1[1..], r2[1..], key);
      assert r1 == [r1[0]] + r1[1..];
      assert r2 == [r2[0]] + r2[1..];
    }
  }

  /** Sorting a sequence that is already ranked by the same metric changes
      nothing. */
  lemma RankedIsFixed(s: seq<Industry>, key: Key)
    requires SortedDesc(s, key)
    ensures StableSort(s, key) == s
  {
    forall k ensures WithKey(StableSort(s, key), key, k) == WithKey(s, key, k) {
      StableSortKeepsTies(s, key, k);
    }
    RankingUnique(StableSort(s, key), s, key);
  }

  /** Sorting twice by the same metric is sorting once. */
  lemma StableSortIdempotent(s: seq<Industry>, key: Key)
    ensures StableSort(StableSort(s, key), key) == StableSort(s, key)
  {
    RankedIsFixed(StableSort(s, key), key);
  }

  /** What the shifting loop of `InsertStep` leaves behind is `Insert`'s result:
      `x` at `j`, the records before `j` in place, the ones after shifted right. */
  lemma ShiftedIsInsert(t: seq<Industry>, x: Industry, key: Key, j: nat, r: seq<Industry>)
    requires SortedDesc(t, key)
    requires j <= |t| && |r| == |t| + 1
    requires j > 0 ==> Metric(key, t[j - 1]) >= Metric(key, x)
    requires forall k :: j <= k < |t| ==> Metric(key, t[k]) < Metric(key, x)
    requires forall k :: 0 <= k < j ==> r[k] == t[k]
    requires r[j] == x
    requires forall k :: j < k < |r| ==> r[k] == t[k - 1]
    ensures r == Insert(t, x, key)
  {
    assert forall k :: 0 <= k < j ==> Metric(key, t[k]) >= Metric(key, x) by {
      if j > 0 {
        assert forall k :: 0 <= k < j ==> Metric(key, t[k]) >= Metric(key, t[j - 1]);
      }
    }
    InsertAt(t, x, key, j);
    assert r == t[..j] + [x] + t[j..];
  }

  /** One step of the in-place insertion sort: moves `a[i]` left past the
      records of the ranked prefix `a[..i]` whose metric is strictly smaller. */
  method InsertStep(a: array<Industry>, i: nat, key: Key)
    requires i < a.Length
    requires SortedDesc(a[..i], key)
    modifies a
    ensures a[..i + 1] == Insert(old(a[..i]), old(a[i]), key)
    ensures forall k :: i < k < a.Length ==> a[k] == old(a[k])
  {
    ghost var t := a[..i];
    var x := a[i];
    var j := i;
    while j > 0 && Metric(key, a[j - 1]) < Metric(key, x)
      invariant 0 <= j <= i
      invariant forall k :: 0 <= k < j ==> a[k] == t[k]
      invariant forall k :: j < k <= i ==> a[k] == t[k - 1]
      invariant forall k :: i < k < a.Length ==> a[k] == old(a[k])
      invariant forall k :: j <= k < i ==> Metric(key, t[k]) < Metric(key, x)
    {
      a[j] := a[j - 1];
      j := j - 1;
    }
    a[j] := x;
    ShiftedIsInsert(t, x, key, j, a[..i + 1]);
  }

  /** `a.sort((a, b) => tab === "acv" ? b.acv - a.acv : b.count - a.count)`,
      in place: insertion sort, which is stable because a record only moves
      past records whose metric is strictly smaller. */
  method SortDescending(a: array<Industry>, key: Key)
    modifies a
    ensures a[..] == StableSort(old(a[..]), key)
  {
    ghost var s := a[..];
    var i := 0;
    while i < a.Length
      invariant 0 <= i <= a.Length
      invariant a[..i] == StableSort(s[..i], key)
      invariant forall k :: i <= k < a.Length ==> a[k] == s[k]
    {
      assert SortedDesc(a[..i], key);
      InsertStep(a, i, key);
      StableSortSnoc(s, i, key);
      i := i + 1;
    }
    assert a[..] == a[..a.Length];
    assert s == s[..a.Length];
  }
}
