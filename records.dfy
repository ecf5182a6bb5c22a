/** Industry records as the dashboard reads them, the metric a tab selects,
    and the `{name, value}` points the charts are fed. */
module Records {

  /** One row of the industry dataset. `acv` is held in minor currency units,
      so it is an exact integer rather than a floating-point number. */
  datatype Industry = Industry(industry: string, acv: int, count: nat)

  /** One `{name, value}` point handed to the pie chart or the line chart. */
  datatype Entry = Entry(name: string, value: int)

  /** The two metrics a record can be ranked and charted by. */
  datatype Key = AcvKey | CountKey

  /** The metric a tab shows: the tab "acv" selects the contract value, every
      other tab the deal count. */
  function KeyOf(tab: string): Key
  {
    if tab == "acv" then AcvKey else CountKey
  }

  /** A record's value of one metric. */
  function Metric(key: Key, d: Industry): int
  {
    match key
    case AcvKey => d.acv
    case CountKey => d.count
  }

  /** The point a record becomes: its industry and the selected metric. */
  function EntryOf(key: Key, d: Industry): Entry
  {
    Entry(d.industry, Metric(key, d))
  }

  /** Each record mapped to its point, in the same order. */
  function Entries(s: seq<Industry>, key: Key): (r: seq<Entry>)
    ensures |r| == |s|
  {
    if s == [] then [] else [EntryOf(key, s[0])] + Entries(s[1..], key)
  }

  /** The point at position `i` names the record at position `i` and carries
      its metric. */
  lemma {:induction false} EntriesAt(s: seq<Industry>, key: Key)
    ensures forall i :: 0 <= i < |s| ==>
      Entries(s, key)[i].name == s[i].industry && Entries(s, key)[i].value == Metric(key, s[i])
  {
    if s != [] {
      EntriesAt(s[1..], key);
    }
  }

  /** Ordered non-increasingly by the tab's metric. */
  predicate SortedDesc(s: seq<Industry>, key: Key)
  {
    forall i, j :: 0 <= i < j < |s| ==> Metric(key, s[i]) >= Metric(key, s[j])
  }

  /** Dropping the first record of a ranked sequence leaves it ranked. */
  lemma SortedTail(s: seq<Industry>, key: Key)
    requires s != [] && SortedDesc(s, key)
    ensures SortedDesc(s[1..], key)
  {
    assert forall i, j :: 0 <= i < j < |s| - 1 ==> s[1..][i] == s[i + 1] && s[1..][j] == s[j + 1];
  }

  /** The first record of a ranked sequence has the largest metric. */
  lemma SortedHead(s: seq<Industry>, key: Key)
    requires s != [] && SortedDesc(s, key)
    ensures forall i :: 0 <= i < |s| ==> Metric(key, s[i]) <= Metric(key, s[0])
  {
  }

  /** The records whose metric equals `k`, in their order in `s`. */
  function WithKey(s: seq<Industry>, key: Key, k: int): seq<Industry>
  {
    if s == [] then []
    else (if Metric(key, s[0]) == k then [s[0]] else []) + WithKey(s[1..], key, k)
  }

  /** Every selected record is a record of `s` with metric `k`. */
  lemma {:induction false} WithKeyMembers(s: seq<Industry>, key: Key, k: int, y: Industry)
    requires y in WithKey(s, key, k)
    ensures y in s && Metric(key, y) == k
  {
    if s != [] && !(Metric(key, s[0]) == k && y == s[0]) {
      WithKeyMembers(s[1..], key, k, y);
    }
  }

  /** The points whose value equals `v`, in their order in `es`. */
  function WithValue(es: seq<Entry>, v: int): (r: seq<Entry>)
    ensures forall e :: e in r ==> e in es && e.value == v
  {
    if es == [] then []
    else (if es[0].value == v then [es[0]] else []) + WithValue(es[1..], v)
  }

  lemma {:induction false} EntriesConcat(a: seq<Industry>, b: seq<Industry>, key: Key)
    ensures Entries(a + b, key) == Entries(a, key) + Entries(b, key)
  {
    if a == [] {
      assert a + b == b;
    } else {
      assert (a + b)[0] == a[0];
      assert (a + b)[1..] == a[1..] + b;
      assert Entries(a + b, key) == [EntryOf(key, a[0])] + Entries(a[1..] + b, key);
      EntriesConcat(a[1..], b, key);
    }
  }

  lemma {:induction false} WithKeyConcat(a: seq<Industry>, b: seq<Industry>, key: Key, k: int)
    ensures WithKey(a + b, key, k) == WithKey(a, key, k) + WithKey(b, key, k)
  {
    if a == [] {
      assert a + b == b;
    } else {
      var h := if Metric(key, a[0]) == k then [a[0]] else [];
      assert (a + b)[0] == a[0];
      assert (a + b)[1..] == a[1..] + b;
      assert WithKey(a + b, key, k) == h + WithKey(a[1..] + b, key, k);
      WithKeyConcat(a[1..], b, key, k);
      assert h + (WithKey(a[1..], key, k) + WithKey(b, key, k))
          == (h + WithKey(a[1..], key, k)) + WithKey(b, key, k);
    }
  }

  /** Selecting the points of one value is selecting the records of that
      metric value and then mapping them. */
  lemma {:induction false} WithValueOfEntries(s: seq<Industry>, key: Key, v: int)
    ensures WithValue(Entries(s, key), v) == Entries(WithKey(s, key, v), key)
  {
    if s != [] {
      var es := Entries(s, key);
      assert es == [EntryOf(key, s[0])] + Entries(s[1..], key);
      assert es[0] == EntryOf(key, s[0]);
      assert es[1..] == Entries(s[1..], key);
      WithValueOfEntries(s[1..], key, v);
      if Metric(key, s[0]) == v {
        assert WithKey(s, key, v) == [s[0]] + WithKey(s[1..], key, v);
        EntriesConcat([s[0]], WithKey(s[1..], key, v), key);
      } else {
        assert WithKey(s, key, v) == WithKey(s[1..], key, v);
      }
    }
  }
}
