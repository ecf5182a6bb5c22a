/** The line chart's data (src/app/components/ChartCard.tsx): a private copy
    of the records, sorted descending by the tab's metric and mapped to
    `{name, value}` points. The copy is sorted, never the caller's records,
    which is why this is a function of its input and nothing else. */
module ChartCard {
  import opened Records
  import opened Ranking

  /** `[...data].sort(...).map(item => ({name: item.industry, value: ...}))`. */
  function ChartData(data: seq<Industry>, tab: string): (r: seq<Entry>)
    ensures |r| == |data|
    ensures multiset(r) == multiset(Entries(data, KeyOf(tab)))
    ensures forall i, j :: 0 <= i < j < |r| ==> r[i].value >= r[j].value
  {
    var key := KeyOf(tab);
    var ranked := StableSort(data, key);
    StableSortPermutesEntries(data, key, key);
    EntriesAt(ranked, key);
    assert forall i, j :: 0 <= i < j < |ranked| ==> Metric(key, ranked[i]) >= Metric(key, ranked[j]);
    Entries(ranked, key)
  }

  /** The point at each rank names the industry of the record at that rank;
      its value is the record's `acv` when the tab is "acv" and its `count`
      for any other tab. */
  lemma ChartDataPoints(data: seq<Industry>, tab: string)
    ensures forall i :: 0 <= i < |data| ==>
      var d := StableSort(data, KeyOf(tab))[i];
      ChartData(data, tab)[i] == Entry(d.industry, if tab == "acv" then d.acv else d.count)
  {
    EntriesAt(StableSort(data, KeyOf(tab)), KeyOf(tab));
  }

  /** Points of equal value keep the order their records have in the input,
      because the sort is stable. */
  lemma ChartDataKeepsTies(data: seq<Industry>, tab: string, v: int)
    ensures WithValue(ChartData(data, tab), v) == Entries(WithKey(data, KeyOf(tab), v), KeyOf(tab))
  {
    var key := KeyOf(tab);
    WithValueOfEntries(StableSort(data, key), key, v);
    StableSortKeepsTies(data, key, v);
  }

  /** Input already ranked by the tab's metric is charted in its own order. */
  lemma ChartDataOfRanked(data: seq<Industry>, tab: string)
    requires SortedDesc(data, KeyOf(tab))
    ensures ChartData(data, tab) == Entries(data, KeyOf(tab))
  {
    RankedIsFixed(data, KeyOf(tab));
  }

  /** The chart's order is idempotent: re-ranking the ranked records by the
      same tab charts the same points. */
  lemma ChartDataIdempotent(data: seq<Industry>, tab: string)
    ensures ChartData(StableSort(data, KeyOf(tab)), tab) == ChartData(data, tab)
  {
    StableSortIdempotent(data, KeyOf(tab));
  }
}
