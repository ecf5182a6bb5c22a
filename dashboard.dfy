/** The view transforms of the dashboard page (src/app/dashboard/page.tsx):
    the industry filter, the dropdown's distinct industries, the pie data,
    the per-tab ranked cards, the data handed to the line and bar charts,
    and the summary totals. */
module Dashboard {
  import opened Records
  import opened Ranking
  import opened ChartCard

  // ---------------------------------------------------------------------
  // Industry filter
  // ---------------------------------------------------------------------

  /** `r` is `s` with some elements left out, the rest kept in order. */
  predicate IsSubsequence(r: seq<Industry>, s: seq<Industry>)
  {
    if r == [] then true
    else if s == [] then false
    else if r[0] == s[0] then IsSubsequence(r[1..], s[1..])
    else IsSubsequence(r, s[1..])
  }

  /** `industryData.filter(d => d.industry === name)`: the records of one
      industry, in dataset order, and every copy of each of them. */
  function Matching(data: seq<Industry>, name: string): (r: seq<Industry>)
    ensures forall i :: 0 <= i < |r| ==> r[i].industry == name
    ensures forall d :: multiset(r)[d] == if d.industry == name then multiset(data)[d] else 0
    ensures IsSubsequence(r, data)
  {
    if data == [] then []
    else
      assert data == [data[0]] + data[1..];
      var rest := Matching(data[1..], name);
      if data[0].industry == name then [data[0]] + rest else rest
  }

  /** The records the page shows for a dropdown selection: the whole dataset
      for "all", otherwise the records of exactly that industry. */
  function FilteredData(data: seq<Industry>, selected: string): (r: seq<Industry>)
    ensures selected == "all" ==> r == data
    ensures selected != "all" ==> forall i :: 0 <= i < |r| ==> r[i].industry == selected
    ensures selected != "all" ==> forall d :: multiset(r)[d] == if d.industry == selected then multiset(data)[d] else 0
    ensures IsSubsequence(r, data)
  {
    if selected == "all" then
      SubsequenceOfItself(data);
      data
    else Matching(data, selected)
  }

  lemma {:induction false} SubsequenceOfItself(s: seq<Industry>)
    ensures IsSubsequence(s, s)
  {
    if s != [] {
      SubsequenceOfItself(s[1..]);
    }
  }

  /** A subsequence is no longer than the sequence it is taken from. */
  lemma {:induction false} SubsequenceLength(r: seq<Industry>, s: seq<Industry>)
    requires IsSubsequence(r, s)
    ensures |r| <= |s|
  {
    if r != [] {
      if r[0] == s[0] {
        SubsequenceLength(r[1..], s[1..]);
      } else {
        SubsequenceLength(r, s[1..]);
      }
    }
  }

  // ---------------------------------------------------------------------
  // Distinct industries for the dropdown
  // ---------------------------------------------------------------------

  /** The position of the first record of `name`, or `|data|` if there is
      none; a `Set` lists the industries in the order of these positions. */
  function FirstIndex(data: seq<Industry>, name: string): (k: nat)
    ensures k <= |data|
    ensures k < |data| ==> data[k].industry == name
    ensures forall i :: 0 <= i < k ==> data[i].industry != name
  {
    if data == [] then 0
    else if data[0].industry == name then 0
    else 1 + FirstIndex(data[1..], name)
  }

  /** Appending a record changes no first position that already existed. */
  lemma {:induction false} FirstIndexAppend(p: seq<Industry>, x: Industry, name: string)
    ensures FirstIndex(p + [x], name)
         == if FirstIndex(p, name) < |p| then FirstIndex(p, name)
            else if x.industry == name then |p| else |p| + 1
  {
    if p != [] && p[0].industry != name {
      assert (p + [x])[1..] == p[1..] + [x];
      FirstIndexAppend(p[1..], x, name);
    }
  }

  /** `[...new Set(industryData.map(d => d.industry))]`: each industry once,
      in the order of its first record (a `Set` keeps insertion order). */
  function UniqueIndustries(data: seq<Industry>): (r: seq<string>)
    ensures |r| <= |data|
  {
    if data == [] then []
    else
      var p := UniqueIndustries(data[..|data| - 1]);
      var name := data[|data| - 1].industry;
      if name in p then p else p + [name]
  }

  /** `r` lists the industries of `data`: every industry of the dataset is in
      it, each entry is an industry of the dataset, the entries are distinct,
      and they come in the order of each industry's first record. */
  ghost predicate ListsIndustries(data: seq<Industry>, r: seq<string>)
  {
    && (forall i :: 0 <= i < |data| ==> data[i].industry in r)
    && (forall i :: 0 <= i < |r| ==> FirstIndex(data, r[i]) < |data|)
    && (forall i, j :: 0 <= i < j < |r| ==> FirstIndex(data, r[i]) < FirstIndex(data, r[j]))
    && (forall i, j :: 0 <= i < j < |r| ==> r[i] != r[j])
  }

  /** A record whose industry is already listed leaves the list as it is. */
  lemma ListsIndustriesSeen(pre: seq<Industry>, x: Industry, p: seq<string>)
    requires ListsIndustries(pre, p) && x.industry in p
    ensures ListsIndustries(pre + [x], p)
  {
    var data := pre + [x];
    forall nm | FirstIndex(pre, nm) < |pre| ensures FirstIndex(data, nm) == FirstIndex(pre, nm) {
      FirstIndexAppend(pre, x, nm);
    }
    forall i | 0 <= i < |pre| ensures data[i].industry in p {
      assert data[i] == pre[i];
    }
  }

  /** Appending a record moves no listed industry's first position. */
  lemma FirstIndicesKept(pre: seq<Industry>, x: Industry, p: seq<string>)
    requires forall i :: 0 <= i < |p| ==> FirstIndex(pre, p[i]) < |pre|
    ensures forall i :: 0 <= i < |p| ==> FirstIndex(pre + [x], p[i]) == FirstIndex(pre, p[i])
  {
    forall i | 0 <= i < |p| ensures FirstIndex(pre + [x], p[i]) == FirstIndex(pre, p[i]) {
      FirstIndexAppend(pre, x, p[i]);
    }
  }

  /** An industry missing from a list that covers the dataset has no record. */
  lemma AbsentFirstIndex(pre: seq<Industry>, name: string, p: seq<string>)
    requires forall i :: 0 <= i < |pre| ==> pre[i].industry in p
    requires name !in p
    ensures FirstIndex(pre, name) == |pre|
  {
    assert forall i :: 0 <= i < |pre| ==> pre[i].industry != name;
  }

  /** A record of a new industry appends that industry to the list. */
  lemma ListsIndustriesNew(pre: seq<Industry>, x: Industry, p: seq<string>)
    requires ListsIndustries(pre, p) && x.industry !in p
    ensures ListsIndustries(pre + [x], p + [x.industry])
  {
    var data := pre + [x];
    var r := p + [x.industry];
    FirstIndicesKept(pre, x, p);
    AbsentFirstIndex(pre, x.industry, p);
    FirstIndexAppend(pre, x, x.industry);
    assert forall i :: 0 <= i < |p| ==> r[i] == p[i];
    assert r[|p|] == x.industry;
    forall i | 0 <= i < |data| ensures data[i].industry in r {
      if i < |pre| {
        assert data[i] == pre[i];
      }
    }
  }

  /** The dropdown's list has the four properties of `ListsIndustries`. */
  lemma {:induction false} UniqueIndustriesSpec(data: seq<Industry>)
    ensures ListsIndustries(data, UniqueIndustries(data))
  {
    if data != [] {
      var n := |data| - 1;
      var pre := data[..n];
      UniqueIndustriesSpec(pre);
      assert data == pre + [data[n]];
      if data[n].industry in UniqueIndustries(pre) {
        ListsIndustriesSeen(pre, data[n], UniqueIndustries(pre));
      } else {
        ListsIndustriesNew(pre, data[n], UniqueIndustries(pre));
      }
    }
  }

  /** The industries that occur in the dataset, as a set. */
  function IndustryNames(data: seq<Industry>): set<string>
  {
    set i | 0 <= i < |data| :: data[i].industry
  }

  lemma {:induction false} DistinctCard(r: seq<string>)
    requires forall i, j :: 0 <= i < j < |r| ==> r[i] != r[j]
    ensures |set x | x in r| == |r|
  {
    if r != [] {
      var n := |r| - 1;
      DistinctCard(r[..n]);
      assert (set x | x in r) == (set x | x in r[..n]) + {r[n]};
      assert r[n] !in (set x | x in r[..n]);
    }
  }

  /** The dropdown lists exactly the dataset's industries, so its length is
      their number. */
  lemma UniqueIndustriesCount(data: seq<Industry>)
    ensures (set x | x in UniqueIndustries(data)) == IndustryNames(data)
    ensures |UniqueIndustries(data)| == |IndustryNames(data)|
  {
    var r := UniqueIndustries(data);
    UniqueIndustriesSpec(data);
    forall x | x in r ensures x in IndustryNames(data) {
      var i :| 0 <= i < |r| && r[i] == x;
      assert data[FirstIndex(data, x)].industry == x;
    }
    DistinctCard(r);
  }

  /** Any industry offered by the dropdown selects at least one record. */
  lemma SelectedIndustryMatches(data: seq<Industry>, name: string)
    requires name in UniqueIndustries(data)
    ensures Matching(data, name) != []
  {
    var r := UniqueIndustries(data);
    UniqueIndustriesSpec(data);
    var i :| 0 <= i < |r| && r[i] == name;
    var k := FirstIndex(data, name);
    assert data[k] in multiset(data);
    assert multiset(Matching(data, name))[data[k]] > 0;
  }

  // ---------------------------------------------------------------------
  // Summary totals
  // ---------------------------------------------------------------------

  /** `filteredData.reduce((sum, d) => sum + d.count, 0)`. Its ensures is
      the step of `reduce`: the running sum of all records but the last,
      plus the last one's count. */
  function TotalDeals(s: seq<Industry>): (r: nat)
    ensures s == [] ==> r == 0
    ensures s != [] ==> r == TotalDeals(s[..|s| - 1]) + s[|s| - 1].count
  {
    if s == [] then 0
    else
      assert s[1..] != [] ==> s[1..][..|s[1..]| - 1] == s[..|s| - 1][1..];
      s[0].count + TotalDeals(s[1..])
  }

  /** `filteredData.reduce((sum, d) => sum + d.acv, 0)`, with the same step. */
  function TotalAcv(s: seq<Industry>): (r: int)
    ensures s == [] ==> r == 0
    ensures s != [] ==> r == TotalAcv(s[..|s| - 1]) + s[|s| - 1].acv
  {
    if s == [] then 0
    else
      assert s[1..] != [] ==> s[1..][..|s[1..]| - 1] == s[..|s| - 1][1..];
      s[0].acv + TotalAcv(s[1..])
  }

  /** The sidebar: "Total Industries", "Total Deals" and "Total ACV". */
  datatype Summary = Summary(industries: nat, deals: nat, acv: int)

  function SummaryOf(s: seq<Industry>): Summary
  {
    Summary(|s|, TotalDeals(s), TotalAcv(s))
  }

  lemma {:induction false} TotalsConcat(a: seq<Industry>, b: seq<Industry>)
    ensures TotalDeals(a + b) == TotalDeals(a) + TotalDeals(b)
    ensures TotalAcv(a + b) == TotalAcv(a) + TotalAcv(b)
  {
    if a == [] {
      assert a + b == b;
    } else {
      assert (a + b)[0] == a[0];
      assert (a + b)[1..] == a[1..] + b;
      TotalsConcat(a[1..], b);
    }
  }

  lemma {:induction false} InsertKeepsTotals(t: seq<Industry>, x: Industry, key: Key)
    ensures TotalDeals(Insert(t, x, key)) == TotalDeals(t) + x.count
    ensures TotalAcv(Insert(t, x, key)) == TotalAcv(t) + x.acv
  {
    if t != [] && Metric(key, t[0]) >= Metric(key, x) {
      InsertKeepsTotals(t[1..], x, key);
      assert ([t[0]] + Insert(t[1..], x, key))[1..] == Insert(t[1..], x, key);
    }
  }

  lemma {:induction false} StableSortKeepsTotals(s: seq<Industry>, key: Key)
    ensures TotalDeals(StableSort(s, key)) == TotalDeals(s)
    ensures TotalAcv(StableSort(s, key)) == TotalAcv(s)
  {
    if s != [] {
      var n := |s| - 1;
      assert s[..n + 1] == s;
      StableSortSnoc(s, n, key);
      StableSortKeepsTotals(s[..n], key);
      InsertKeepsTotals(StableSort(s[..n], key), s[n], key);
    }
  }

  /** Sorting changes none of the three totals. */
  lemma StableSortKeepsSummary(s: seq<Industry>, key: Key)
    ensures SummaryOf(StableSort(s, key)) == SummaryOf(s)
  {
    StableSortKeepsTotals(s, key);
  }

  /** The sum of a chart's values. */
  function ValueSum(es: seq<Entry>): int
  {
    if es == [] then 0 else es[0].value + ValueSum(es[1..])
  }

  /** The pie's slices add up to the sidebar's "Total ACV" on the "acv" tab
      and to its "Total Deals" on any other tab. */
  lemma {:induction false} PieMatchesSummary(s: seq<Industry>, tab: string)
    ensures ValueSum(Entries(s, KeyOf(tab))) == if tab == "acv" then TotalAcv(s) else TotalDeals(s)
  {
    if s != [] {
      PieMatchesSummary(s[1..], tab);
      assert Entries(s, KeyOf(tab)) == [EntryOf(KeyOf(tab), s[0])] + Entries(s[1..], KeyOf(tab));
    }
  }

  // ---------------------------------------------------------------------
  // The tab loop and the view
  // ---------------------------------------------------------------------

  /** The tabs the page renders cards for, in the order it renders them. */
  const Tabs: seq<string> := ["acv", "count"]

  /** `s` after being sorted once for each tab of `tabs`, in order. */
  function SortThrough(s: seq<Industry>, tabs: seq<string>): (r: seq<Industry>)
    ensures |r| == |s|
  {
    if tabs == [] then s
    else StableSort(SortThrough(s, tabs[..|tabs| - 1]), KeyOf(tabs[|tabs| - 1]))
  }

  /** After the sorts the records are a permutation of the ones the loop
      started from, ranked by the last tab's metric. */
  lemma {:induction false} SortThroughRanked(s: seq<Industry>, tabs: seq<string>)
    ensures multiset(SortThrough(s, tabs)) == multiset(s)
    ensures tabs != [] ==> SortedDesc(SortThrough(s, tabs), KeyOf(tabs[|tabs| - 1]))
  {
    if tabs != [] {
      SortThroughRanked(s, tabs[..|tabs| - 1]);
    }
  }

  /** The card lists of a tab loop over `tabs`: the `t`-th is the records
      after the sorts of the first `t + 1` tabs. */
  function Cards(s: seq<Industry>, tabs: seq<string>): (r: seq<seq<Industry>>)
    ensures |r| == |tabs|
  {
    if tabs == [] then [] else Cards(s, tabs[..|tabs| - 1]) + [SortThrough(s, tabs)]
  }

  /** The cards of every tab but the last are those of the shorter loop. */
  lemma CardsPrefix(s: seq<Industry>, tabs: seq<string>, t: nat)
    requires t < |tabs| - 1
    ensures Cards(s, tabs)[t] == Cards(s, tabs[..|tabs| - 1])[t]
  {
  }

  /** The last tab's cards are the records after every sort. */
  lemma CardsLast(s: seq<Industry>, tabs: seq<string>)
    requires tabs != []
    ensures Cards(s, tabs)[|tabs| - 1] == SortThrough(s, tabs)
  {
  }

  /** Each tab's cards are ranked by that tab's metric and hold exactly the
      records the loop started from. */
  lemma {:induction false} CardsRanked(s: seq<Industry>, tabs: seq<string>, t: nat)
    requires t < |tabs|
    ensures SortedDesc(Cards(s, tabs)[t], KeyOf(tabs[t]))
    ensures multiset(Cards(s, tabs)[t]) == multiset(s)
  {
    var n := |tabs| - 1;
    if t < n {
      CardsPrefix(s, tabs, t);
      CardsRanked(s, tabs[..n], t);
      assert tabs[..n][t] == tabs[t];
    } else {
      CardsLast(s, tabs);
      SortThroughRanked(s, tabs);
    }
  }

  /** None of the sorts changes the totals. */
  lemma {:induction false} SortThroughKeepsSummary(s: seq<Industry>, tabs: seq<string>)
    ensures SummaryOf(SortThrough(s, tabs)) == SummaryOf(s)
  {
    if tabs != [] {
      var n := |tabs| - 1;
      SortThroughKeepsSummary(s, tabs[..n]);
      StableSortKeepsSummary(SortThrough(s, tabs[..n]), KeyOf(tabs[n]));
    }
  }

  /** Everything the page renders that depends on the data. */
  datatype View = View(
    industries: seq<string>,   // the dropdown's entries after "All Industries"
    pie: seq<Entry>,           // the pie chart's slices
    cards: seq<seq<Industry>>, // the ranked cards, one list per tab of `Tabs`
    chart: seq<Entry>,         // the line chart's points (ChartCard)
    bar: seq<Industry>,        // the bar chart's rows
    summary: Summary)          // the sidebar totals

  /** What one render of the page shows for the dataset as it stands. The
      cards of each tab are the filtered records after that tab's sort and
      every earlier one; the line and bar charts and the summary see the
      records in the order the last sort left them, while the dropdown and
      the pie were computed before the sorts ran. */
  function ComputeView(data: seq<Industry>, selectedIndustry: string, selectedTab: string): View
  {
    var f := FilteredData(data, selectedIndustry);
    var bar := SortThrough(f, Tabs);
    View(UniqueIndustries(data),
         Entries(f, KeyOf(selectedTab)),
         Cards(f, Tabs),
         ChartData(bar, selectedTab),
         bar,
         SummaryOf(bar))
  }

  /** Each tab's cards are the filtered records ranked by that tab's metric;
      the bar chart gets the last tab's ranking, which is by deal count. */
  lemma ViewCardsRanked(data: seq<Industry>, selectedIndustry: string, selectedTab: string)
    ensures var v := ComputeView(data, selectedIndustry, selectedTab);
      && |v.cards| == |Tabs|
      && (forall t :: 0 <= t < |Tabs| ==>
            SortedDesc(v.cards[t], KeyOf(Tabs[t])) &&
            multiset(v.cards[t]) == multiset(FilteredData(data, selectedIndustry)))
      && v.bar == v.cards[|Tabs| - 1]
      && SortedDesc(v.bar, CountKey)
  {
    var f := FilteredData(data, selectedIndustry);
    forall t | 0 <= t < |Tabs|
      ensures SortedDesc(Cards(f, Tabs)[t], KeyOf(Tabs[t])) && multiset(Cards(f, Tabs)[t]) == multiset(f)
    {
      CardsRanked(f, Tabs, t);
    }
    CardsLast(f, Tabs);
    SortThroughRanked(f, Tabs);
  }

  /** The sidebar totals are those of the filtered records, since sorting
      changes none of them; with no record they are all zero. */
  lemma ViewSummary(data: seq<Industry>, selectedIndustry: string, selectedTab: string)
    ensures var v := ComputeView(data, selectedIndustry, selectedTab);
      && v.summary == SummaryOf(FilteredData(data, selectedIndustry))
      && (FilteredData(data, selectedIndustry) == [] ==> v.summary == Summary(0, 0, 0))
  {
    SortThroughKeepsSummary(FilteredData(data, selectedIndustry), Tabs);
  }

  /** The pie's slices add up to the total the sidebar shows for the tab. */
  lemma ViewPieTotals(data: seq<Industry>, selectedIndustry: string, selectedTab: string)
    ensures var v := ComputeView(data, selectedIndustry, selectedTab);
      ValueSum(v.pie) == if selectedTab == "acv" then v.summary.acv else v.summary.deals
  {
    ViewSummary(data, selectedIndustry, selectedTab);
    PieMatchesSummary(FilteredData(data, selectedIndustry), selectedTab);
  }

  /** The pie has one slice per filtered record, in the same order, named by
      the record's industry and sized by its `acv` on the "acv" tab and by its
      `count` on any other. */
  lemma ViewPie(data: seq<Industry>, selectedIndustry: string, selectedTab: string)
    ensures var v := ComputeView(data, selectedIndustry, selectedTab);
      var f := FilteredData(data, selectedIndustry);
      && |v.pie| == |f|
      && forall i :: 0 <= i < |f| ==>
           v.pie[i] == Entry(f[i].industry, if selectedTab == "acv" then f[i].acv else f[i].count)
  {
    EntriesAt(FilteredData(data, selectedIndustry), KeyOf(selectedTab));
  }

  /** The line chart plots every filtered record once; on any tab but "acv"
      it receives records already ranked by deal count and keeps their order. */
  lemma ViewChart(data: seq<Industry>, selectedIndustry: string, selectedTab: string)
    ensures var v := ComputeView(data, selectedIndustry, selectedTab);
      && multiset(v.chart) == multiset(Entries(FilteredData(data, selectedIndustry), KeyOf(selectedTab)))
      && (selectedTab != "acv" ==> v.chart == Entries(v.bar, CountKey))
  {
    var f := FilteredData(data, selectedIndustry);
    var bar := SortThrough(f, Tabs);
    assert Tabs[..2] == Tabs;
    EntriesPermutationBySorts(f, Tabs, KeyOf(selectedTab));
    if selectedTab != "acv" {
      SortThroughRanked(f, Tabs);
      ChartDataOfRanked(bar, selectedTab);
    }
  }

  /** The sorts of the tab loop permute the records, so they permute their
      points too. */
  lemma {:induction false} EntriesPermutationBySorts(s: seq<Industry>, tabs: seq<string>, shown: Key)
    ensures multiset(Entries(SortThrough(s, tabs), shown)) == multiset(Entries(s, shown))
  {
    if tabs != [] {
      var n := |tabs| - 1;
      EntriesPermutationBySorts(s, tabs[..n], shown);
      StableSortPermutesEntries(SortThrough(s, tabs[..n]), KeyOf(tabs[n]), shown);
    }
  }

  /** Copies a sequence into a fresh array. */
  method ToArray(s: seq<Industry>) returns (a: array<Industry>)
    ensures fresh(a) && a[..] == s
  {
    a := new Industry[|s|](i requires 0 <= i < |s| => s[i]);
  }

  /** One more tab sorts the result of the tabs before it. */
  lemma SortThroughStep(s: seq<Industry>, tabs: seq<string>, t: nat)
    requires t < |tabs|
    ensures SortThrough(s, tabs[..t + 1]) == StableSort(SortThrough(s, tabs[..t]), KeyOf(tabs[t]))
    ensures Cards(s, tabs[..t + 1]) == Cards(s, tabs[..t]) + [SortThrough(s, tabs[..t + 1])]
  {
    assert tabs[..t + 1][..t] == tabs[..t];
    assert tabs[..t + 1][t] == tabs[t];
  }

  /** The loop `["acv", "count"].map(tab => ... filteredData.sort(...))`:
      each tab sorts the array in place and renders its cards from it. */
  method RenderTabs(filtered: array<Industry>) returns (cards: seq<seq<Industry>>)
    modifies filtered
    ensures filtered[..] == SortThrough(old(filtered[..]), Tabs)
    ensures cards == Cards(old(filtered[..]), Tabs)
  {
    ghost var f := filtered[..];
    cards := [];
    for t := 0 to |Tabs|
      invariant filtered[..] == SortThrough(f, Tabs[..t])
      invariant cards == Cards(f, Tabs[..t])
    {
      SortThroughStep(f, Tabs, t);
      SortDescending(filtered, KeyOf(Tabs[t]));
      cards := cards + [filtered[..]];
    }
    assert Tabs[..|Tabs|] == Tabs;
  }

  /** One render of the page as written: with the selection "all" the
      filtered records ARE the shared dataset array, and the tab loop sorts
      it in place, once per tab, leaving it ordered by deal count. */
  method Render(industryData: array<Industry>, selectedIndustry: string, selectedTab: string)
    returns (v: View)
    modifies industryData
    ensures v == ComputeView(old(industryData[..]), selectedIndustry, selectedTab)
    ensures selectedIndustry == "all" ==> industryData[..] == v.bar
    ensures selectedIndustry != "all" ==> industryData[..] == old(industryData[..])
  {
    var filtered: array<Industry>;
    if selectedIndustry == "all" {
      filtered := industryData;
    } else {
      filtered := ToArray(Matching(industryData[..], selectedIndustry));
    }
    var industries := UniqueIndustries(industryData[..]);
    var pie := Entries(filtered[..], KeyOf(selectedTab));
    var cards := RenderTabs(filtered);
    var bar := filtered[..];
    v := View(industries, pie, cards, ChartData(bar, selectedTab), bar, SummaryOf(bar));
  }

  /** The render with the dataset left alone: the filtered records are
      always a copy (`[...industryData]` for "all"), as ChartCard copies its
      input before sorting. Nothing outside is modified, so every render of
      the same dataset and selection shows the same view. */
  method RenderOnCopy(industryData: array<Industry>, selectedIndustry: string, selectedTab: string)
    returns (v: View)
    ensures v == ComputeView(industryData[..], selectedIndustry, selectedTab)
  {
    var filtered := ToArray(FilteredData(industryData[..], selectedIndustry));
    var industries := UniqueIndustries(industryData[..]);
    var pie := Entries(filtered[..], KeyOf(selectedTab));
    var cards := RenderTabs(filtered);
    var bar := filtered[..];
    v := View(industries, pie, cards, ChartData(bar, selectedTab), bar, SummaryOf(bar));
  }

  /** Two records whose rankings by the two tabs disagree. */
  const Finance := Industry("Finance", 900, 5)
  const Tech := Industry("Tech", 500, 10)

  /** The tab loop over `Tabs` is a sort by `acv` followed by one by count. */
  lemma SortThroughTabs(s: seq<Industry>)
    ensures SortThrough(s, Tabs) == StableSort(StableSort(s, AcvKey), CountKey)
  {
    assert Tabs[..0] == [] && Tabs[..2] == Tabs;
    SortThroughStep(s, Tabs, 0);
    SortThroughStep(s, Tabs, 1);
  }

  /** Sorting two records: `y` goes in front exactly when its metric is larger. */
  lemma SortPair(x: Industry, y: Industry, key: Key)
    ensures StableSort([x, y], key) == if Metric(key, x) < Metric(key, y) then [y, x] else [x, y]
  {
    var s := [x, y];
    assert s[..1] == [x] && s[..2] == s;
    StableSortSnoc(s, 1, key);
    RankedIsFixed([x], key);
  }

  lemma SortTwo()
    ensures SortThrough([Finance, Tech], Tabs) == [Tech, Finance]
    ensures SortThrough([Tech, Finance], Tabs) == [Tech, Finance]
  {
    SortThroughTabs([Finance, Tech]);
    SortThroughTabs([Tech, Finance]);
    SortPair(Finance, Tech, AcvKey);
    SortPair(Tech, Finance, AcvKey);
    SortPair(Finance, Tech, CountKey);
  }

  /** With the selection "all", one render leaves the shared dataset ranked
      by deal count (`Render` ensures `industryData[..] == v.bar`), so the
      next render of the very same dataset and selection lists the dropdown's
      industries and the pie's slices in a different order. */
  lemma RerenderReordersView()
    ensures var first := ComputeView([Finance, Tech], "all", "acv");
      var second := ComputeView(first.bar, "all", "acv");
      && first.bar == [Tech, Finance]
      && first.industries == ["Finance", "Tech"]
      && second.industries == ["Tech", "Finance"]
      && first.pie == [Entry("Finance", 900), Entry("Tech", 500)]
      && second.pie == [Entry("Tech", 500), Entry("Finance", 900)]
  {
    var first := ComputeView([Finance, Tech], "all", "acv");
    var second := ComputeView(first.bar, "all", "acv");
    SortTwo();
    assert first.bar == [Tech, Finance];
    UniquePair(Finance, Tech);
    UniquePair(Tech, Finance);
    EntriesPair(Finance, Tech, AcvKey);
    EntriesPair(Tech, Finance, AcvKey);
  }

  lemma UniquePair(x: Industry, y: Industry)
    requires x.industry != y.industry
    ensures UniqueIndustries([x, y]) == [x.industry, y.industry]
  {
    assert [x, y][..1] == [x] && [x][..0] == [];
  }

  lemma EntriesPair(x: Industry, y: Industry, key: Key)
    ensures Entries([x, y], key) == [EntryOf(key, x), EntryOf(key, y)]
  {
    assert [x, y][1..] == [y] && [y][1..] == [];
  }

  /** The finding on the as-written `Render` itself: two renders of one
      dataset array with the same selection disagree on the dropdown's and
      the pie's order. */
  method RenderTwiceReorders() returns (v1: View, v2: View)
    ensures v1.industries == ["Finance", "Tech"] && v2.industries == ["Tech", "Finance"]
    ensures v1.pie != v2.pie
  {
    var a := new Industry[2];
    a[0], a[1] := Finance, Tech;
    assert a[..] == [Finance, Tech];
    v1 := Render(a, "all", "acv");
    v2 := Render(a, "all", "acv");
    RerenderReordersView();
  }

  /** The corrected render shows the same view every time. */
  method RenderOnCopyTwiceAgrees(industryData: array<Industry>, selectedIndustry: string, selectedTab: string)
    returns (v1: View, v2: View)
    ensures v1 == v2
  {
    v1 := RenderOnCopy(industryData, selectedIndustry, selectedTab);
    v2 := RenderOnCopy(industryData, selectedIndustry, selectedTab);
  }
}
