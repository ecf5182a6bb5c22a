# Industry dashboard view pipeline

A Dafny model of how the industry dashboard turns its dataset of industry
records (`industry`, `acv`, `count`) into what one render of the page shows:

- the dropdown's distinct industries;
- the records the selection keeps (`"all"`, or one industry);
- the pie chart's `{name, value}` slices for the selected tab;
- one ranked list of cards per tab. The tab loop over `["acv", "count"]` sorts
  the filtered records in place, descending by that tab's metric;
- the data the line chart (`ChartCard`) and the bar chart receive;
- the summary sidebar's totals.

The model has four modules:

- `Records`: the records, the two metrics and the chart points.
- `Ranking`: the stable descending sort two ways. `StableSort` is a functional
  definition. `SortDescending` is an in-place insertion sort on an `array`,
  proved to compute exactly `StableSort`. This is JavaScript's `Array.prototype.sort`,
  which is stable, with the comparators `b.acv - a.acv` and `b.count - a.count`.
- `ChartCard`: the line chart's data. It sorts a copy, so it is a function of
  its input.
- `Dashboard`: the page.
  - `Render` is the page as written. It works on the shared dataset array, and
    its `modifies` clause and postconditions say exactly what an `"all"` render
    leaves behind in that array.
  - `ComputeView` is the pure view that both render methods are proved to produce.

Rendering is modelled as a function of the dataset array and the two pieces of
React state (`selectedIndustry`, `selectedTab`), which are parameters. The
dataset module `@/data/industryData` is not part of this model; it enters only
as that `array`.

## Model

| member | source | states |
|---|---|---|
| Records.KeyOf | src/app/dashboard/page.tsx:61 | the metric each `tab === "acv" ? … : …` picks; that it is `acv` on the "acv" tab and `count` on any other is stated, in the source's own ternary form, by `ChartCard.ChartDataPoints`, `Dashboard.ViewPie` and `Records.EntriesAt` |
| Records.Entries | src/app/dashboard/page.tsx:59-62 | the `map` to `{name, value}` points (the pie, and ChartCard.tsx:33-36 after the sort): one point per record; `Records.EntriesAt` gives each point's name and value |
| Records.EntriesAt | src/app/dashboard/page.tsx:59-62 | the k-th point names the k-th record's industry and carries its metric for the tab (`acv` on "acv", else `count`) |
| Ranking.StableSort | src/app/components/ChartCard.tsx:32 | the sort's result is a permutation of its input (same length, same multiset) ordered non-increasingly by the metric |
| Ranking.StableSortKeepsTies | src/app/components/ChartCard.tsx:32 | stability: for every metric value, the records having it appear in the sorted result in exactly their input order |
| Ranking.RankingUnique | src/app/components/ChartCard.tsx:32 | two sequences that are both ranked and agree on the records of every metric value, in order, are equal, so the stable sort has exactly one possible result |
| Ranking.RankedIsFixed | src/app/components/ChartCard.tsx:32 | sorting an already ranked sequence returns it unchanged |
| Ranking.StableSortIdempotent | src/app/components/ChartCard.tsx:32 | sorting twice by the same metric equals sorting once |
| Ranking.InsertStep | src/app/dashboard/page.tsx:105-108 | one insertion pass on the array: the first i+1 places become the ranked prefix with the next record inserted stably; places beyond are untouched |
| Ranking.SortDescending | src/app/dashboard/page.tsx:105-108 | the in-place sort leaves the array holding exactly the stable descending sort of its old contents |
| ChartCard.ChartData | src/app/components/ChartCard.tsx:30-36 | the chart has one point per record, its points are a permutation of the records' points, and its values are non-increasing |
| ChartCard.ChartDataPoints | src/app/components/ChartCard.tsx:33-36 | the point at each rank is `{name: industry, value: acv if tab == "acv" else count}` of the record at that rank |
| ChartCard.ChartDataKeepsTies | src/app/components/ChartCard.tsx:31-32 | points of equal value are in the order of their records in the input |
| ChartCard.ChartDataOfRanked | src/app/components/ChartCard.tsx:31-36 | input already ranked by the tab's metric is charted in its own order |
| ChartCard.ChartDataIdempotent | src/app/components/ChartCard.tsx:31-36 | charting the ranked records again gives the same chart |
| Dashboard.Matching | src/app/dashboard/page.tsx:53 | the filter keeps only records of the named industry, keeps every copy of each of them, and keeps dataset order |
| Dashboard.FilteredData | src/app/dashboard/page.tsx:50-53 | "all" selects the dataset itself; any other selection selects the records of that industry; both are subsequences of the dataset |
| Dashboard.SubsequenceLength | src/app/dashboard/page.tsx:53 | the filter never produces more records than the dataset holds |
| Dashboard.FirstIndex | src/app/dashboard/page.tsx:56 | the first position of an industry: it matches, no earlier record matches, and it is the dataset's length when the industry is absent |
| Dashboard.UniqueIndustries | src/app/dashboard/page.tsx:56 | `[...new Set(...)]` over the unfiltered dataset: never longer than the dataset; `UniqueIndustriesSpec` and `UniqueIndustriesCount` give its contents and order |
| Dashboard.UniqueIndustriesSpec | src/app/dashboard/page.tsx:56 | the dropdown list covers every record's industry, holds only dataset industries, has no duplicates, and is ordered by each industry's first record (`Set` insertion order) |
| Dashboard.UniqueIndustriesCount | src/app/dashboard/page.tsx:56 | the dropdown lists exactly the dataset's set of industries, so its length is their number |
| Dashboard.SelectedIndustryMatches | src/app/dashboard/page.tsx:53-56 | picking any industry offered by the dropdown filters to at least one record |
| Dashboard.TotalDeals | src/app/dashboard/page.tsx:201-202 | the "Total Deals" `reduce` from 0: the total of a non-empty list is the total of all but its last record plus the last one's count, the accumulation step of `reduce`; `SummaryOf` pairs it with `filteredData.length` (line 199) |
| Dashboard.TotalAcv | src/app/dashboard/page.tsx:205-208 | the "Total ACV" `reduce` from 0, with the same left-to-right accumulation step over `acv` |
| Dashboard.TotalsConcat | src/app/dashboard/page.tsx:199-208 | the deal and ACV totals add up over a concatenation |
| Dashboard.StableSortKeepsTotals | src/app/dashboard/page.tsx:105-108 | sorting leaves both the deal total and the ACV total unchanged |
| Dashboard.StableSortKeepsSummary | src/app/dashboard/page.tsx:199-208 | sorting changes none of the three sidebar figures |
| Dashboard.PieMatchesSummary | src/app/dashboard/page.tsx:59-62 | the pie's values sum to the "Total ACV" on the "acv" tab and to the "Total Deals" otherwise |
| Dashboard.SortThrough | src/app/dashboard/page.tsx:101-108 | the records after the sorts of the tab loop, one stable sort per tab in order; keeps the length, and `SortThroughRanked` gives permutation and ranking |
| Dashboard.SortThroughRanked | src/app/dashboard/page.tsx:101-108 | after the sorts of the tab loop the records are a permutation of the filtered ones, ranked by the last tab's metric |
| Dashboard.SortThroughKeepsSummary | src/app/dashboard/page.tsx:101-108 | the whole tab loop leaves the totals as they were |
| Dashboard.Cards | src/app/dashboard/page.tsx:101-109 | the card lists of the tab loop, one per tab; `CardsRanked` gives each list's ranking and contents |
| Dashboard.CardsRanked | src/app/dashboard/page.tsx:101-109 | each tab's cards are ranked by that tab's metric and hold exactly the filtered records |
| Dashboard.ViewCardsRanked | src/app/dashboard/page.tsx:101-109 | the "acv" cards are ranked by ACV and the "count" cards by deals; the bar chart's rows are the count ranking |
| Dashboard.ViewSummary | src/app/dashboard/page.tsx:199-208 | the sidebar shows the filtered records' count and totals; with no record all three are zero |
| Dashboard.ViewPieTotals | src/app/dashboard/page.tsx:59-62 | in one render the pie's slices add up to the sidebar total of the selected tab |
| Dashboard.ViewPie | src/app/dashboard/page.tsx:59-62 | the pie has one slice per filtered record, in filtered order, named by its industry, valued by `acv` on the "acv" tab and by `count` on any other |
| Dashboard.ViewChart | src/app/dashboard/page.tsx:139 | the line chart plots each filtered record once; on any tab but "acv" it gets the count ranking and keeps its order |
| Dashboard.EntriesPermutationBySorts | src/app/dashboard/page.tsx:101-108 | the loop's sorts permute the records' points |
| Dashboard.ComputeView | src/app/dashboard/page.tsx:50-208 | the view one render shows; its properties are the lemmas `ViewCardsRanked`, `ViewSummary`, `ViewPie`, `ViewPieTotals` and `ViewChart`, and `Render` is proved to produce it |
| Dashboard.RenderTabs | src/app/dashboard/page.tsx:101-109 | the tab loop sorts its array in place for each tab and returns each tab's card list; the array ends up holding the last tab's ranking |
| Dashboard.Render | src/app/dashboard/page.tsx:50-208 | a render produces `ComputeView` of the dataset as it was. With "all" the dataset array is left holding the bar chart's order, the count ranking; with any other selection it is unchanged |
| Dashboard.RenderOnCopy | src/app/dashboard/page.tsx:50-208 | a render that filters into a copy produces the same `ComputeView` and modifies nothing |
| Dashboard.SortPair | src/app/dashboard/page.tsx:105-108 | a two-record sort swaps them exactly when the second has the larger metric |
| Dashboard.RerenderReordersView | src/app/dashboard/page.tsx:50-62 | two "all" renders of the same dataset with the same selection, the second one seeing what the first did to the array, list the dropdown and the pie in different orders |
| Dashboard.RenderTwiceReorders | src/app/dashboard/page.tsx:50-108 | calling the as-written `Render` twice on one array holding Finance then Tech, with "all" and "acv", lists the dropdown as Finance, Tech and then as Tech, Finance, and the two pies differ |
| Dashboard.RenderOnCopyTwiceAgrees | src/app/dashboard/page.tsx:50-108 | filtering into a copy, as ChartCard.tsx:31 copies its input, two renders of the same array and selection give equal views |

## Left out

- The dataset module, the API routes and the loader under `src/lib` are I/O. They are not part of this model; the dataset enters as an `array` parameter.
- `src/types` is not used by the dashboard. `Records.Industry` is the shape of the `@/data/industryData` records the page reads.
- Only `acv`, `count` and `industry` are modelled. Other fields the dataset may carry play no part in the pipeline.
- React state, re-rendering, JSX layout, recharts drawing, framer-motion animation, colours and titles are left out. Each render is one call with the state as parameters.
- `formatNumber` and its `Intl.NumberFormat('en-IN')` display formatting are left out. They change only how totals are shown, not their values.
- `acv` is a JavaScript floating-point number; the model holds it as an exact integer (minor currency units). Rounding in `reduce` and in the comparator `b.acv - a.acv` is therefore not modelled, and NaN or infinite values cannot occur.
- `count` is a `nat`; the source does not exclude negative counts. A negative-count dataset is outside the model.
- `TotalDeals` and `TotalAcv` are defined from the front and promise `reduce`'s left-to-right step; over exact integers the two orders give the same sum, and floating-point rounding, where they could differ, is left out (see the `acv` line).
- The "Total Industries" figure is `filteredData.length`, the number of records, not the number of distinct industries. `SummaryOf` models exactly that.
- Card keys (`key={item.industry}`), and what React does with duplicate keys, are left out.

## Findings

| source | as written | input that shows it | evidently intended | confidence | as-written member | corrected member |
|---|---|---|---|---|---|---|
| src/app/dashboard/page.tsx:50-108 | with the selection "all", `filteredData` is the shared `industryData` array, and each tab's `.sort` reorders that module-level array in place | dataset `[Finance(acv 900, 5 deals), Tech(acv 500, 10 deals)]`, selection "all", tab "acv": the first render lists the dropdown as Finance, Tech and leaves the array as Tech, Finance, so the next render lists Tech, Finance and reorders the pie | sort a copy, as `ChartCard` does with `[...data]`, so that every render of the same dataset and selection shows the same view | medium, not executed | Dashboard.RenderTwiceReorders, Dashboard.RerenderReordersView | Dashboard.RenderOnCopy, Dashboard.RenderOnCopyTwiceAgrees |
