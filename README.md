# City dashboard: filter and aggregation pipeline

This project models the client-side pipeline of a city-comparison dashboard.
The dashboard receives a columnar snapshot of cities from its gateway. Each
column is one attribute: city, continent (the `countries` column), income,
happiness, air quality, rent, and others. The model covers:

- **The filter record and its row test.** The record holds the selected
  continents and optional happiness and income bounds. `toggleContinent`
  and `resetFilters` change it, and the filter panel edits one bound at a
  time.
- **The derived values.** `filteredGeo` picks the kept rows. From it,
  `filteredStats` gives the count and means, `topCitiesFixed` the top ten
  by happiness, `continentStats` one aggregate per continent, and
  `rentEffort` rent as a percentage of income.
- **The per-group splits of the views.** The comparisons tab draws one box
  per continent present. The distributions tab draws one histogram trace
  per selected continent, or a single trace when none is selected. The
  correlations tab relabels the heatmap's column names.

Modules:

- `SeqUtil`: picking by an index list, indices of a group, distinct values in first-seen order, sum/mean/min/max, group sizes.
- `FilterCriteria`: bounds, the filter record, the row test, toggle, and the `FilterState` class whose `filters` field the hook's transitions update.
- `Dashboard`: the snapshot, `filteredGeo`, `filteredStats`, the top ten, `rentEffort`, and `continentStats`. `continentStats` is an imperative loop over a dictionary, proved against a functional specification.
- `FiltersPanel`: `hasActiveFilters`, the four single-bound edits, the selected state of a continent button, and the displayed city count.
- `Comparisons`, `Distributions`, `Correlations`: the chart data of the three views.
- `Scenario`: a three-city snapshot worked through the pipeline.

Numbers are mathematical reals. An empty bound field (`""`, falsy in
JavaScript) is `None`. A field holding a number is `Some(v)`, including
`"0"`, which is truthy and so does constrain.

The selected continents are an ordered list, not a set. `toggleContinent`
appends a label that is absent and removes every occurrence of one that is
present, keeping the other entries, repeats included, in their order. The
distributions tab draws its traces in that list order. Toggling a label twice
therefore restores the exact list when the label was absent, or present once
as the last entry; otherwise the label moves to the end of the list.

## Model

| member | source | states |
|---|---|---|
| FilterCriteria.InitialAdmitsAll | src/hooks/useDashboard.js:50-54 | With the initial record every row passes all five checks: an empty bound is skipped, never read as 0 |
| FilterCriteria.RemoveAll | src/hooks/useDashboard.js:154 | Filtering out a label leaves exactly the other labels, each with its multiplicity, in their order (a subsequence) |
| FilterCriteria.Toggle | src/hooks/useDashboard.js:150-157 | A present label is removed completely, every other entry keeping its place and multiplicity; an absent one is appended at the end; other labels' membership and all four bounds are unchanged |
| FilterCriteria.ToggleKeepsNoDups | src/hooks/useDashboard.js:150-157 | A duplicate-free selection stays duplicate-free after a toggle |
| FilterCriteria.ToggleTwice | src/hooks/useDashboard.js:150-157 | Toggling a label twice restores the set of selected labels; the exact record when the label was absent; and, when it was present, the selection without it followed by the label once |
| FilterCriteria.FilterState.constructor | src/hooks/useDashboard.js:15-19 | The state starts as the initial record: no continent, all four bounds empty |
| FilterCriteria.FilterState.SetFilters | src/hooks/useDashboard.js:164 | `setFilters` replaces the whole record |
| FilterCriteria.FilterState.ToggleContinent | src/hooks/useDashboard.js:150-157 | The new record is `Toggle` of the old one |
| FilterCriteria.FilterState.ResetFilters | src/hooks/useDashboard.js:142-148 | Whatever the prior state, the record becomes the initial record |
| Dashboard.KeptIndices | src/hooks/useDashboard.js:44-57 | The kept indices are strictly increasing (row order kept), in range, and an index is kept iff its row passes all five checks |
| Dashboard.Project | src/hooks/useDashboard.js:59-74 | Projecting every column through one index list gives equal-length columns whose row k is source row idx[k] |
| Dashboard.FilterRows | src/hooks/useDashboard.js:41-75 | The filtered columns are aligned; every kept row passes the checks; row k is the k-th admitted source row; every admitted source row is kept |
| Dashboard.FilteredGeo | src/hooks/useDashboard.js:41-43 | The filtered snapshot is absent exactly while the snapshot is absent, and otherwise is the filtered rows |
| Dashboard.InitialKeepsAllIndices | src/hooks/useDashboard.js:44-57 | With the initial filters the kept indices are exactly 0..n-1 |
| Dashboard.InitialFiltersKeepEverything | src/hooks/useDashboard.js:15-19 | With the initial (or reset) filters the filtered snapshot equals the snapshot |
| Dashboard.FilteredStats | src/hooks/useDashboard.js:77-84 | Absent iff the snapshot is absent or no row survives; otherwise count is the number of rows and each average is the mean of its column, between that column's minimum and maximum |
| Dashboard.InsertByRank | src/hooks/useDashboard.js:111 | Inserting a row into a list sorted by (happiness descending, then row order) keeps it sorted and adds exactly that row |
| Dashboard.SortByRank | src/hooks/useDashboard.js:111 | The result is a permutation of the input rows, sorted by happiness descending with ties in row order |
| Dashboard.StableOrder | src/hooks/useDashboard.js:111 | The row order of a stable descending sort: a permutation of all row indices, happier rows first, equal rows in their original order |
| Dashboard.TopCities | src/hooks/useDashboard.js:102-113 | The top list has min(10, n) entries, non-increasing in happiness, and entry k is the row at position k of the stable order |
| Dashboard.TopCitiesStable | src/hooks/useDashboard.js:111 | Two equally happy entries of the top list appear in their filtered order |
| Dashboard.TopCitiesDominate | src/hooks/useDashboard.js:111-112 | A filtered row not selected into the top list is no happier than the last entry of the list |
| Dashboard.RentEffort | src/hooks/useDashboard.js:133-140 | One entry per filtered row; 0 where income is 0, otherwise the entry times income equals rent times 100 |
| Dashboard.GroupStat | src/hooks/useDashboard.js:125-130 | A group's aggregate names the group and counts exactly its rows, which are never zero |
| Dashboard.GroupAveragesWithinGroup | src/hooks/useDashboard.js:128-129 | Each group's averages lie between the smallest and largest value of that group's rows |
| Dashboard.ContinentStatsPartition | src/hooks/useDashboard.js:116-131 | One aggregate per distinct continent in first-seen order, each non-empty, and the city counts add up to the filtered row count |
| Dashboard.TotalCitiesIsGroupSizes | src/hooks/useDashboard.js:127 | The aggregates' city counts add up to the sizes of the listed groups |
| Dashboard.AccAfterStep | src/hooks/useDashboard.js:119-123 | Visiting a row adds one to its own group's count and pushes its happiness and income, leaving every other group as it was |
| Dashboard.AccAfterUnseen | src/hooks/useDashboard.js:120 | A group not yet seen starts with an empty accumulator |
| Dashboard.VisitRow | src/hooks/useDashboard.js:119-124 | One iteration of the `forEach` keeps the loop invariant: keys in first-seen order, one accumulator per key holding exactly that group's visited rows |
| Dashboard.SummariseFinished | src/hooks/useDashboard.js:125-130 | After all rows are visited, `Object.entries(...).map(...)` yields exactly the per-group aggregates in first-seen order |
| Dashboard.ContinentStats | src/hooks/useDashboard.js:116-131 | The dictionary-building loop returns [] without data and otherwise exactly the specification `ContinentStatsOf` |
| FiltersPanel.HasActiveFilters | src/components/Filters.jsx:6-8 | Some filter is active iff the record differs from the initial record (a continent is selected or some bound is set) |
| FiltersPanel.InactiveFiltersKeepEverything | src/components/Filters.jsx:6-8 | When no filter is active the filtered snapshot is the whole snapshot |
| FiltersPanel.SetHappinessMin | src/components/Filters.jsx:47 | Only `happiness.min` is replaced; continents, `happiness.max` and both income bounds are kept |
| FiltersPanel.SetHappinessMax | src/components/Filters.jsx:58 | Only `happiness.max` is replaced; the other four fields are kept |
| FiltersPanel.SetIncomeMin | src/components/Filters.jsx:74 | Only `income.min` is replaced; the other four fields are kept |
| FiltersPanel.SetIncomeMax | src/components/Filters.jsx:84 | Only `income.max` is replaced; the other four fields are kept |
| FiltersPanel.ClearingABoundKeepsRows | src/hooks/useDashboard.js:51-54 | Emptying any one bound field never hides a row that was shown |
| FiltersPanel.IsSelected | src/components/Filters.jsx:18 | No button is highlighted while nothing is selected; otherwise a button is highlighted exactly when the hook's continent check (bounds left out) admits its label. A highlighted continent's rows pass whenever their values lie within both bounds; an unhighlighted one's rows are filtered out whatever their values |
| FiltersPanel.ToggleFlipsSelection | src/components/Filters.jsx:18-22 | Clicking a button flips its own highlight and leaves every other button's highlight unchanged |
| FiltersPanel.CityCount | src/components/Filters.jsx:93 | The count shown is the stats' count, or 0 when there are no stats |
| FiltersPanel.CityCountIsFilteredRows | src/components/Filters.jsx:93 | The count shown is the number of rows passing the filters, and 0 before data arrives |
| Comparisons.Scatter | src/views/Comparisons.jsx:16-18 | The x, y and text arrays are the filtered columns unchanged and index-aligned (income or, at lines 32-34, air quality on x); empty when the data is absent |
| Comparisons.Groups | src/views/Comparisons.jsx:47 | The box names are the distinct continents of the filtered rows, without duplicates; none when the data is absent |
| Comparisons.BoxTraces | src/views/Comparisons.jsx:47-49 | One box per group in first-seen order; box k holds the income (or, at lines 58-60, happiness) of exactly the rows of its group, in row order |
| Comparisons.BoxTracesPartition | src/views/Comparisons.jsx:47-60 | Every filtered row's continent has a box, box names are unique, and the box sizes add up to the filtered row count |
| Distributions.Histograms | src/views/Distributions.jsx:13-30 | Without a selection, one unnamed trace of all filtered values; with one, a trace per selected continent in selection order holding exactly that continent's values in row order |
| Distributions.LegendIffSeveralTraces | src/views/Distributions.jsx:36 | The legend is shown iff a chart has more than one trace |
| Distributions.DistributionCharts | src/views/Distributions.jsx:79-96 | Fed by the hook's filtered snapshot and `rentEffort` (one entry per filtered row, so every rent index is in range), a chart has one trace per selected continent or one trace |
| Distributions.SelectedTracesCoverFilteredRows | src/views/Distributions.jsx:14-15 | With a duplicate-free selection the traces together hold exactly as many values as there are filtered rows |
| Correlations.SpaceUnderscores | src/views/Correlations.jsx:13 | The label keeps its length, contains no `_`, every `_` became a space and every other character is unchanged |
| Correlations.HeatmapOf | src/views/Correlations.jsx:12-14 | `z` is the matrix unchanged, x and y are the same relabelled list with one label per column; all empty when the data is absent |
| SeqUtil.IndicesOf | src/views/Comparisons.jsx:48 | The indices of a group are increasing, in range, and are exactly the rows of that group |
| SeqUtil.Distinct | src/views/Comparisons.jsx:47 | The distinct values hold every value of the column once |
| SeqUtil.DistinctFirstSeenOrder | src/views/Comparisons.jsx:47 | The distinct values come in first-seen order, as a `Set` iterates |
| SeqUtil.MeanWithinMinMax | src/hooks/useDashboard.js:80 | A mean lies between the smallest and the largest value averaged |
| SeqUtil.GroupSizesCover | src/views/Comparisons.jsx:47-49 | Splitting rows into duplicate-free groups that cover every row loses and duplicates no row |
| Scenario.SelectingXKeepsAC | src/hooks/useDashboard.js:50-74 | Selecting continent X on the three-city snapshot keeps rows A and C, in that order, with all columns |
| Scenario.HappinessAtLeastSix | src/hooks/useDashboard.js:51 | A happiness minimum of 6 keeps rows A and C |
| Scenario.StatsOfAC | src/hooks/useDashboard.js:77-84 | Over A and C the stats are 2 cities, happiness 8.5, income 1500 |
| Scenario.TopAndRentOfAC | src/hooks/useDashboard.js:102-140 | C heads the top list; its rent effort is 0 because its income is 0 |
| Scenario.GroupsOfThreeCities | src/hooks/useDashboard.js:116-131 | The unfiltered snapshot gives X (2 cities, 8.5, 1500) then Y (1 city, 5, 1000) |

## Left out

- Data loading: the `Promise.all` fetch in src/hooks/useDashboard.js:21-39, the `loading` and `error` state, and the HTTP client in src/api/client.js. These are network I/O. The snapshot and correlation data are parameters (`Option`, `None` while not loaded).
- `Number(...)` parsing of bound strings, NaN and Infinity, `toFixed`/`toLocaleString` formatting, and floating-point rounding. Values are mathematical reals, and a bound is `None` for the empty string or `Some(v)` for a parsed number.
- `useMemo` memoisation and React re-rendering. Every derived value is a function of its inputs, recomputed on demand.
- The unused `topCities` memo at src/hooks/useDashboard.js:86-97. It calls `slice(10)` and is never returned; the hook returns `topCitiesFixed` (line 167).
- Dashboard.ContinentStats: the dictionary is a Dafny `map` plus a key list in insertion order. This matches `Object.entries` only for labels that are not integer-like and not names inherited from `Object.prototype` (continent names are neither).
- Distributions.Histograms: with continents selected, the component reads `filteredGeo.countries` without a null check and would throw while data is absent. The model requires the data to be present in that case instead of modelling the exception.
- Sorting: the model does not implement JavaScript's sort algorithm. It models the result the comparator `b.happiness - a.happiness` gives under the stable sort the language guarantees (ECMA-262 10th edition, section 22.1.3.27), as the unique stable order.
- Chart styling: colours, bin counts, opacity, layouts and hover templates of every view.
- Other files: src/App.jsx is a superseded variant of the page with its own data loading (src/App.jsx:47-79) and a server-side top-N; the Overview and Geography views and the presentational components render already-derived data; tailwind.config.js and src/constants/colors.js are styling constants.
- Column lengths: every pipeline member requires the snapshot's columns to have equal length (`Dashboard.Aligned`). The hook never checks this; the model takes it from the gateway's answer format, under which a short column cannot occur.
