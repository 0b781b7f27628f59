# Inventory dashboard — a verified model

This project models the computing core of an inventory dashboard. The dashboard reads a list of
daily stock records (item, date, opening and closing stock, consumption, unit price, ABC class,
minimum stock level) and turns them into the figures and charts an inventory manager looks at:

- **The aggregation service** (`InventoryService`) turns the records into four collections:
  - MSL trend points, one per record;
  - monthly consumption points, per month and item, with negative consumption counted as none;
  - one stock-value and consumption rollup per category, in the order categories first appear;
  - one inventory-turnover (ITR) metric per item, in the order items first appear in the
    date-sorted records.

  It also holds the stock-level classifiers (`evaluateStockLevel`, `evaluateMSLStatus`) and
  the average-stock and turnover helpers.
- **The inventory table** (`InventoryTable`) does four things:
  - It filters ITR metrics by a case-insensitive name substring, a category and a class.
  - It sorts them with the page's three-branch comparator under a stable sort: a natural
    number in the item name, NaN-aware numbers, or strings.
  - It classifies turnover.
  - It keeps a two-variable sort state (`SortControl`, a class whose fields are updated in
    place).
- **The MSL trend panel** (`MSLTrendAnalysis`) classifies each point as below, optimal or
  excess, counts the below and excess days, and computes the MSL compliance percentage.
- **The consumption panel** (`ConsumptionTrendView`) filters the points and regroups them into
  one bar per month. An imperative loop does the grouping over an insertion-ordered
  accumulator. It then derives the total, the monthly average, the latest month and the trend
  percentage.
- **The category chart** (`CategoryDistribution`) projects the category metrics into chart
  rows, assigns colours from a five-colour palette, and sets each slice's opacity from the
  selected category. It also computes the chart's totals.
- **The page** (`Dashboard`) and its **filter panel** (`FilterPanel`) hold the filter state.
  - The page filters the MSL and consumption trends.
  - It derives the category and item choices.
  - It picks the item the MSL panel shows.
  - The filter panel replaces one field of the filter state at a time.

Supporting modules:

- `Common`: options, the `Number` type (a real or NaN), string order, month keys, ASCII
  lower-casing, digit runs and JavaScript's `parseInt` in base 10.
- `Seqs`: filters, keyed sums and counts, keys in first-seen order, first match, and the
  permutation and partition facts about keyed sums.
- `Sorting`: a stable insertion sort against a comparator, proved to give a sorted
  permutation, to keep tied elements in their input order, and to put first the earliest
  element of each key.

Modelling choices:

- Numbers are `real`. Counts are `nat`.
- `localeCompare` is lexicographic order on characters.
- `Array.prototype.sort` is a stable sort. Given a comparator that is a total preorder, the
  sorted result is unique.
- Insertion-ordered `Map`s are a key sequence plus a Dafny `map`.
  - The imperative calculators (consumption trends, category metrics, ITR metrics and the
    panel's monthly grouping) are methods with loops. Their loop invariant states that the
    map and the key order equal specification functions of the records seen so far.
  - Each method ensures that its result equals a specification function. Lemmas prove what
    the code promises about that function.
- Division by a zero MSL follows JavaScript: the ratio is ±Infinity or NaN (`Divide`), and
  every comparison with NaN is false.
- ITR fields are `Number`, so the table's `isNaN` branches are reachable.
  `InventoryService.ITRMetricFacts` shows the service itself only produces numbers.
- A difference between the documentation and the code: for numeric columns sorted in
  descending order, NaN values come first. The documentation describes them as always last.
  The model follows the code (`InventoryTable.NaNPlacement`).

## Model

| member | source | states |
|---|---|---|
| InventoryService.CalculateAverageStock | src/services/inventoryService.ts:47-49 | the average stock is the midpoint of opening and closing stock: equally far from both and between them |
| InventoryService.CalculateITR | src/services/inventoryService.ts:51-53 | the turnover is 0 when the average inventory is 0, otherwise turnover × average inventory = total consumption |
| InventoryService.Divide | src/services/inventoryService.ts:57 | JavaScript division: a finite quotient q with q × msl = stock when msl ≠ 0; when msl = 0, +Infinity, −Infinity or NaN exactly as the stock is positive, negative or zero |
| InventoryService.RatioComparison | src/services/inventoryService.ts:57-59 | comparing stock/msl with a threshold t is comparing stock with t × msl, with the direction reversed when msl is negative |
| InventoryService.EvaluateStockLevel | src/services/inventoryService.ts:56-61 | Low exactly when stock/msl < 0.9 and High exactly when stock/msl > 1.5, stated for positive, negative and zero msl (the last through ±Infinity and NaN); otherwise Optimal |
| InventoryService.EvaluateMSLStatus | src/services/inventoryService.ts:63-68 | Below/Excess under the same conditions as Low/High, with thresholds 0.9, 1.5 and 1 for Below, Excess and Optimal |
| InventoryService.StockLevelAgreesWithMSLStatus | src/services/inventoryService.ts:56-68 | the two classifiers agree for every stock and msl: Low ⟺ Below, High ⟺ Excess, Optimal ⟺ Optimal |
| InventoryService.BoundariesAreOptimal | src/services/inventoryService.ts:58-59 | for positive msl a stock of exactly 0.9 × msl or 1.5 × msl is Optimal |
| InventoryService.CalculateMSLTrends | src/services/inventoryService.ts:94-103 | one point per record, in order, holding the record's item id, date, closing stock and MSL |
| InventoryService.MSLTrendsOfItem | src/services/inventoryService.ts:94-103 | selecting one item's points from the trends equals computing the trends of that item's records |
| InventoryService.CompareDatesIsTotalPreorder | src/services/inventoryService.ts:108 | the date comparator is a total preorder, so the date sort is well defined |
| InventoryService.ChronologicalOrderSorted | src/services/inventoryService.ts:182 | the sorted copy is a permutation of the records, in non-decreasing date order |
| InventoryService.CalculateConsumptionTrends | src/services/inventoryService.ts:105-143 | the method's result equals the specification `ConsumptionTrendsOf`: sort a copy by date, aggregate, list the months in first-seen order, sort by month |
| InventoryService.AggregateMonthlyUsage | src/services/inventoryService.ts:112-123 | after the loop the month order, the per-month item order and the nested usage map hold, for every month and item seen, the clamped consumption summed so far |
| InventoryService.ListMonthlyUsage | src/services/inventoryService.ts:127-140 | the outer loop emits the points of each month, in the order the months were first seen |
| InventoryService.ListMonth | src/services/inventoryService.ts:128-139 | the inner loop emits one point per item of the month, in first-seen order, with the metadata of the item's first record in the unsorted input |
| InventoryService.CompareMonthsIsTotalPreorder | src/services/inventoryService.ts:142 | the month comparator is a total preorder |
| InventoryService.ConsumptionTrendsByMonth | src/services/inventoryService.ts:142 | the emitted points are in non-decreasing month order |
| InventoryService.ConsumptionTrendPoint | src/services/inventoryService.ts:113-137 | every point comes from a record of its month and item; its consumption is the sum of max(0, consumption) over that month and item, so it is ≥ 0; its category and class are those of the item's first record in the unsorted input |
| InventoryService.ConsumptionTrendsPerItem | src/services/inventoryService.ts:108-142 | an item's points add up to the sum of max(0, consumption) over all the item's records: grouping by month loses and double-counts nothing |
| InventoryService.ConsumptionTrendCount | src/services/inventoryService.ts:116-139 | there is exactly one point per (month, item) pair that occurs in the records, and none for any other pair |
| InventoryService.ConsumptionTrendsWithinMonth | src/services/inventoryService.ts:108-142 | within a month the points follow the items' first appearance in the date-sorted copy, because both sorts are stable |
| InventoryService.ClampedUsageNonNegative | src/services/inventoryService.ts:114 | the sum of consumptions clamped at zero is never negative |
| InventoryService.CategoryMetricTotals | src/services/inventoryService.ts:150-164 | the metric of a category counts its records and sums closing stock × unit price and the raw consumption over them |
| InventoryService.CalculateCategoryMetrics | src/services/inventoryService.ts:145-167 | the method's result equals the category metrics in order of each category's first appearance |
| InventoryService.CategoryMetricsOnePerCategory | src/services/inventoryService.ts:151-166 | the metrics hold distinct categories, every record's category has a metric, and every metric counts at least one record |
| InventoryService.RecordHasMetric | src/services/inventoryService.ts:151-158 | every record's category has a metric |
| InventoryService.MetricHasRecord | src/services/inventoryService.ts:151-161 | every metric counts at least one record |
| InventoryService.CategoryMetricsAddUp | src/services/inventoryService.ts:150-166 | the totals of the metrics add up to the number of records, the total stock value and the total raw consumption |
| InventoryService.ItemTotalsAreSums | src/services/inventoryService.ts:185-205 | the per-item accumulator holds the summed consumption and the stock pairs of all the item's records, and the names of its first record |
| InventoryService.StockPairsSums | src/services/inventoryService.ts:200-212 | an item has one stock pair per record, and their averages sum to the sum of the records' average stocks |
| InventoryService.ITRMetricsOf | src/services/inventoryService.ts:208-230 | one metric per item, in first-seen order of the date-sorted copy |
| InventoryService.CalculateITRMetrics | src/services/inventoryService.ts:169-231 | the method's result equals `ITRMetricsOf` |
| InventoryService.ITRMetricFacts | src/services/inventoryService.ts:188-228 | dataPoints is the item's record count (≥ 1); averageInventory is the mean of (opening + closing)/2; itr is total/average, or 0 when the average is 0, with the consumption unclamped; monthlyConsumption is total/dataPoints (the turnover helper at lines 51-53); names come from the item's earliest-dated record |
| InventoryService.ITRMetricsOnePerItem | src/services/inventoryService.ts:185-208 | the metrics hold distinct item ids and every record's item has one |
| InventoryService.ITRMetricsByFirstDate | src/services/inventoryService.ts:182-208 | metrics are ordered by the date of each item's earliest record |
| InventoryService.ITRMetricFirstRecord | src/services/inventoryService.ts:182-196 | the record that names an item is the earliest-dated one, with input order breaking ties, and it is the item's first record in the sorted copy |
| Sorting.StableSort | src/services/inventoryService.ts:108 | the sort of a copy returns a permutation of its input of the same length |
| Sorting.SortSorted | src/services/inventoryService.ts:182 | under a total-preorder comparator the result is sorted |
| Sorting.SortStable | src/services/inventoryService.ts:142 | the elements that tie with any given element keep their input order |
| Sorting.SortFirstWhere | src/services/inventoryService.ts:182-196 | the first element of a key in the sorted result is that key's earliest element, ties going to input order |
| Sorting.EarliestWhereIsLeast | src/services/inventoryService.ts:182 | the earliest element of a key exists exactly when the key occurs, and it precedes or ties with every element of that key |
| Sorting.SortWithoutOrderIsIdentity | src/components/Dashboard/InventoryTable.tsx:94-106 | a comparator that ties everything leaves the input unchanged |
| Seqs.FilterBy | src/components/Dashboard/InventoryTable.tsx:71 | a filter keeps exactly the elements that satisfy its predicate, and keeps all of them when all do |
| Seqs.FilterByCounts | src/components/Dashboard/InventoryTable.tsx:71 | a filter keeps every copy of a matching element and no copy of any other, so duplicate rows survive it |
| Seqs.FilterIsSubsequence | src/components/Dashboard/InventoryTable.tsx:71 | a filter keeps its elements in order |
| Seqs.FirstWhere | src/services/inventoryService.ts:129 | `find` returns a match exactly when one exists |
| Seqs.FirstWhereIsFirst | src/services/inventoryService.ts:129 | `find` returns the first match |
| Seqs.FirstSeenFacts | src/services/inventoryService.ts:148-166 | a map's key order holds each key once, and exactly the keys that occur |
| Seqs.FirstSeenOrder | src/components/Dashboard/Dashboard.tsx:49 | keys come in order of first appearance |
| Seqs.PartitionSum | src/services/inventoryService.ts:150-166 | summing the per-key totals over all keys gives the grand total |
| Seqs.SumWherePermutation | src/services/inventoryService.ts:182 | a keyed sum does not depend on the order of the records |
| Common.StrCompare | src/services/inventoryService.ts:108 | the string order returns -1, 0 or 1, and 0 exactly for equal strings |
| Common.StrCompareTransitive | src/services/inventoryService.ts:108 | the string order is transitive |
| Common.MonthKey | src/services/inventoryService.ts:113 | the month key is the first seven characters of the date, or the whole date when it is shorter |
| Common.ToLower | src/components/Dashboard/InventoryTable.tsx:75 | lower-casing keeps the length and lower-cases each character |
| InventoryTable.ExtractProductNumber | src/components/Dashboard/InventoryTable.tsx:44-47 | the number is the value of the first maximal run of digits in the name, or 0 when the name has no digit |
| InventoryTable.FirstDigitRunIsUnique | src/components/Dashboard/InventoryTable.tsx:44-47 | a name has at most one first maximal digit run |
| InventoryTable.FirstDigitRunExists | src/components/Dashboard/InventoryTable.tsx:45 | a name with a digit has a first digit run |
| InventoryTable.MatchAsWritten | src/components/Dashboard/InventoryTable.tsx:45 | the pattern as written matches exactly when the name contains a backslash followed by `d`; the match is a backslash and then only `d`s |
| Common.ParseInt | src/components/Dashboard/InventoryTable.tsx:46 | `parseInt(text, 10)` is NaN when the text starts with anything but white space, a sign or a digit; an unsigned or `-`-signed run of digits parses to its value |
| InventoryTable.ExtractProductNumberAsWritten | src/components/Dashboard/InventoryTable.tsx:45-46 | 0 when the pattern does not match, otherwise the `parseInt` of the match; so the key is NaN exactly when the name contains a backslash followed by `d`, and 0 otherwise |
| InventoryTable.ProductNumberAsWrittenIgnoresDigits | src/components/Dashboard/InventoryTable.tsx:45 | as written, "Item 2" and "Item 10" both give 0; the intended reading gives 2 and 10 |
| InventoryTable.NameSortAsWrittenKeepsOrder | src/components/Dashboard/InventoryTable.tsx:100-106 | as written, sorting by name never reorders the rows: every comparison is 0 or NaN, which the sort reads as a tie |
| InventoryTable.EvaluateTurnover | src/components/Dashboard/InventoryTable.tsx:60-64 | Low exactly when itr < 1, High exactly when itr > 3, and Optimal otherwise, including 1, 3 and NaN |
| InventoryTable.FilterItemsKeepsMatches | src/components/Dashboard/InventoryTable.tsx:71-80 | a row is kept exactly when its lower-cased name contains the lower-cased name filter and its category and class equal theirs, with empty fields matching all; kept rows stay in order, every copy of a kept row included |
| InventoryTable.EmptyFiltersKeepAll | src/components/Dashboard/InventoryTable.tsx:74-77 | with all fields empty every row is kept |
| InventoryTable.NameFilterIgnoresCase | src/components/Dashboard/InventoryTable.tsx:74-75 | the name filter does not depend on the case of the filter text |
| InventoryTable.DescendingIsSwappedAscending | src/components/Dashboard/InventoryTable.tsx:105-119 | for names, numbers and strings the descending comparison is the ascending one with its operands swapped |
| InventoryTable.CompareItemsAntisymmetric | src/components/Dashboard/InventoryTable.tsx:94-120 | the comparator is antisymmetric in sign |
| InventoryTable.CompareItemsTransitive | src/components/Dashboard/InventoryTable.tsx:94-120 | the comparator is transitive |
| InventoryTable.ComparatorIsTotalPreorder | src/components/Dashboard/InventoryTable.tsx:94-120 | so for every field and order the comparator is a total preorder |
| InventoryTable.SortItemsSpec | src/components/Dashboard/InventoryTable.tsx:93-121 | the sorted rows are a permutation of the filtered rows, in comparator order, with tied rows in their filtered order |
| InventoryTable.NameSortByProductNumber | src/components/Dashboard/InventoryTable.tsx:101-106 | sorting by name orders rows by product number, ascending or descending |
| InventoryTable.NaNPlacement | src/components/Dashboard/InventoryTable.tsx:109-113 | for numeric fields, ascending order puts NaN after every number and descending order puts NaN before every number |
| InventoryTable.NextSortState | src/components/Dashboard/InventoryTable.tsx:83-90 | the next state has the clicked field; clicking the current field flips the order, another field resets it to ascending |
| InventoryTable.ClickTwiceRestores | src/components/Dashboard/InventoryTable.tsx:83-90 | clicking the current field twice restores the state |
| InventoryTable.SortControl.constructor | src/components/Dashboard/InventoryTable.tsx:67-68 | the sort state starts at item name, ascending |
| InventoryTable.SortControl.HandleSortChange | src/components/Dashboard/InventoryTable.tsx:83-90 | the fields are updated in place to the next sort state |
| InventoryTable.SortControl.SortedItems | src/components/Dashboard/InventoryTable.tsx:93-94 | the displayed rows are a permutation of the filtered rows |
| MSLTrendAnalysis.GetStockStatus | src/components/Dashboard/MSLTrendAnalysis.tsx:33-38 | below exactly when stock < 0.9 × msl and excess exactly when stock > 1.5 × msl, for positive msl and for msl 0 |
| MSLTrendAnalysis.StockStatusAgreesWithService | src/components/Dashboard/MSLTrendAnalysis.tsx:33-38 | the panel's classification equals the service's `evaluateMSLStatus` for every stock and msl |
| MSLTrendAnalysis.EnrichedDataAddsOnlyStatus | src/components/Dashboard/MSLTrendAnalysis.tsx:41-44 | enriching keeps the points in order and unchanged, adding each point's status |
| MSLTrendAnalysis.CurrentStatusIsLatest | src/components/Dashboard/MSLTrendAnalysis.tsx:46 | the current status is the last point's status, or optimal without points |
| MSLTrendAnalysis.DaysWithinCount | src/components/Dashboard/MSLTrendAnalysis.tsx:47-48 | days below plus days in excess never exceed the number of points |
| MSLTrendAnalysis.Percent | src/components/Dashboard/MSLTrendAnalysis.tsx:50 | a share k/n × 100 lies in [0, 100], satisfies p × n = k × 100 and is 100 exactly when k = n |
| MSLTrendAnalysis.MslCompliance | src/components/Dashboard/MSLTrendAnalysis.tsx:49-51 | compliance lies in [0, 100], equals (n − days below) / n × 100 for n points, and is 100 exactly when no day is below (so 100 without points) |
| ConsumptionTrendView.FilterDataKeepsMatches | src/components/Dashboard/ConsumptionTrend.tsx:25-30 | a point is kept exactly when its category, class and item each equal the filter's or the field is empty; kept points stay in order, every copy included |
| ConsumptionTrendView.FilterDataIdempotent | src/components/Dashboard/ConsumptionTrend.tsx:25-30 | filtering twice with the same filters is filtering once |
| ConsumptionTrendView.EmptyFiltersKeepAll | src/components/Dashboard/ConsumptionTrend.tsx:26-28 | empty filters keep every point |
| ConsumptionTrendView.GroupByMonth | src/components/Dashboard/ConsumptionTrend.tsx:33-44 | the grouping loop yields one total per month in first-seen order, equal to `MonthlyConsumptionOf` |
| ConsumptionTrendView.MonthlyConsumptionOnePerMonth | src/components/Dashboard/ConsumptionTrend.tsx:33-44 | the bars have distinct months, every point's month has a bar, and each bar's total is the sum of its month's consumption |
| ConsumptionTrendView.MonthlyConsumptionNonEmpty | src/components/Dashboard/ConsumptionTrend.tsx:33-44 | points give at least one bar |
| ConsumptionTrendView.TotalConsumptionIsSum | src/components/Dashboard/ConsumptionTrend.tsx:47 | the total of the bars is the total consumption of the filtered points |
| ConsumptionTrendView.AverageMonthlyConsumption | src/components/Dashboard/ConsumptionTrend.tsx:48 | the average times the number of bars is the total, and the average is 0 without bars |
| ConsumptionTrendView.AverageOfPoints | src/components/Dashboard/ConsumptionTrend.tsx:47-48 | for non-empty points, average × number of months = total consumption of the points |
| ConsumptionTrendView.LatestIsLastMonth | src/components/Dashboard/ConsumptionTrend.tsx:49 | for points in month order, the latest bar is the total of the last point's month, and 0 without points |
| ConsumptionTrendView.FilterKeepsByMonth | src/components/Dashboard/ConsumptionTrend.tsx:25-30 | filtering keeps points in month order |
| ConsumptionTrendView.Trend | src/components/Dashboard/ConsumptionTrend.tsx:52-54 | the trend is 0 when the average is not positive; otherwise trend × average = (latest − average) × 100, positive exactly when the latest month is above the average and negative exactly when below |
| CategoryDistribution.ChartData | src/components/Dashboard/CategoryDistribution.tsx:16-23 | one chart row per category metric |
| CategoryDistribution.ChartDataRows | src/components/Dashboard/CategoryDistribution.tsx:16-23 | row i copies name, value, item count and consumption from metric i, takes colour i mod 5 of the palette, and is selected exactly when its category is the selected one |
| CategoryDistribution.ColorsCycle | src/components/Dashboard/CategoryDistribution.tsx:12-19 | two rows share a colour exactly when their positions differ by a multiple of 5 |
| CategoryDistribution.OpacityOfRows | src/components/Dashboard/CategoryDistribution.tsx:95 | a slice is fully opaque exactly when nothing is selected or it is the selected category, and otherwise has opacity 0.3 |
| CategoryDistribution.TotalsOfChartData | src/components/Dashboard/CategoryDistribution.tsx:25-26 | the chart totals are the sums of the metrics' stock values and item counts |
| CategoryDistribution.ChartTotalsOfRecords | src/components/Dashboard/CategoryDistribution.tsx:25-26 | on the service's metrics, the total stock value is the stock value of all records and the total item count is the number of records |
| FilterPanel.HandleChange | src/components/Dashboard/FilterPanel.tsx:36-41 | a change sets its own field to the new value and leaves every other field as it was |
| FilterPanel.LastChangeWins | src/components/Dashboard/FilterPanel.tsx:36-41 | two changes of the same field leave the second value |
| FilterPanel.ChangesCommute | src/components/Dashboard/FilterPanel.tsx:36-41 | changes of different fields commute |
| FilterPanel.ChangeToCurrentValue | src/components/Dashboard/FilterPanel.tsx:36-41 | setting a field to its current value changes nothing |
| FilterPanel.ChangeStartDate | src/components/Dashboard/FilterPanel.tsx:124 | a new start date keeps the end date and every other field |
| FilterPanel.ChangeEndDate | src/components/Dashboard/FilterPanel.tsx:130 | a new end date keeps the start date and every other field |
| FilterPanel.DatePickersCommute | src/components/Dashboard/FilterPanel.tsx:124-130 | setting start and end in either order gives the range (start, end) |
| FilterPanel.CategoryChoices | src/components/Dashboard/FilterPanel.tsx:76-81 | the category choices are "" (all) followed by the categories in order |
| FilterPanel.ItemIdChoices | src/components/Dashboard/FilterPanel.tsx:106-111 | the item choices are "" (all) followed by the item ids in order |
| FilterPanel.AbcSelectorKeepsChoices | src/components/Dashboard/FilterPanel.tsx:92-95 | the class selector only sets "", "A", "B" or "C", and "" only for the first choice |
| Dashboard.MslTrendFilterSpec | src/components/Dashboard/Dashboard.tsx:25-33 | a point is kept exactly when it is the selected item's (or none is selected) and its date is neither before a set start nor after a set end; kept points stay in order, every copy included |
| Dashboard.MslTrendDateWindow | src/components/Dashboard/Dashboard.tsx:27-31 | with both bounds set and a valid date, a point passes the dates exactly when start ≤ date ≤ end |
| Dashboard.SelectedItemTrends | src/components/Dashboard/Dashboard.tsx:25-26 | with an item selected and no dates, the MSL panel receives exactly the trend points of that item's records |
| Dashboard.ConsumptionTrendFilterSpec | src/components/Dashboard/Dashboard.tsx:36-41 | a point is kept exactly when its category, class and item each match or are unset; kept points stay in order, every copy included |
| Dashboard.ViewRefilterChangesNothing | src/components/Dashboard/Dashboard.tsx:36-84 | the consumption panel's own filter leaves the page's filtered points unchanged |
| Dashboard.LatestBarIsLatestMonth | src/components/Dashboard/Dashboard.tsx:77-84 | on the service's trends, the panel's latest bar is the total of the greatest month among the kept points |
| Dashboard.InitialFiltersPassAll | src/components/Dashboard/Dashboard.tsx:12-18 | with the initial filters the MSL trends, the consumption trends (page and panel) and the table rows all pass unchanged |
| Dashboard.CategoriesAreDistinct | src/components/Dashboard/Dashboard.tsx:49 | the category choices are exactly the item master's categories, each once |
| Dashboard.CategoriesInFirstSeenOrder | src/components/Dashboard/Dashboard.tsx:49 | the categories come in order of first appearance in the item master |
| Dashboard.ItemOptions | src/components/Dashboard/Dashboard.tsx:50-53 | one (id, name) option per item master entry, in order |
| Dashboard.ItemChoicesAreItemIds | src/components/Dashboard/Dashboard.tsx:50-53 | every item's id is a choice, and choice k is the id of entry k − 1 |
| Dashboard.AllChoicesMatchEverything | src/components/Dashboard/Dashboard.tsx:36-41 | choosing the "all" entry of the category, class and item selectors lets every consumption point through |
| Dashboard.DisplayedItemIdSpec | src/components/Dashboard/Dashboard.tsx:67 | the shown id is the selected item (and every shown point is that item's), else the first kept point's item, else "" |
| Dashboard.DisplayedItemNameSpec | src/components/Dashboard/Dashboard.tsx:68-72 | the shown name is that of the first item master entry with the shown id, or "" when there is none or no id |

## Left out

- Fetching the item master and the records over HTTP is not modelled, nor is JSON decoding. The code returns the decoded JSON unchecked, so the model takes well-formed records as input.
- The `useInventoryData` hook returns fixed sample data from a React effect, so it is left out.
- The data loader's asynchronous orchestration, with its loading and error flags, is left out. So are the stock-metric cards, the theme, the application shell and all rendering (JSX, charts, styles, icons). Only the palette indexing rule is kept.
- Number and percentage formatting (`toLocaleString`, `toFixed`, the tooltip share and the trend chip label) produce text only, so they are left out.
- Numbers are exact reals. IEEE-754 rounding and summation order are not modelled, and NaN appears only where the code tests for it.
- `localeCompare` is plain lexicographic order on characters. This is enough for ISO dates and `YYYY-MM` months; locale collation rules are not modelled.
- Date parsing and time zones are not modelled. The page's `new Date(...)` is the parameter `parseDate`, and picker dates are time values (`Number`). A date that does not parse is NaN: it is never before or after a bound, so it passes the date filter.
- Lower-casing covers ASCII letters only, not Unicode case folding.
- `parseInt` is exact on any digit run; the loss of precision on very long runs is not modelled.
- The `if (!item)` and `if (!a \|\| !b)` guards test for null rows, which a sequence of values cannot contain, so they are left out.
- `String(value \|\| '')` is modelled only for the string fields, which the type makes non-null.
- The optional `dataPoints` field is always set by the service, so the model keeps it as a plain number.
- `Object.values` order: the model lists months in first-seen order. JavaScript would put integer-like keys first; for ISO dates of at least seven characters the `YYYY-MM` key is never integer-like, but a shorter date such as `2024` gives an integer-like key that JavaScript lists first and the model does not.
- `InventoryService.ListMonth`: the guard `if (!itemDetails) return` can never fire, because every item id comes from the records. The model keeps the branch but states nothing about it.
- The calculators receive the records as a value, so the fact that they sort a copy and never reorder their input holds trivially and has no separate lemma.
- `MSLTrendAnalysis.GetStockStatus`: its contract leaves out negative MSL values; `MSLTrendAnalysis.StockStatusAgreesWithService` covers them by equating the result with `InventoryService.EvaluateMSLStatus`.

## Findings

| source | as written | input that shows it | evidently intended | confidence | as-written member | corrected member |
|---|---|---|---|---|---|---|
| src/components/Dashboard/InventoryTable.tsx:45 | the regular expression literal `/\\d+/` matches a backslash followed by one or more `d`. So a name with digits but no backslash gives 0, and a name containing `\d` gives the `parseInt` of a match that starts with a backslash, which is NaN | "Item 2" and "Item 10" both give 0, so sorting by name never reorders them | `/\d+/`: the value of the first run of digits, so "Item 2" sorts before "Item 10" (the natural sort the comment at line 100 describes) | not executed | InventoryTable.ExtractProductNumberAsWritten | InventoryTable.ExtractProductNumber |
