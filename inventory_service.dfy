/** The service that turns daily inventory records into the dashboard's derived rows:
    stock-level ratings, minimum-stock-level trends, monthly consumption per item,
    per-category totals and per-item inventory turnover. */
module InventoryService {
  import opened Common
  import opened Seqs
  import opened Sorting
  import opened InventoryTypes

  // ----- Stock level calculations -------------------------------------------------------

  /** The midpoint of the opening and closing stock of a day. */
  function CalculateAverageStock(openingStock: real, closingStock: real): (avg: real)
    ensures avg - openingStock == closingStock - avg
    ensures openingStock <= closingStock ==> openingStock <= avg <= closingStock
    ensures closingStock <= openingStock ==> closingStock <= avg <= openingStock
  {
    (openingStock + closingStock) / 2.0
  }

  /** Inventory turnover: consumption over average inventory, 0 when there is no inventory. */
  function CalculateITR(totalConsumption: real, averageInventory: real): (itr: real)
    ensures averageInventory == 0.0 ==> itr == 0.0
    ensures averageInventory != 0.0 ==> itr * averageInventory == totalConsumption
  {
    if averageInventory == 0.0 then 0.0 else totalConsumption / averageInventory
  }

  // ----- Stock status evaluations --------------------------------------------------------

  /** A JavaScript quotient: finite, or infinite or NaN when the divisor is 0. */
  datatype Ratio = Finite(value: real) | PositiveInfinity | NegativeInfinity | Indeterminate

  function Divide(a: real, b: real): (q: Ratio)
    ensures b != 0.0 ==> q.Finite? && q.value * b == a
    ensures b == 0.0 ==> (q == PositiveInfinity <==> a > 0.0)
    ensures b == 0.0 ==> (q == NegativeInfinity <==> a < 0.0)
    ensures b == 0.0 ==> (q == Indeterminate <==> a == 0.0)
  {
    if b != 0.0 then Finite(a / b)
    else if a > 0.0 then PositiveInfinity
    else if a < 0.0 then NegativeInfinity
    else Indeterminate
  }

  /** `q < t`; NaN compares false. */
  predicate LessThan(q: Ratio, t: real)
  {
    match q
    case Finite(v) => v < t
    case NegativeInfinity => true
    case _ => false
  }

  /** `q > t`; NaN compares false. */
  predicate GreaterThan(q: Ratio, t: real)
  {
    match q
    case Finite(v) => v > t
    case PositiveInfinity => true
    case _ => false
  }

  /** Comparing `a / m` with `t` is comparing `a` with `t * m`, the sense flipping when
      `m` is negative. */
  lemma RatioComparison(a: real, m: real, t: real)
    ensures m > 0.0 ==> (a / m < t <==> a < t * m) && (a / m > t <==> a > t * m)
    ensures m < 0.0 ==> (a / m < t <==> a > t * m) && (a / m > t <==> a < t * m)
  {
    if m != 0.0 {
      var q := a / m;
      assert q * m == a;
      assert q * m - t * m == (q - t) * m;
    }
  }

  datatype StockLevel = Low | Optimal | High

  /** Rates closing stock against the minimum stock level: below 90% is low, above 150% high. */
  function EvaluateStockLevel(stock: real, msl: real): (level: StockLevel)
    ensures msl > 0.0 ==> (level == Low <==> stock < 0.9 * msl)
    ensures msl > 0.0 ==> (level == High <==> stock > 1.5 * msl)
    ensures msl < 0.0 ==> (level == Low <==> stock > 0.9 * msl)
    ensures msl < 0.0 ==> (level == High <==> stock < 1.5 * msl)
    ensures msl == 0.0 ==> (level == Low <==> stock < 0.0)
    ensures msl == 0.0 ==> (level == High <==> stock > 0.0)
  {
    var stockToMSL := Divide(stock, msl);
    RatioComparison(stock, msl, 0.9);
    RatioComparison(stock, msl, 1.5);
    if LessThan(stockToMSL, 0.9) then Low
    else if GreaterThan(stockToMSL, 1.5) then High
    else StockLevel.Optimal
  }

  datatype MSLState = Below | Optimal | Excess

  /** A status with the threshold it was judged against. */
  datatype MSLStatus = MSLStatus(status: MSLState, threshold: real)

  /** The same rating with the names and thresholds of the MSL views. */
  function EvaluateMSLStatus(stock: real, msl: real): (s: MSLStatus)
    ensures msl > 0.0 ==> (s.status == Below <==> stock < 0.9 * msl)
    ensures msl > 0.0 ==> (s.status == Excess <==> stock > 1.5 * msl)
    ensures msl < 0.0 ==> (s.status == Below <==> stock > 0.9 * msl)
    ensures msl < 0.0 ==> (s.status == Excess <==> stock < 1.5 * msl)
    ensures msl == 0.0 ==> (s.status == Below <==> stock < 0.0)
    ensures msl == 0.0 ==> (s.status == Excess <==> stock > 0.0)
    ensures s.status == Below ==> s.threshold == 0.9
    ensures s.status == Excess ==> s.threshold == 1.5
    ensures s.status == MSLState.Optimal ==> s.threshold == 1.0
  {
    var ratio := Divide(stock, msl);
    RatioComparison(stock, msl, 0.9);
    RatioComparison(stock, msl, 1.5);
    if LessThan(ratio, 0.9) then MSLStatus(Below, 0.9)
    else if GreaterThan(ratio, 1.5) then MSLStatus(Excess, 1.5)
    else MSLStatus(MSLState.Optimal, 1.0)
  }

  /** The two ratings always agree. */
  lemma StockLevelAgreesWithMSLStatus(stock: real, msl: real)
    ensures EvaluateStockLevel(stock, msl) == Low <==> EvaluateMSLStatus(stock, msl).status == Below
    ensures EvaluateStockLevel(stock, msl) == High <==> EvaluateMSLStatus(stock, msl).status == Excess
    ensures (EvaluateStockLevel(stock, msl) == StockLevel.Optimal)
        <==> (EvaluateMSLStatus(stock, msl).status == MSLState.Optimal)
  {
  }

  /** Stock exactly at 90% or 150% of a positive MSL is still optimal. */
  lemma BoundariesAreOptimal(msl: real)
    requires msl > 0.0
    ensures EvaluateStockLevel(0.9 * msl, msl) == StockLevel.Optimal
    ensures EvaluateStockLevel(1.5 * msl, msl) == StockLevel.Optimal
  {
  }

  // ----- Field accessors, passed to the generic sequence operations ----------------------

  function ItemIdOf(r: InventoryRecord): string { r.itemId }
  function CategoryOf(r: InventoryRecord): string { r.category }
  function MonthOf(r: InventoryRecord): string { MonthKey(r.date) }
  function MonthAndItemOf(r: InventoryRecord): (string, string) { (MonthKey(r.date), r.itemId) }
  function ConsumptionOf(r: InventoryRecord): real { r.consumption }
  /** `Math.max(0, record.Consumption || 0)`: negative consumption counts as none. */
  function ClampedConsumptionOf(r: InventoryRecord): real { Max(0.0, r.consumption) }
  function StockValueOf(r: InventoryRecord): real { r.closingStock * r.unitPrice }
  function AverageStockOf(r: InventoryRecord): real { CalculateAverageStock(r.openingStock, r.closingStock) }

  /** `(a, b) => a.Date.localeCompare(b.Date)`. */
  function CompareDates(a: InventoryRecord, b: InventoryRecord): real
  {
    StrCompare(a.date, b.date) as real
  }

  lemma CompareDatesIsTotalPreorder()
    ensures TotalPreorder(CompareDates)
  {
    forall a, b ensures CompareDates(a, b) > 0.0 <==> CompareDates(b, a) < 0.0 {
      StrCompareAntisymmetric(a.date, b.date);
    }
    forall a, b, c | CompareDates(a, b) <= 0.0 && CompareDates(b, c) <= 0.0
      ensures CompareDates(a, c) <= 0.0
    {
      StrCompareTransitive(a.date, b.date, c.date);
    }
  }

  /** `[...stockData].sort((a, b) => a.Date.localeCompare(b.Date))`. */
  function ChronologicalOrder(data: seq<InventoryRecord>): seq<InventoryRecord>
  {
    StableSort(data, CompareDates)
  }

  /** The chronological copy holds the same records, earlier dates first. */
  lemma ChronologicalOrderSorted(data: seq<InventoryRecord>)
    ensures multiset(ChronologicalOrder(data)) == multiset(data)
    ensures var sorted := ChronologicalOrder(data);
            forall i, j :: 0 <= i < j < |sorted| ==> StrCompare(sorted[i].date, sorted[j].date) <= 0
  {
    CompareDatesIsTotalPreorder();
    SortSorted(data, CompareDates);
  }

  // ----- Minimum stock level trends ------------------------------------------------------

  /** One trend point per record, in record order. */
  function CalculateMSLTrends(stockData: seq<InventoryRecord>): (trends: seq<MSLTrend>)
    ensures |trends| == |stockData|
    ensures forall i :: 0 <= i < |stockData| ==>
              trends[i] == MSLTrend(stockData[i].itemId, stockData[i].date, stockData[i].closingStock, stockData[i].msl)
  {
    seq(|stockData|, i requires 0 <= i < |stockData| =>
      MSLTrend(stockData[i].itemId, stockData[i].date, stockData[i].closingStock, stockData[i].msl))
  }

  /** `r => r.itemId === id` and `t => t.itemId === id`. */
  function RecordOfItem(id: string): InventoryRecord -> bool { (r: InventoryRecord) => r.itemId == id }
  function TrendOfItem(id: string): MSLTrend -> bool { (t: MSLTrend) => t.itemId == id }

  /** Selecting one item's points from the trends gives the trends of that item's records:
      a point keeps the item and date of its record, so the projection commutes with
      filtering by item. */
  lemma MSLTrendsAppend(s: seq<InventoryRecord>, x: InventoryRecord)
    ensures CalculateMSLTrends(s + [x]) == CalculateMSLTrends(s) + [MSLTrend(x.itemId, x.date, x.closingStock, x.msl)]
  {
  }

  lemma {:induction false} MSLTrendsOfItem(stockData: seq<InventoryRecord>, id: string)
    ensures FilterBy(CalculateMSLTrends(stockData), TrendOfItem(id))
         == CalculateMSLTrends(FilterBy(stockData, RecordOfItem(id)))
  {
    if stockData != [] {
      var init, x := stockData[..|stockData| - 1], stockData[|stockData| - 1];
      var t := MSLTrend(x.itemId, x.date, x.closingStock, x.msl);
      MSLTrendsOfItem(init, id);
      InitLast(stockData);
      MSLTrendsAppend(init, x);
      var trends := CalculateMSLTrends(init) + [t];
      assert trends[..|trends| - 1] == CalculateMSLTrends(init);
      assert FilterBy(trends, TrendOfItem(id))
          == FilterBy(CalculateMSLTrends(init), TrendOfItem(id)) + (if x.itemId == id then [t] else []);
      var kept := FilterBy(init, RecordOfItem(id));
      assert FilterBy(stockData, RecordOfItem(id)) == kept + (if x.itemId == id then [x] else []);
      if x.itemId == id {
        MSLTrendsAppend(kept, x);
      } else {
        assert kept + [] == kept;
      }
    }
  }

  // ----- Monthly consumption trends ------------------------------------------------------

  /** The item ids of the records of month `m`, in record order, repeats included. */
  function MonthItemIds(s: seq<InventoryRecord>, m: string): seq<string>
  {
    if s == [] then []
    else MonthItemIds(s[..|s| - 1], m) + (if MonthOf(s[|s| - 1]) == m then [s[|s| - 1].itemId] else [])
  }

  /** The key order of month `m`'s inner map: the items in order of their first record that month. */
  function MonthItemsOf(s: seq<InventoryRecord>, m: string): seq<string>
  {
    FirstSeen(MonthItemIds(s, m))
  }

  /** The clamped consumption of item `id` summed over the records of month `m`. */
  function MonthUsageOf(s: seq<InventoryRecord>, m: string, id: string): real
  {
    SumWhere(s, MonthAndItemOf, (m, id), ClampedConsumptionOf)
  }

  /** The point of item `id` in month `m`, named after the item's first record in `data`;
      none when no record has that item. */
  function PointFor(data: seq<InventoryRecord>, sorted: seq<InventoryRecord>, m: string, id: string): seq<ConsumptionTrend>
  {
    match FirstWhere(data, ItemIdOf, id)
    case None => []
    case Some(r) => [ConsumptionTrend(id, r.category, r.abcClass, m, MonthUsageOf(sorted, m, id))]
  }

  /** The points of month `m` for the items `ids`, in that order. */
  function MonthPoints(data: seq<InventoryRecord>, sorted: seq<InventoryRecord>, m: string, ids: seq<string>): seq<ConsumptionTrend>
  {
    if ids == [] then []
    else MonthPoints(data, sorted, m, ids[..|ids| - 1]) + PointFor(data, sorted, m, ids[|ids| - 1])
  }

  /** The points of the months `months`, month by month, each month's items in key order. */
  function GroupedPoints(data: seq<InventoryRecord>, sorted: seq<InventoryRecord>, months: seq<string>): seq<ConsumptionTrend>
  {
    if months == [] then []
    else
      var m := months[|months| - 1];
      GroupedPoints(data, sorted, months[..|months| - 1]) + MonthPoints(data, sorted, m, MonthItemsOf(sorted, m))
  }

  function TrendMonthOf(t: ConsumptionTrend): string { t.month }
  function TrendKeyOf(t: ConsumptionTrend): (string, string) { (t.month, t.itemId) }
  function TrendItemOf(t: ConsumptionTrend): string { t.itemId }
  function TrendConsumptionOf(t: ConsumptionTrend): real { t.consumption }

  /** `(a, b) => a.month.localeCompare(b.month)`. */
  function CompareMonths(a: ConsumptionTrend, b: ConsumptionTrend): real
  {
    StrCompare(a.month, b.month) as real
  }

  lemma CompareMonthsIsTotalPreorder()
    ensures TotalPreorder(CompareMonths)
  {
    forall a, b ensures CompareMonths(a, b) > 0.0 <==> CompareMonths(b, a) < 0.0 {
      StrCompareAntisymmetric(a.month, b.month);
    }
    forall a, b, c | CompareMonths(a, b) <= 0.0 && CompareMonths(b, c) <= 0.0
      ensures CompareMonths(a, c) <= 0.0
    {
      StrCompareTransitive(a.month, b.month, c.month);
    }
  }

  /** What `calculateConsumptionTrends` returns: the month-by-month points of the
      chronological copy, sorted by month. */
  function ConsumptionTrendsOf(data: seq<InventoryRecord>): seq<ConsumptionTrend>
  {
    var sorted := ChronologicalOrder(data);
    StableSort(GroupedPoints(data, sorted, FirstSeen(KeysOf(sorted, MonthOf))), CompareMonths)
  }

  /** The state of month `m`'s inner map after the records `s`: `ids` is its key order. */
  ghost predicate MonthStateOf(s: seq<InventoryRecord>, m: string, ids: seq<string>, inner: map<string, real>)
  {
    && ids == MonthItemsOf(s, m)
    && (forall id :: id in inner <==> id in ids)
    && (forall id | id in inner :: inner[id] == MonthUsageOf(s, m, id))
  }

  /** The state of the nested insertion-ordered maps after the records `s`: `months` is the
      outer key order, `items[m]` the key order of month `m`'s inner map. */
  ghost predicate UsageStateOf(s: seq<InventoryRecord>, months: seq<string>, items: map<string, seq<string>>,
                               usage: map<string, map<string, real>>)
  {
    && months == FirstSeen(KeysOf(s, MonthOf))
    && (forall m :: m in usage <==> m in months)
    && (forall m | m in usage :: m in items && MonthStateOf(s, m, items[m], usage[m]))
  }

  /** An item has a record in month `m` exactly when it is a key of that month. */
  lemma {:induction false} MonthItemIdsMembers(s: seq<InventoryRecord>, m: string, id: string)
    ensures id in MonthItemIds(s, m) <==> exists r :: r in s && MonthAndItemOf(r) == (m, id)
  {
    if s != [] {
      var init, x := s[..|s| - 1], s[|s| - 1];
      InitLast(s);
      MonthItemIdsMembers(init, m, id);
      assert MonthItemIds(s, m) == MonthItemIds(init, m) + (if MonthOf(x) == m then [x.itemId] else []);
      assert id in MonthItemIds(s, m) <==> id in MonthItemIds(init, m) || (MonthOf(x) == m && x.itemId == id);
      if id in MonthItemIds(init, m) {
        var r :| r in init && MonthAndItemOf(r) == (m, id);
        assert r in s;
      }
      if MonthOf(x) == m && x.itemId == id {
        assert x in s && MonthAndItemOf(x) == (m, id);
      }
      forall r | r in s && MonthAndItemOf(r) == (m, id) ensures id in MonthItemIds(s, m) {
        if r != x {
          assert r in init;
        }
      }
    }
  }

  lemma {:induction false} MonthAbsentFrom(s: seq<InventoryRecord>, m: string)
    requires m !in KeysOf(s, MonthOf)
    ensures MonthItemIds(s, m) == []
  {
    if s != [] {
      assert KeysOf(s, MonthOf)[|s| - 1] == MonthOf(s[|s| - 1]);
      assert KeysOf(s[..|s| - 1], MonthOf) == KeysOf(s, MonthOf)[..|s| - 1];
      MonthAbsentFrom(s[..|s| - 1], m);
    }
  }

  /** A month without records has no items. */
  lemma MonthAbsent(s: seq<InventoryRecord>, m: string)
    requires m !in FirstSeen(KeysOf(s, MonthOf))
    ensures MonthItemsOf(s, m) == []
  {
    FirstSeenFacts(KeysOf(s, MonthOf));
    MonthAbsentFrom(s, m);
  }

  /** An item that is not a key of month `m` has used nothing in it. */
  lemma MonthUsageAbsent(s: seq<InventoryRecord>, m: string, id: string)
    requires id !in MonthItemsOf(s, m)
    ensures MonthUsageOf(s, m, id) == 0.0
  {
    FirstSeenFacts(MonthItemIds(s, m));
    MonthItemIdsMembers(s, m, id);
    SumWhereAbsent(s, MonthAndItemOf, (m, id), ClampedConsumptionOf);
  }

  /** One more record adds its clamped consumption to its month and item, and appends its
      item to the month's keys when new. */
  lemma MonthUsageAppend(s: seq<InventoryRecord>, x: InventoryRecord)
    ensures MonthUsageOf(s + [x], MonthOf(x), x.itemId) == MonthUsageOf(s, MonthOf(x), x.itemId) + Max(0.0, x.consumption)
    ensures MonthItemsOf(s + [x], MonthOf(x)) ==
              if x.itemId in MonthItemsOf(s, MonthOf(x)) then MonthItemsOf(s, MonthOf(x))
              else MonthItemsOf(s, MonthOf(x)) + [x.itemId]
  {
    assert (s + [x])[..|s|] == s;
    var ids := MonthItemIds(s, MonthOf(x));
    assert (ids + [x.itemId])[..|ids|] == ids;
  }

  /** A record of another month leaves month `m` as it was. */
  lemma MonthStateUnchanged(s: seq<InventoryRecord>, x: InventoryRecord, m: string, ids: seq<string>, inner: map<string, real>)
    requires MonthOf(x) != m && MonthStateOf(s, m, ids, inner)
    ensures MonthStateOf(s + [x], m, ids, inner)
  {
    assert (s + [x])[..|s|] == s;
    assert MonthItemIds(s + [x], m) == MonthItemIds(s, m) + [];
    assert MonthItemIds(s, m) + [] == MonthItemIds(s, m);
  }

  /** The inner map of month `m` and its key order, a fresh empty map for a new month. */
  lemma MonthEntry(s: seq<InventoryRecord>, months: seq<string>, items: map<string, seq<string>>,
                   usage: map<string, map<string, real>>, m: string, ids: seq<string>, inner: map<string, real>)
    requires UsageStateOf(s, months, items, usage)
    requires ids == (if m in usage then items[m] else [])
    requires inner == (if m in usage then usage[m] else map[])
    ensures MonthStateOf(s, m, ids, inner)
  {
    if m !in usage {
      MonthAbsent(s, m);
    }
  }

  /** A record of month `m` adds its clamped consumption to its item's entry, which is
      created, with total 0, when new. */
  lemma MonthStateStep(s: seq<InventoryRecord>, x: InventoryRecord, ids: seq<string>, inner: map<string, real>,
                       ids': seq<string>, inner': map<string, real>)
    requires MonthStateOf(s, MonthOf(x), ids, inner)
    requires ids' == if x.itemId in inner then ids else ids + [x.itemId]
    requires inner' == inner[x.itemId := (if x.itemId in inner then inner[x.itemId] else 0.0) + Max(0.0, x.consumption)]
    ensures MonthStateOf(s + [x], MonthOf(x), ids', inner')
  {
    assert (s + [x])[..|s|] == s;
    MonthUsageAppend(s, x);
    if x.itemId !in inner {
      MonthUsageAbsent(s, MonthOf(x), x.itemId);
    }
  }

  lemma UsageStateStep(s: seq<InventoryRecord>, x: InventoryRecord,
                       months: seq<string>, items: map<string, seq<string>>, usage: map<string, map<string, real>>,
                       ids': seq<string>, inner': map<string, real>,
                       months': seq<string>, items': map<string, seq<string>>, usage': map<string, map<string, real>>)
    requires UsageStateOf(s, months, items, usage)
    requires MonthStateOf(s + [x], MonthOf(x), ids', inner')
    requires months' == if MonthOf(x) in usage then months else months + [MonthOf(x)]
    requires items' == items[MonthOf(x) := ids']
    requires usage' == usage[MonthOf(x) := inner']
    ensures UsageStateOf(s + [x], months', items', usage')
  {
    var mx := MonthOf(x);
    FirstSeenKeysStep(s, x, MonthOf);
    forall m | m in usage' ensures m in items' && MonthStateOf(s + [x], m, items'[m], usage'[m]) {
      if m != mx {
        MonthStateUnchanged(s, x, m, items[m], usage[m]);
      }
    }
  }

  lemma UsageStateComplete(s: seq<InventoryRecord>, months: seq<string>, items: map<string, seq<string>>,
                           usage: map<string, map<string, real>>)
    requires UsageStateOf(s[..|s|], months, items, usage)
    ensures UsageStateOf(s, months, items, usage)
  {
    assert s[..|s|] == s;
  }

  /** Sums the clamped consumption per month and item in nested insertion-ordered maps,
      lists the entries month by month, and sorts them by month. */
  method CalculateConsumptionTrends(stockData: seq<InventoryRecord>) returns (trends: seq<ConsumptionTrend>)
    ensures trends == ConsumptionTrendsOf(stockData)
  {
    var sortedData := ChronologicalOrder(stockData);
    var monthOrder, itemOrder, monthlyUsage := AggregateMonthlyUsage(sortedData);
    trends := ListMonthlyUsage(stockData, sortedData, monthOrder, itemOrder, monthlyUsage);
    trends := StableSort(trends, CompareMonths);
  }

  /** The first pass: adds each record's clamped consumption to the entry of its month and
      item. `monthOrder` is the key order of `monthlyUsage`, `itemOrder[m]` that of its
      inner map for month `m`. */
  method AggregateMonthlyUsage(sortedData: seq<InventoryRecord>)
    returns (monthOrder: seq<string>, itemOrder: map<string, seq<string>>, monthlyUsage: map<string, map<string, real>>)
    ensures UsageStateOf(sortedData, monthOrder, itemOrder, monthlyUsage)
  {
    monthlyUsage, monthOrder, itemOrder := map[], [], map[];
    for i := 0 to |sortedData|
      invariant UsageStateOf(sortedData[..i], monthOrder, itemOrder, monthlyUsage)
    {
      var record := sortedData[i];
      var monthKey := MonthKey(record.date);
      var usage := Max(0.0, record.consumption);
      ghost var months0, items0, usage0 := monthOrder, itemOrder, monthlyUsage;
      var itemsInMonth: map<string, real> := map[];
      var itemKeys: seq<string> := [];
      if monthKey in monthlyUsage {
        itemsInMonth, itemKeys := monthlyUsage[monthKey], itemOrder[monthKey];
      } else {
        monthOrder := monthOrder + [monthKey];
      }
      MonthEntry(sortedData[..i], months0, items0, usage0, monthKey, itemKeys, itemsInMonth);
      ghost var keys0, inner0 := itemKeys, itemsInMonth;
      var currentTotal := if record.itemId in itemsInMonth then itemsInMonth[record.itemId] else 0.0;
      if record.itemId !in itemsInMonth {
        itemKeys := itemKeys + [record.itemId];
      }
      itemsInMonth := itemsInMonth[record.itemId := currentTotal + usage];
      monthlyUsage := monthlyUsage[monthKey := itemsInMonth];
      itemOrder := itemOrder[monthKey := itemKeys];
      MonthStateStep(sortedData[..i], record, keys0, inner0, itemKeys, itemsInMonth);
      UsageStateStep(sortedData[..i], record, months0, items0, usage0, itemKeys, itemsInMonth,
                     monthOrder, itemOrder, monthlyUsage);
      PrefixStep(sortedData, i);
    }
    UsageStateComplete(sortedData, monthOrder, itemOrder, monthlyUsage);
  }

  /** The second pass: one point per month and item, in key order, named after the item's
      first record in `stockData`. */
  method ListMonthlyUsage(stockData: seq<InventoryRecord>, sortedData: seq<InventoryRecord>, monthOrder: seq<string>,
                          itemOrder: map<string, seq<string>>, monthlyUsage: map<string, map<string, real>>)
    returns (trends: seq<ConsumptionTrend>)
    requires UsageStateOf(sortedData, monthOrder, itemOrder, monthlyUsage)
    ensures trends == GroupedPoints(stockData, sortedData, monthOrder)
  {
    trends := [];
    for i := 0 to |monthOrder|
      invariant trends == GroupedPoints(stockData, sortedData, monthOrder[..i])
    {
      var month := monthOrder[i];
      UsageMonth(sortedData, monthOrder, itemOrder, monthlyUsage, i);
      var ids := itemOrder[month];
      var points := ListMonth(stockData, sortedData, month, ids, monthlyUsage[month]);
      trends := trends + points;
      GroupedPointsStep(stockData, sortedData, monthOrder, i, ids);
    }
    assert monthOrder[..|monthOrder|] == monthOrder;
  }

  /** The inner pass over one month's map: a point per item, in key order, skipping an
      item that no record of `stockData` has. */
  method ListMonth(stockData: seq<InventoryRecord>, sortedData: seq<InventoryRecord>, month: string,
                   ids: seq<string>, items: map<string, real>)
    returns (points: seq<ConsumptionTrend>)
    requires MonthStateOf(sortedData, month, ids, items)
    ensures points == MonthPoints(stockData, sortedData, month, ids)
  {
    points := [];
    for j := 0 to |ids|
      invariant points == MonthPoints(stockData, sortedData, month, ids[..j])
    {
      var itemId := ids[j];
      MonthPointFor(stockData, sortedData, month, ids, items, j);
      var itemDetails := FirstWhere(stockData, ItemIdOf, itemId);
      if itemDetails.Some? {
        points := points + [ConsumptionTrend(itemId, itemDetails.value.category, itemDetails.value.abcClass,
                                             month, items[itemId])];
      }
      MonthPointsStep(stockData, sortedData, month, ids, j);
    }
    assert ids[..|ids|] == ids;
  }

  lemma UsageMonth(s: seq<InventoryRecord>, months: seq<string>, items: map<string, seq<string>>,
                   usage: map<string, map<string, real>>, i: nat)
    requires UsageStateOf(s, months, items, usage) && i < |months|
    ensures months[i] in usage && months[i] in items
    ensures MonthStateOf(s, months[i], items[months[i]], usage[months[i]])
  {
  }

  lemma MonthPointFor(data: seq<InventoryRecord>, sorted: seq<InventoryRecord>, m: string, ids: seq<string>,
                      inner: map<string, real>, j: nat)
    requires MonthStateOf(sorted, m, ids, inner) && j < |ids|
    ensures ids[j] in inner
    ensures PointFor(data, sorted, m, ids[j]) ==
              var f := FirstWhere(data, ItemIdOf, ids[j]);
              if f.Some? then [ConsumptionTrend(ids[j], f.value.category, f.value.abcClass, m, inner[ids[j]])] else []
  {
  }

  lemma MonthPointsStep(data: seq<InventoryRecord>, sorted: seq<InventoryRecord>, m: string, ids: seq<string>, j: nat)
    requires j < |ids|
    ensures MonthPoints(data, sorted, m, ids[..j + 1]) == MonthPoints(data, sorted, m, ids[..j]) + PointFor(data, sorted, m, ids[j])
  {
    assert ids[..j + 1][..j] == ids[..j];
  }

  lemma GroupedPointsStep(data: seq<InventoryRecord>, sorted: seq<InventoryRecord>, months: seq<string>, i: nat, ids: seq<string>)
    requires i < |months| && ids == MonthItemsOf(sorted, months[i])
    ensures GroupedPoints(data, sorted, months[..i + 1])
            == GroupedPoints(data, sorted, months[..i]) + MonthPoints(data, sorted, months[i], ids)
  {
    assert months[..i + 1][..i] == months[..i];
  }

  /** A point as the code builds it: named after the item's first record in `data`, and
      holding the month's usage summed over the chronological copy. */
  ghost predicate IsTrendPoint(data: seq<InventoryRecord>, sorted: seq<InventoryRecord>, p: ConsumptionTrend)
  {
    && p.itemId in MonthItemsOf(sorted, p.month)
    && FirstWhere(data, ItemIdOf, p.itemId).Some?
    && p.category == FirstWhere(data, ItemIdOf, p.itemId).value.category
    && p.abcClass == FirstWhere(data, ItemIdOf, p.itemId).value.abcClass
    && p.consumption == MonthUsageOf(sorted, p.month, p.itemId)
  }

  lemma {:induction false} MonthPointsMembers(data: seq<InventoryRecord>, sorted: seq<InventoryRecord>, m: string, ids: seq<string>)
    requires forall id | id in ids :: id in MonthItemsOf(sorted, m)
    ensures forall p | p in MonthPoints(data, sorted, m, ids) :: p.month == m && p.itemId in ids && IsTrendPoint(data, sorted, p)
  {
    if ids != [] {
      MonthPointsMembers(data, sorted, m, ids[..|ids| - 1]);
      assert ids[|ids| - 1] in ids;
    }
  }

  lemma {:induction false} GroupedPointsMembers(data: seq<InventoryRecord>, sorted: seq<InventoryRecord>, months: seq<string>)
    ensures forall p | p in GroupedPoints(data, sorted, months) :: p.month in months && IsTrendPoint(data, sorted, p)
  {
    if months != [] {
      var m := months[|months| - 1];
      GroupedPointsMembers(data, sorted, months[..|months| - 1]);
      MonthPointsMembers(data, sorted, m, MonthItemsOf(sorted, m));
    }
  }

  lemma {:induction false} ClampedUsageNonNegative(s: seq<InventoryRecord>, k: (string, string))
    ensures SumWhere(s, MonthAndItemOf, k, ClampedConsumptionOf) >= 0.0
  {
    if s != [] {
      ClampedUsageNonNegative(s[..|s| - 1], k);
    }
  }

  /** The trends are ordered by month. */
  lemma ConsumptionTrendsByMonth(data: seq<InventoryRecord>)
    ensures var ts := ConsumptionTrendsOf(data);
            forall i, j :: 0 <= i < j < |ts| ==> StrCompare(ts[i].month, ts[j].month) <= 0
  {
    var sorted := ChronologicalOrder(data);
    CompareMonthsIsTotalPreorder();
    SortSorted(GroupedPoints(data, sorted, FirstSeen(KeysOf(sorted, MonthOf))), CompareMonths);
  }

  /** Each point is a month and item some record has; it holds that item's clamped
      consumption summed over the month's records, and the category and ABC class of the
      item's first record. */
  lemma ConsumptionTrendPoint(data: seq<InventoryRecord>, p: ConsumptionTrend)
    requires p in ConsumptionTrendsOf(data)
    ensures exists r :: r in data && MonthAndItemOf(r) == (p.month, p.itemId)
    ensures p.consumption == SumWhere(data, MonthAndItemOf, (p.month, p.itemId), ClampedConsumptionOf)
    ensures p.consumption >= 0.0
    ensures FirstWhere(data, ItemIdOf, p.itemId).Some?
    ensures p.category == FirstWhere(data, ItemIdOf, p.itemId).value.category
    ensures p.abcClass == FirstWhere(data, ItemIdOf, p.itemId).value.abcClass
  {
    var sorted := ChronologicalOrder(data);
    var grouped := GroupedPoints(data, sorted, FirstSeen(KeysOf(sorted, MonthOf)));
    assert p in multiset(StableSort(grouped, CompareMonths));
    assert p in grouped;
    GroupedPointsMembers(data, sorted, FirstSeen(KeysOf(sorted, MonthOf)));
    FirstSeenFacts(MonthItemIds(sorted, p.month));
    MonthItemIdsMembers(sorted, p.month, p.itemId);
    var r :| r in sorted && MonthAndItemOf(r) == (p.month, p.itemId);
    assert r in multiset(sorted);
    assert r in data;
    SumWherePermutation(sorted, data, MonthAndItemOf, (p.month, p.itemId), ClampedConsumptionOf);
    ClampedUsageNonNegative(data, (p.month, p.itemId));
  }

  lemma NoDuplicatesPrefix<K>(s: seq<K>)
    requires NoDuplicates(s) && s != []
    ensures NoDuplicates(s[..|s| - 1]) && s[|s| - 1] !in s[..|s| - 1]
  {
  }

  lemma {:induction false} MonthPointsCount(data: seq<InventoryRecord>, sorted: seq<InventoryRecord>, m: string,
                                            ids: seq<string>, k: (string, string))
    requires NoDuplicates(ids)
    ensures CountWhere(MonthPoints(data, sorted, m, ids), TrendKeyOf, k) ==
              if k.0 == m && k.1 in ids && FirstWhere(data, ItemIdOf, k.1).Some? then 1 else 0
  {
    if ids != [] {
      var init, id := ids[..|ids| - 1], ids[|ids| - 1];
      NoDuplicatesPrefix(ids);
      MonthPointsCount(data, sorted, m, init, k);
      var point := PointFor(data, sorted, m, id);
      CountWhereAppend(MonthPoints(data, sorted, m, init), point, TrendKeyOf, k);
      InitLast(ids);
      if point != [] {
        assert point == [point[0]] && TrendKeyOf(point[0]) == (m, id);
        assert point[..0] == [];
      }
    }
  }

  lemma {:induction false} GroupedPointsCount(data: seq<InventoryRecord>, sorted: seq<InventoryRecord>,
                                              months: seq<string>, k: (string, string))
    requires NoDuplicates(months)
    ensures CountWhere(GroupedPoints(data, sorted, months), TrendKeyOf, k) ==
              if k.0 in months && k.1 in MonthItemsOf(sorted, k.0) && FirstWhere(data, ItemIdOf, k.1).Some? then 1 else 0
  {
    if months != [] {
      var init, m := months[..|months| - 1], months[|months| - 1];
      NoDuplicatesPrefix(months);
      GroupedPointsCount(data, sorted, init, k);
      FirstSeenFacts(MonthItemIds(sorted, m));
      MonthPointsCount(data, sorted, m, MonthItemsOf(sorted, m), k);
      CountWhereAppend(GroupedPoints(data, sorted, init), MonthPoints(data, sorted, m, MonthItemsOf(sorted, m)), TrendKeyOf, k);
      InitLast(months);
    }
  }

  /** Exactly one point per month and item that some record has, and none for any other pair. */
  lemma ConsumptionTrendCount(data: seq<InventoryRecord>, m: string, id: string)
    ensures CountWhere(ConsumptionTrendsOf(data), TrendKeyOf, (m, id)) ==
              if exists r :: r in data && MonthAndItemOf(r) == (m, id) then 1 else 0
  {
    var sorted := ChronologicalOrder(data);
    var months := FirstSeen(KeysOf(sorted, MonthOf));
    var grouped := GroupedPoints(data, sorted, months);
    FirstSeenFacts(KeysOf(sorted, MonthOf));
    GroupedPointsCount(data, sorted, months, (m, id));
    CountWherePermutation(StableSort(grouped, CompareMonths), grouped, TrendKeyOf, (m, id));
    FirstSeenFacts(MonthItemIds(sorted, m));
    MonthItemIdsMembers(sorted, m, id);
    if exists r :: r in data && MonthAndItemOf(r) == (m, id) {
      var r :| r in data && MonthAndItemOf(r) == (m, id);
      InSortedCopy(data, r);
      MonthListed(sorted, r);
      assert FirstWhere(data, ItemIdOf, id).Some?;
    } else {
      forall r | r in sorted ensures MonthAndItemOf(r) != (m, id) {
        FromSortedCopy(data, r);
      }
    }
  }

  /** The month-and-item keys of item `id` in the months `months`. */
  function KeysOfItem(months: seq<string>, id: string): (ks: seq<(string, string)>)
    ensures |ks| == |months|
    ensures forall i :: 0 <= i < |ks| ==> ks[i] == (months[i], id)
  {
    seq(|months|, i requires 0 <= i < |months| => (months[i], id))
  }

  lemma {:induction false} MonthPointsItemSum(data: seq<InventoryRecord>, sorted: seq<InventoryRecord>, m: string,
                                              ids: seq<string>, id: string)
    requires NoDuplicates(ids)
    ensures SumWhere(MonthPoints(data, sorted, m, ids), TrendItemOf, id, TrendConsumptionOf) ==
              if id in ids && FirstWhere(data, ItemIdOf, id).Some? then MonthUsageOf(sorted, m, id) else 0.0
  {
    if ids != [] {
      var init, last := ids[..|ids| - 1], ids[|ids| - 1];
      NoDuplicatesPrefix(ids);
      MonthPointsItemSum(data, sorted, m, init, id);
      var point := PointFor(data, sorted, m, last);
      SumWhereAppend(MonthPoints(data, sorted, m, init), point, TrendItemOf, id, TrendConsumptionOf);
      InitLast(ids);
      if point != [] {
        assert point[..0] == [];
      }
    }
  }

  lemma {:induction false} GroupedPointsItemSum(data: seq<InventoryRecord>, sorted: seq<InventoryRecord>,
                                                months: seq<string>, id: string)
    requires FirstWhere(data, ItemIdOf, id).Some?
    ensures SumWhere(GroupedPoints(data, sorted, months), TrendItemOf, id, TrendConsumptionOf) ==
              SumOverKeys(sorted, MonthAndItemOf, KeysOfItem(months, id), ClampedConsumptionOf)
  {
    if months != [] {
      var init, m := months[..|months| - 1], months[|months| - 1];
      var ids := MonthItemsOf(sorted, m);
      GroupedPointsItemSum(data, sorted, init, id);
      FirstSeenFacts(MonthItemIds(sorted, m));
      MonthPointsItemSum(data, sorted, m, ids, id);
      SumWhereAppend(GroupedPoints(data, sorted, init), MonthPoints(data, sorted, m, ids), TrendItemOf, id, TrendConsumptionOf);
      assert KeysOfItem(months, id)[..|months| - 1] == KeysOfItem(init, id);
      if id !in ids {
        MonthItemIdsMembers(sorted, m, id);
        SumWhereAbsent(sorted, MonthAndItemOf, (m, id), ClampedConsumptionOf);
      }
    }
  }

  /** Over months that include every record's month, the keys of item `id` are the keys of
      exactly that item's records. */
  lemma KeysOfItemMatch(s: seq<InventoryRecord>, months: seq<string>, id: string)
    requires NoDuplicates(months)
    requires forall x | x in s :: MonthOf(x) in months
    ensures NoDuplicates(KeysOfItem(months, id))
    ensures forall x | x in s :: MonthAndItemOf(x) in KeysOfItem(months, id) <==> ItemIdOf(x) == id
  {
    var ks := KeysOfItem(months, id);
    forall x | x in s && ItemIdOf(x) == id ensures MonthAndItemOf(x) in ks {
      var i :| 0 <= i < |months| && months[i] == MonthOf(x);
      assert ks[i] == MonthAndItemOf(x);
    }
  }

  lemma GroupedPointsPerItem(data: seq<InventoryRecord>, id: string)
    requires FirstWhere(data, ItemIdOf, id).Some?
    ensures var sorted := ChronologicalOrder(data);
            SumWhere(GroupedPoints(data, sorted, FirstSeen(KeysOf(sorted, MonthOf))), TrendItemOf, id, TrendConsumptionOf)
            == SumWhere(sorted, ItemIdOf, id, ClampedConsumptionOf)
  {
    var sorted := ChronologicalOrder(data);
    var months := FirstSeen(KeysOf(sorted, MonthOf));
    GroupedPointsItemSum(data, sorted, months, id);
    FirstSeenFacts(KeysOf(sorted, MonthOf));
    forall x | x in sorted ensures MonthOf(x) in months {
      MonthListed(sorted, x);
    }
    KeysOfItemMatch(sorted, months, id);
    SumOverKeysIsSumWhere(sorted, MonthAndItemOf, KeysOfItem(months, id), ClampedConsumptionOf, ItemIdOf, id);
  }

  /** Each item's points add up to the item's clamped consumption over all its records: the
      grouping by month neither loses nor double-counts any consumption. */
  lemma ConsumptionTrendsPerItem(data: seq<InventoryRecord>, id: string)
    ensures SumWhere(ConsumptionTrendsOf(data), TrendItemOf, id, TrendConsumptionOf) ==
              SumWhere(data, ItemIdOf, id, ClampedConsumptionOf)
  {
    var sorted := ChronologicalOrder(data);
    var grouped := GroupedPoints(data, sorted, FirstSeen(KeysOf(sorted, MonthOf)));
    SumWherePermutation(StableSort(grouped, CompareMonths), grouped, TrendItemOf, id, TrendConsumptionOf);
    if FirstWhere(data, ItemIdOf, id).Some? {
      ChronologicalOrderSorted(data);
      SumWherePermutation(sorted, data, ItemIdOf, id, ClampedConsumptionOf);
      GroupedPointsPerItem(data, id);
    } else {
      GroupedPointsMembers(data, sorted, FirstSeen(KeysOf(sorted, MonthOf)));
      SumWhereAbsent(grouped, TrendItemOf, id, TrendConsumptionOf);
      SumWhereAbsent(data, ItemIdOf, id, ClampedConsumptionOf);
    }
  }

  lemma InSortedCopy(data: seq<InventoryRecord>, r: InventoryRecord)
    requires r in data
    ensures r in ChronologicalOrder(data)
  {
    ChronologicalOrderSorted(data);
    assert r in multiset(data);
  }

  lemma FromSortedCopy(data: seq<InventoryRecord>, r: InventoryRecord)
    requires r in ChronologicalOrder(data)
    ensures r in data
  {
    ChronologicalOrderSorted(data);
    assert r in multiset(ChronologicalOrder(data));
  }

  lemma MonthListed(sorted: seq<InventoryRecord>, r: InventoryRecord)
    requires r in sorted
    ensures MonthOf(r) in FirstSeen(KeysOf(sorted, MonthOf))
  {
    FirstSeenFacts(KeysOf(sorted, MonthOf));
    var k :| 0 <= k < |sorted| && sorted[k] == r;
    assert KeysOf(sorted, MonthOf)[k] == MonthOf(r);
  }


  /** A stand-in point of month `m`, the key the month's ties are taken against. */
  function MonthMarker(m: string): ConsumptionTrend
  {
    ConsumptionTrend("", "", "", m, 0.0)
  }

  lemma TiesWithSingle(p: ConsumptionTrend, t: ConsumptionTrend)
    ensures TiesWith([p], t, CompareMonths) == if p.month == t.month then [p] else []
  {
    assert [p][1..] == [];
  }

  lemma {:induction false} MonthPointsTies(data: seq<InventoryRecord>, sorted: seq<InventoryRecord>, m: string,
                                           ids: seq<string>, t: ConsumptionTrend)
    ensures TiesWith(MonthPoints(data, sorted, m, ids), t, CompareMonths) ==
              if m == t.month then MonthPoints(data, sorted, m, ids) else []
  {
    if ids != [] {
      var init, id := ids[..|ids| - 1], ids[|ids| - 1];
      MonthPointsTies(data, sorted, m, init, t);
      var point := PointFor(data, sorted, m, id);
      TiesWithAppend(MonthPoints(data, sorted, m, init), point, t, CompareMonths);
      if point != [] {
        assert point == [point[0]];
        TiesWithSingle(point[0], t);
      }
    }
  }

  lemma {:induction false} GroupedPointsTies(data: seq<InventoryRecord>, sorted: seq<InventoryRecord>,
                                             months: seq<string>, t: ConsumptionTrend)
    requires NoDuplicates(months)
    ensures TiesWith(GroupedPoints(data, sorted, months), t, CompareMonths) ==
              if t.month in months then MonthPoints(data, sorted, t.month, MonthItemsOf(sorted, t.month)) else []
  {
    if months != [] {
      var init, m := months[..|months| - 1], months[|months| - 1];
      NoDuplicatesPrefix(months);
      GroupedPointsTies(data, sorted, init, t);
      MonthPointsTies(data, sorted, m, MonthItemsOf(sorted, m), t);
      var a, b := GroupedPoints(data, sorted, init), MonthPoints(data, sorted, m, MonthItemsOf(sorted, m));
      assert GroupedPoints(data, sorted, months) == a + b;
      TiesWithAppend(a, b, t, CompareMonths);
      if m == t.month {
        assert t.month !in init;
        assert [] + b == b;
      } else {
        assert t.month in months <==> t.month in init;
        assert TiesWith(a, t, CompareMonths) + [] == TiesWith(a, t, CompareMonths);
      }
    }
  }

  /** Within a month the sort keeps the map's order: the month's points are listed by the
      first record of each item in that month, in chronological order. */
  lemma ConsumptionTrendsWithinMonth(data: seq<InventoryRecord>, m: string)
    ensures var sorted := ChronologicalOrder(data);
            TiesWith(ConsumptionTrendsOf(data), MonthMarker(m), CompareMonths)
              == MonthPoints(data, sorted, m, MonthItemsOf(sorted, m))
  {
    var sorted := ChronologicalOrder(data);
    var months := FirstSeen(KeysOf(sorted, MonthOf));
    FirstSeenFacts(KeysOf(sorted, MonthOf));
    CompareMonthsIsTotalPreorder();
    SortStable(GroupedPoints(data, sorted, months), MonthMarker(m), CompareMonths);
    GroupedPointsTies(data, sorted, months, MonthMarker(m));
    if m !in months {
      MonthAbsent(sorted, m);
    }
  }


  // ----- Category metrics ----------------------------------------------------------------

  /** The totals of category `c` over `data`, accumulated record by record. */
  function CategoryMetricOf(data: seq<InventoryRecord>, c: string): (m: CategoryMetric)
    ensures m.category == c
  {
    if data == [] then CategoryMetric(c, 0, 0.0, 0.0)
    else
      var m := CategoryMetricOf(data[..|data| - 1], c);
      var x := data[|data| - 1];
      if x.category == c then
        m.(totalItems := m.totalItems + 1,
           stockValue := m.stockValue + x.closingStock * x.unitPrice,
           consumptionRate := m.consumptionRate + x.consumption)
      else m
  }

  /** The metric of a category counts its records and sums their stock value and consumption. */
  lemma {:induction false} CategoryMetricTotals(data: seq<InventoryRecord>, c: string)
    ensures CategoryMetricOf(data, c) ==
              CategoryMetric(c, CountWhere(data, CategoryOf, c),
                             SumWhere(data, CategoryOf, c, StockValueOf),
                             SumWhere(data, CategoryOf, c, ConsumptionOf))
  {
    if data != [] {
      CategoryMetricTotals(data[..|data| - 1], c);
    }
  }

  function CategoryMetricsFor(data: seq<InventoryRecord>, cats: seq<string>): (r: seq<CategoryMetric>)
    ensures |r| == |cats|
    ensures forall i :: 0 <= i < |cats| ==> r[i] == CategoryMetricOf(data, cats[i])
  {
    if cats == [] then []
    else CategoryMetricsFor(data, cats[..|cats| - 1]) + [CategoryMetricOf(data, cats[|cats| - 1])]
  }

  /** One metric per distinct category, in order of first appearance in `data`. */
  function CategoryMetricsOf(data: seq<InventoryRecord>): seq<CategoryMetric>
  {
    CategoryMetricsFor(data, FirstSeen(KeysOf(data, CategoryOf)))
  }

  /** The loop state of `CalculateCategoryMetrics` after the records `s`: `order` lists the
      keys of `stats` in insertion order and each entry holds its category's totals. */
  ghost predicate CategoryStatsOf(s: seq<InventoryRecord>, order: seq<string>, stats: map<string, CategoryMetric>)
  {
    && order == FirstSeen(KeysOf(s, CategoryOf))
    && (forall c :: c in stats <==> c in order)
    && (forall c | c in stats :: stats[c] == CategoryMetricOf(s, c))
  }

  /** A category none of the records has is all zero. */
  lemma {:induction false} CategoryMetricAbsent(s: seq<InventoryRecord>, c: string)
    requires c !in FirstSeen(KeysOf(s, CategoryOf))
    ensures CategoryMetricOf(s, c) == CategoryMetric(c, 0, 0.0, 0.0)
  {
    FirstSeenFacts(KeysOf(s, CategoryOf));
    CategoryMetricAbsentFrom(s, c);
  }

  lemma {:induction false} CategoryMetricAbsentFrom(s: seq<InventoryRecord>, c: string)
    requires c !in KeysOf(s, CategoryOf)
    ensures CategoryMetricOf(s, c) == CategoryMetric(c, 0, 0.0, 0.0)
  {
    if s != [] {
      assert KeysOf(s, CategoryOf)[|s| - 1] == s[|s| - 1].category;
      assert KeysOf(s[..|s| - 1], CategoryOf) == KeysOf(s, CategoryOf)[..|s| - 1];
      CategoryMetricAbsentFrom(s[..|s| - 1], c);
    }
  }

  lemma CategoryMetricAppend(s: seq<InventoryRecord>, x: InventoryRecord)
    ensures var m := CategoryMetricOf(s, x.category);
            CategoryMetricOf(s + [x], x.category) ==
              m.(totalItems := m.totalItems + 1,
                 stockValue := m.stockValue + x.closingStock * x.unitPrice,
                 consumptionRate := m.consumptionRate + x.consumption)
  {
    assert (s + [x])[..|s|] == s;
  }

  lemma CategoryStatsStep(s: seq<InventoryRecord>, x: InventoryRecord, order: seq<string>,
                          stats: map<string, CategoryMetric>, order': seq<string>,
                          stats': map<string, CategoryMetric>)
    requires CategoryStatsOf(s, order, stats)
    requires order' == if x.category in stats then order else order + [x.category]
    requires stats' == stats[x.category := CategoryMetricOf(s + [x], x.category)]
    ensures CategoryStatsOf(s + [x], order', stats')
  {
    FirstSeenKeysStep(s, x, CategoryOf);
    forall c | c in stats' ensures stats'[c] == CategoryMetricOf(s + [x], c) {
      assert (s + [x])[..|s|] == s;
    }
  }

  /** One pass of the loop body: add the category with zero totals if it is new, then
      add the record to its totals. */
  lemma CategoryRecordStep(s: seq<InventoryRecord>, x: InventoryRecord, order: seq<string>,
                           stats: map<string, CategoryMetric>, order1: seq<string>,
                           stats1: map<string, CategoryMetric>, stats': map<string, CategoryMetric>)
    requires CategoryStatsOf(s, order, stats)
    requires x.category in stats ==> order1 == order && stats1 == stats
    requires x.category !in stats ==>
               order1 == order + [x.category] && stats1 == stats[x.category := CategoryMetric(x.category, 0, 0.0, 0.0)]
    requires x.category in stats1
    requires stats' == stats1[x.category := stats1[x.category].(
               totalItems := stats1[x.category].totalItems + 1,
               stockValue := stats1[x.category].stockValue + x.closingStock * x.unitPrice,
               consumptionRate := stats1[x.category].consumptionRate + x.consumption)]
    ensures CategoryStatsOf(s + [x], order1, stats')
  {
    var c := x.category;
    if c !in stats {
      CategoryMetricAbsent(s, c);
    }
    assert stats1[c] == CategoryMetricOf(s, c);
    CategoryMetricAppend(s, x);
    var v := CategoryMetricOf(s + [x], c);
    assert stats' == stats1[c := v];
    if c !in stats {
      MapOverwrite(stats, c, CategoryMetric(c, 0, 0.0, 0.0), v);
    }
    CategoryStatsStep(s, x, order, stats, order1, stats');
  }

  /** Groups the records by category in an insertion-ordered map and lists its values. */
  method CalculateCategoryMetrics(stockData: seq<InventoryRecord>) returns (metrics: seq<CategoryMetric>)
    ensures metrics == CategoryMetricsOf(stockData)
  {
    var categoryStats: map<string, CategoryMetric> := map[];
    var order: seq<string> := [];  // the key order of `categoryStats`
    for i := 0 to |stockData|
      invariant CategoryStatsOf(stockData[..i], order, categoryStats)
    {
      var record := stockData[i];
      ghost var order0, stats0 := order, categoryStats;
      if record.category !in categoryStats {
        categoryStats := categoryStats[record.category := CategoryMetric(record.category, 0, 0.0, 0.0)];
        order := order + [record.category];
      }
      ghost var stats1 := categoryStats;
      var stats := categoryStats[record.category];
      categoryStats := categoryStats[record.category := stats.(
        totalItems := stats.totalItems + 1,
        stockValue := stats.stockValue + record.closingStock * record.unitPrice,
        consumptionRate := stats.consumptionRate + record.consumption)];
      CategoryRecordStep(stockData[..i], record, order0, stats0, order, stats1, categoryStats);
      PrefixStep(stockData, i);
    }
    metrics := seq(|order|, j requires 0 <= j < |order| => categoryStats[order[j]]);
    CategoryStatsValues(stockData, order, categoryStats, metrics);
  }

  /** Listing the map's values in key order gives the category metrics. */
  lemma CategoryStatsValues(data: seq<InventoryRecord>, order: seq<string>,
                            stats: map<string, CategoryMetric>, metrics: seq<CategoryMetric>)
    requires CategoryStatsOf(data[..|data|], order, stats)
    requires |metrics| == |order|
    requires forall j :: 0 <= j < |order| ==> order[j] in stats && metrics[j] == stats[order[j]]
    ensures metrics == CategoryMetricsOf(data)
  {
    assert data[..|data|] == data;
  }

  function ItemCountOf(m: CategoryMetric): real { m.totalItems as real }
  function MetricStockValueOf(m: CategoryMetric): real { m.stockValue }
  function MetricConsumptionOf(m: CategoryMetric): real { m.consumptionRate }

  lemma {:induction false} CategoryMetricsForSums(data: seq<InventoryRecord>, cats: seq<string>)
    ensures Sum(CategoryMetricsFor(data, cats), ItemCountOf) == CountOverKeys(data, CategoryOf, cats) as real
    ensures Sum(CategoryMetricsFor(data, cats), MetricStockValueOf) == SumOverKeys(data, CategoryOf, cats, StockValueOf)
    ensures Sum(CategoryMetricsFor(data, cats), MetricConsumptionOf) == SumOverKeys(data, CategoryOf, cats, ConsumptionOf)
  {
    if cats != [] {
      var r := CategoryMetricsFor(data, cats);
      CategoryMetricsForSums(data, cats[..|cats| - 1]);
      CategoryMetricTotals(data, cats[|cats| - 1]);
      assert r[..|r| - 1] == CategoryMetricsFor(data, cats[..|cats| - 1]);
    }
  }

  /** The category totals partition the records: item counts add up to the number of
      records, stock values and consumptions to their totals over all records. */
  lemma CategoryMetricsAddUp(data: seq<InventoryRecord>)
    ensures Sum(CategoryMetricsOf(data), ItemCountOf) == |data| as real
    ensures Sum(CategoryMetricsOf(data), MetricStockValueOf) == Sum(data, StockValueOf)
    ensures Sum(CategoryMetricsOf(data), MetricConsumptionOf) == Sum(data, ConsumptionOf)
  {
    CategoryMetricsForSums(data, FirstSeen(KeysOf(data, CategoryOf)));
    PartitionCount(data, CategoryOf);
    PartitionSum(data, CategoryOf, StockValueOf);
    PartitionSum(data, CategoryOf, ConsumptionOf);
  }

  /** Each category of the data has exactly one metric, counting at least one record. */
  lemma CategoryMetricsOnePerCategory(data: seq<InventoryRecord>)
    ensures var m := CategoryMetricsOf(data);
            && (forall i, j :: 0 <= i < j < |m| ==> m[i].category != m[j].category)
            && (forall r :: r in data ==> exists i :: 0 <= i < |m| && m[i].category == r.category)
            && (forall i :: 0 <= i < |m| ==> m[i].totalItems >= 1)
  {
    FirstSeenFacts(KeysOf(data, CategoryOf));
    var m := CategoryMetricsOf(data);
    forall r | r in data ensures exists i :: 0 <= i < |m| && m[i].category == r.category {
      RecordHasMetric(data, r);
    }
    forall i | 0 <= i < |m| ensures m[i].totalItems >= 1 {
      MetricHasRecord(data, i);
    }
  }

  lemma RecordHasMetric(data: seq<InventoryRecord>, r: InventoryRecord)
    requires r in data
    ensures exists i :: 0 <= i < |CategoryMetricsOf(data)| && CategoryMetricsOf(data)[i].category == r.category
  {
    var keys := KeysOf(data, CategoryOf);
    var cats := FirstSeen(keys);
    FirstSeenFacts(keys);
    var k :| 0 <= k < |data| && data[k] == r;
    assert keys[k] == r.category;
    var i := FirstIndex(cats, r.category);
    assert CategoryMetricsOf(data)[i].category == r.category;
  }

  lemma MetricHasRecord(data: seq<InventoryRecord>, i: nat)
    requires i < |CategoryMetricsOf(data)|
    ensures CategoryMetricsOf(data)[i].totalItems >= 1
  {
    var keys := KeysOf(data, CategoryOf);
    var cats := FirstSeen(keys);
    FirstSeenFacts(keys);
    assert cats[i] in keys;
    var k :| 0 <= k < |data| && keys[k] == cats[i];
    assert data[k] in data && CategoryOf(data[k]) == cats[i];
    CategoryMetricTotals(data, cats[i]);
  }

  // ----- Inventory turnover per item -----------------------------------------------------

  /** The opening and closing stock of one record. */
  datatype StockPair = StockPair(opening: real, closing: real)

  /** What the service gathers per item: total consumption, the stock pair of every record,
      and the names of the first record seen. */
  datatype ItemTotals = ItemTotals(
    totalConsumption: real,
    stockValues: seq<StockPair>,
    itemName: string,
    category: string,
    abcClass: string)

  function StockPairOf(r: InventoryRecord): StockPair { StockPair(r.openingStock, r.closingStock) }
  function PairAverage(p: StockPair): real { CalculateAverageStock(p.opening, p.closing) }

  /** The totals of item `id` over `s`, gathered record by record: `None` before its first
      record, which sets the names; later records add their consumption and stock pair. */
  function ItemTotalsOf(s: seq<InventoryRecord>, id: string): Option<ItemTotals>
  {
    if s == [] then None
    else
      var t := ItemTotalsOf(s[..|s| - 1], id);
      var x := s[|s| - 1];
      if x.itemId != id then t
      else if t.None? then Some(ItemTotals(x.consumption, [StockPairOf(x)], x.itemName, x.category, x.abcClass))
      else Some(t.value.(totalConsumption := t.value.totalConsumption + x.consumption,
                         stockValues := t.value.stockValues + [StockPairOf(x)]))
  }

  /** The first record of an item starts its totals. */
  lemma ItemTotalsFirst(s: seq<InventoryRecord>, x: InventoryRecord)
    requires ItemTotalsOf(s, x.itemId).None?
    ensures ItemTotalsOf(s + [x], x.itemId) ==
              Some(ItemTotals(x.consumption, [StockPairOf(x)], x.itemName, x.category, x.abcClass))
  {
    assert (s + [x])[..|s|] == s;
  }

  /** A later record of an item adds its consumption and stock pair. */
  lemma ItemTotalsNext(s: seq<InventoryRecord>, x: InventoryRecord, t: ItemTotals)
    requires ItemTotalsOf(s, x.itemId) == Some(t)
    ensures ItemTotalsOf(s + [x], x.itemId) ==
              Some(t.(totalConsumption := t.totalConsumption + x.consumption,
                      stockValues := t.stockValues + [StockPairOf(x)]))
  {
    assert (s + [x])[..|s|] == s;
  }

  function StockPairsOf(s: seq<InventoryRecord>, id: string): seq<StockPair>
  {
    if s == [] then []
    else StockPairsOf(s[..|s| - 1], id) + (if s[|s| - 1].itemId == id then [StockPairOf(s[|s| - 1])] else [])
  }

  /** The gathered totals are the keyed sum of consumption and the stock pairs of the
      item's records, with the names of its first record. */
  lemma {:induction false} ItemTotalsAreSums(s: seq<InventoryRecord>, id: string)
    ensures ItemTotalsOf(s, id) ==
              match FirstWhere(s, ItemIdOf, id)
              case None => None
              case Some(first) =>
                Some(ItemTotals(SumWhere(s, ItemIdOf, id, ConsumptionOf), StockPairsOf(s, id),
                                first.itemName, first.category, first.abcClass))
  {
    if s != [] {
      var init, x := s[..|s| - 1], s[|s| - 1];
      InitLast(s);
      ItemTotalsAreSums(init, id);
      FirstWhereAppend(init, x, ItemIdOf, id);
      var pairs := StockPairsOf(init, id);
      var f := FirstWhere(init, ItemIdOf, id);
      if x.itemId != id {
        assert StockPairsOf(s, id) == pairs + [] == pairs;
        assert SumWhere(s, ItemIdOf, id, ConsumptionOf) == SumWhere(init, ItemIdOf, id, ConsumptionOf) + 0.0;
        assert ItemTotalsOf(s, id) == ItemTotalsOf(init, id);
      } else if f.None? {
        SumWhereAbsent(init, ItemIdOf, id, ConsumptionOf);
        StockPairsAbsent(init, id);
        assert StockPairsOf(s, id) == [] + [StockPairOf(x)] == [StockPairOf(x)];
        assert SumWhere(s, ItemIdOf, id, ConsumptionOf) == 0.0 + x.consumption;
        assert ItemTotalsOf(s, id) == Some(ItemTotals(x.consumption, [StockPairOf(x)], x.itemName, x.category, x.abcClass));
      } else {
        assert StockPairsOf(s, id) == pairs + [StockPairOf(x)];
        assert SumWhere(s, ItemIdOf, id, ConsumptionOf) == SumWhere(init, ItemIdOf, id, ConsumptionOf) + x.consumption;
      }
    }
  }

  /** The stock pairs of an item: one per record, averaging to its keyed sum of averages. */
  lemma {:induction false} StockPairsSums(s: seq<InventoryRecord>, id: string)
    ensures |StockPairsOf(s, id)| == CountWhere(s, ItemIdOf, id)
    ensures Sum(StockPairsOf(s, id), PairAverage) == SumWhere(s, ItemIdOf, id, AverageStockOf)
  {
    if s != [] {
      var init, x := s[..|s| - 1], s[|s| - 1];
      StockPairsSums(init, id);
      var p := StockPairsOf(init, id);
      if x.itemId == id {
        assert (p + [StockPairOf(x)])[..|p|] == p;
      } else {
        assert StockPairsOf(s, id) == p;
      }
    }
  }

  lemma {:induction false} StockPairsAbsent(s: seq<InventoryRecord>, id: string)
    requires forall x :: x in s ==> x.itemId != id
    ensures StockPairsOf(s, id) == []
  {
    if s != [] {
      StockPairsAbsent(s[..|s| - 1], id);
    }
  }

  /** An item none of the records has gathers nothing. */
  lemma ItemTotalsAbsent(s: seq<InventoryRecord>, id: string)
    requires id !in FirstSeen(KeysOf(s, ItemIdOf))
    ensures ItemTotalsOf(s, id).None?
  {
    FirstSeenFacts(KeysOf(s, ItemIdOf));
    ItemTotalsAreSums(s, id);
  }

  /** The per-item metric computed from gathered totals. */
  function FinalizeITR(itemId: string, t: ItemTotals): ITRMetric
  {
    var n := |t.stockValues|;
    var totalStockValues := Sum(t.stockValues, PairAverage);
    var averageInventory := if n > 0 then totalStockValues / n as real else 0.0;
    var itr := CalculateITR(t.totalConsumption, averageInventory);
    ITRMetric(itemId, t.itemName, t.category, t.abcClass, Num(itr), Num(averageInventory),
              Num(t.totalConsumption / (if n != 0 then n else 1) as real), n)
  }

  /** Every item of `s` has gathered totals. */
  lemma ItemTotalsPresent(s: seq<InventoryRecord>)
    ensures forall id | id in FirstSeen(KeysOf(s, ItemIdOf)) :: ItemTotalsOf(s, id).Some?
  {
    FirstSeenFacts(KeysOf(s, ItemIdOf));
    forall id | id in FirstSeen(KeysOf(s, ItemIdOf)) ensures ItemTotalsOf(s, id).Some? {
      var k :| 0 <= k < |s| && KeysOf(s, ItemIdOf)[k] == id;
      assert s[k] in s && ItemIdOf(s[k]) == id;
      ItemTotalsAreSums(s, id);
    }
  }

  /** One metric per item, in order of the item's first record in the chronological copy. */
  function ITRMetricsOf(data: seq<InventoryRecord>): (ms: seq<ITRMetric>)
    ensures var ids := FirstSeen(KeysOf(ChronologicalOrder(data), ItemIdOf));
            |ms| == |ids| && forall i :: 0 <= i < |ids| ==> ms[i].itemId == ids[i]
  {
    var sorted := ChronologicalOrder(data);
    var ids := FirstSeen(KeysOf(sorted, ItemIdOf));
    ItemTotalsPresent(sorted);
    seq(|ids|, j requires 0 <= j < |ids| => FinalizeITR(ids[j], ItemTotalsOf(sorted, ids[j]).value))
  }

  /** The loop state of `CalculateITRMetrics` after the records `s`. */
  ghost predicate ItemDataOf(s: seq<InventoryRecord>, order: seq<string>, itemData: map<string, ItemTotals>)
  {
    && order == FirstSeen(KeysOf(s, ItemIdOf))
    && (forall id :: id in itemData <==> id in order)
    && (forall id | id in itemData :: ItemTotalsOf(s, id) == Some(itemData[id]))
  }

  lemma ItemDataStep(s: seq<InventoryRecord>, x: InventoryRecord, order: seq<string>,
                     itemData: map<string, ItemTotals>, order': seq<string>,
                     itemData': map<string, ItemTotals>)
    requires ItemDataOf(s, order, itemData)
    requires order' == if x.itemId in itemData then order else order + [x.itemId]
    requires ItemTotalsOf(s + [x], x.itemId).Some?
    requires itemData' == itemData[x.itemId := ItemTotalsOf(s + [x], x.itemId).value]
    ensures ItemDataOf(s + [x], order', itemData')
  {
    FirstSeenKeysStep(s, x, ItemIdOf);
    forall id | id in itemData' ensures ItemTotalsOf(s + [x], id) == Some(itemData'[id]) {
      assert (s + [x])[..|s|] == s;
    }
  }

  lemma ItemDataValues(data: seq<InventoryRecord>, sorted: seq<InventoryRecord>, order: seq<string>,
                       itemData: map<string, ItemTotals>, metrics: seq<ITRMetric>)
    requires sorted == ChronologicalOrder(data)
    requires ItemDataOf(sorted[..|sorted|], order, itemData)
    requires |metrics| == |order|
    requires forall j :: 0 <= j < |order| ==> order[j] in itemData && metrics[j] == FinalizeITR(order[j], itemData[order[j]])
    ensures metrics == ITRMetricsOf(data)
  {
    assert sorted[..|sorted|] == sorted;
  }

  /** Sorts a copy chronologically, gathers per-item totals in an insertion-ordered map,
      then turns each entry into a metric. */
  method CalculateITRMetrics(stockData: seq<InventoryRecord>) returns (metrics: seq<ITRMetric>)
    ensures metrics == ITRMetricsOf(stockData)
  {
    var itemData: map<string, ItemTotals> := map[];
    var order: seq<string> := [];  // the key order of `itemData`
    var sortedData := ChronologicalOrder(stockData);
    for i := 0 to |sortedData|
      invariant ItemDataOf(sortedData[..i], order, itemData)
    {
      var record := sortedData[i];
      ghost var order0, itemData0 := order, itemData;
      if record.itemId !in itemData {
        itemData := itemData[record.itemId := ItemTotals(record.consumption,
                                                         [StockPair(record.openingStock, record.closingStock)],
                                                         record.itemName, record.category, record.abcClass)];
        order := order + [record.itemId];
        ItemTotalsAbsent(sortedData[..i], record.itemId);
        ItemTotalsFirst(sortedData[..i], record);
      } else {
        var current := itemData[record.itemId];
        itemData := itemData[record.itemId := current.(
          totalConsumption := current.totalConsumption + record.consumption,
          stockValues := current.stockValues + [StockPair(record.openingStock, record.closingStock)])];
        ItemTotalsNext(sortedData[..i], record, current);
      }
      ItemDataStep(sortedData[..i], record, order0, itemData0, order, itemData);
      PrefixStep(sortedData, i);
    }
    metrics := seq(|order|, j requires 0 <= j < |order| => FinalizeITR(order[j], itemData[order[j]]));
    ItemDataValues(stockData, sortedData, order, itemData, metrics);
  }

  /** What each turnover metric states about its item's records: one data point per record,
      the mean of the daily average stocks, turnover against that mean (0 when it is 0),
      consumption per record, and the names of the item's earliest record. */
  lemma ITRMetricFacts(data: seq<InventoryRecord>, i: nat)
    requires i < |ITRMetricsOf(data)|
    ensures CountWhere(data, ItemIdOf, ITRMetricsOf(data)[i].itemId) >= 1
    ensures var m := ITRMetricsOf(data)[i];
            var n := CountWhere(data, ItemIdOf, m.itemId);
            var total := SumWhere(data, ItemIdOf, m.itemId, ConsumptionOf);
            var average := SumWhere(data, ItemIdOf, m.itemId, AverageStockOf) / n as real;
            var earliest := EarliestWhere(data, ItemIdOf, m.itemId, CompareDates);
            && m.dataPoints == n
            && m.averageInventory == Num(average)
            && m.itr == Num(if average == 0.0 then 0.0 else total / average)
            && m.monthlyConsumption == Num(total / n as real)
            && earliest.Some?
            && m.itemName == earliest.value.itemName
            && m.category == earliest.value.category
            && m.abcClass == earliest.value.abcClass
  {
    var sorted := ChronologicalOrder(data);
    var ids := FirstSeen(KeysOf(sorted, ItemIdOf));
    ItemTotalsPresent(sorted);
    var id := ids[i];
    assert ITRMetricsOf(data)[i] == FinalizeITR(id, ItemTotalsOf(sorted, id).value);
    ItemTotalsAreSums(sorted, id);
    StockPairsSums(sorted, id);
    CountWherePermutation(sorted, data, ItemIdOf, id);
    SumWherePermutation(sorted, data, ItemIdOf, id, ConsumptionOf);
    SumWherePermutation(sorted, data, ItemIdOf, id, AverageStockOf);
    CompareDatesIsTotalPreorder();
    SortFirstWhere(data, ItemIdOf, id, CompareDates);
  }

  /** One metric per item of the data, no item twice. */
  lemma ITRMetricsOnePerItem(data: seq<InventoryRecord>)
    ensures var ms := ITRMetricsOf(data);
            && (forall i, j :: 0 <= i < j < |ms| ==> ms[i].itemId != ms[j].itemId)
            && (forall r :: r in data ==> exists i :: 0 <= i < |ms| && ms[i].itemId == r.itemId)
  {
    var sorted := ChronologicalOrder(data);
    var ids := FirstSeen(KeysOf(sorted, ItemIdOf));
    FirstSeenFacts(KeysOf(sorted, ItemIdOf));
    var ms := ITRMetricsOf(data);
    forall r | r in data ensures exists i :: 0 <= i < |ms| && ms[i].itemId == r.itemId {
      assert r in multiset(data);
      assert r in sorted;
      var k :| 0 <= k < |sorted| && sorted[k] == r;
      assert KeysOf(sorted, ItemIdOf)[k] == r.itemId;
      assert r.itemId in KeysOf(sorted, ItemIdOf);
      assert r.itemId in ids;
      var i :| 0 <= i < |ids| && ids[i] == r.itemId;
      assert ms[i].itemId == r.itemId;
    }
  }

  /** The metrics are listed by the date of each item's earliest record. */
  lemma ITRMetricsByFirstDate(data: seq<InventoryRecord>, i: nat, j: nat)
    requires i < j < |ITRMetricsOf(data)|
    ensures var ms := ITRMetricsOf(data);
            var a := EarliestWhere(data, ItemIdOf, ms[i].itemId, CompareDates);
            var b := EarliestWhere(data, ItemIdOf, ms[j].itemId, CompareDates);
            a.Some? && b.Some? && StrCompare(a.value.date, b.value.date) <= 0
  {
    var sorted := ChronologicalOrder(data);
    var keys := KeysOf(sorted, ItemIdOf);
    var ids := FirstSeen(keys);
    FirstSeenOrder(keys, i, j);
    ITRMetricFirstRecord(data, i);
    ITRMetricFirstRecord(data, j);
    ChronologicalOrderSorted(data);
  }

  /** The earliest record of the item of metric `i` is the first record of that item in the
      chronological copy. */
  lemma ITRMetricFirstRecord(data: seq<InventoryRecord>, i: nat)
    requires i < |ITRMetricsOf(data)|
    ensures var keys := KeysOf(ChronologicalOrder(data), ItemIdOf);
            var id := ITRMetricsOf(data)[i].itemId;
            && id == FirstSeen(keys)[i] && id in keys
            && EarliestWhere(data, ItemIdOf, id, CompareDates)
               == Some(ChronologicalOrder(data)[FirstIndex(keys, id)])
  {
    var sorted := ChronologicalOrder(data);
    var keys := KeysOf(sorted, ItemIdOf);
    FirstSeenFacts(keys);
    var id := FirstSeen(keys)[i];
    var k := FirstIndex(keys, id);
    FirstWhereIsFirst(sorted, ItemIdOf, id, k);
    CompareDatesIsTotalPreorder();
    SortFirstWhere(data, ItemIdOf, id, CompareDates);
  }
}
