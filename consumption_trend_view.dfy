/** The consumption panel: filters the monthly consumption points, regroups them into one
    total per month, and derives the total, the monthly average, the latest month and the
    trend of the latest month against the average. */
module ConsumptionTrendView {
  import opened Common
  import opened Seqs
  import opened InventoryTypes
  import opened InventoryService

  /** The panel's filter fields; an empty field matches every point. */
  datatype TrendFilters = TrendFilters(category: string, abcClass: string, itemId: string)

  predicate MatchesFilters(item: ConsumptionTrend, filters: TrendFilters)
  {
    && (filters.category == "" || item.category == filters.category)
    && (filters.abcClass == "" || item.abcClass == filters.abcClass)
    && (filters.itemId == "" || item.itemId == filters.itemId)
  }

  function FilterData(data: seq<ConsumptionTrend>, filters: TrendFilters): seq<ConsumptionTrend>
  {
    FilterBy(data, item => MatchesFilters(item, filters))
  }

  /** The filter keeps exactly the matching points, in their order. */
  lemma FilterDataKeepsMatches(data: seq<ConsumptionTrend>, filters: TrendFilters)
    ensures forall x :: x in FilterData(data, filters) <==> x in data && MatchesFilters(x, filters)
    ensures IsSubsequence(FilterData(data, filters), data)
    ensures forall x | x in data :: multiset(FilterData(data, filters))[x] ==
              if MatchesFilters(x, filters) then multiset(data)[x] else 0
  {
    FilterIsSubsequence(data, item => MatchesFilters(item, filters));
    FilterByCounts(data, item => MatchesFilters(item, filters));
  }

  /** Filtering filtered data again with the same fields changes nothing. */
  lemma FilterDataIdempotent(data: seq<ConsumptionTrend>, filters: TrendFilters)
    ensures FilterData(FilterData(data, filters), filters) == FilterData(data, filters)
  {
    FilterIdempotent(data, item => MatchesFilters(item, filters));
  }

  /** Empty fields let every point through. */
  lemma EmptyFiltersKeepAll(data: seq<ConsumptionTrend>)
    ensures FilterData(data, TrendFilters("", "", "")) == data
  {
  }

  // ----- Grouping by month ---------------------------------------------------------------

  /** One bar of the chart. */
  datatype MonthTotal = MonthTotal(month: string, totalUsage: real)

  function TotalUsageOf(m: MonthTotal): real { m.totalUsage }

  /** The total of month `m` over the points `s`. */
  function MonthTotalOf(s: seq<ConsumptionTrend>, m: string): MonthTotal
  {
    MonthTotal(m, SumWhere(s, TrendMonthOf, m, TrendConsumptionOf))
  }

  function MonthTotalsFor(s: seq<ConsumptionTrend>, months: seq<string>): (r: seq<MonthTotal>)
    ensures |r| == |months|
    ensures forall i :: 0 <= i < |months| ==> r[i] == MonthTotalOf(s, months[i])
  {
    if months == [] then []
    else MonthTotalsFor(s, months[..|months| - 1]) + [MonthTotalOf(s, months[|months| - 1])]
  }

  /** `Object.values` of the accumulator: one total per month, in order of first appearance. */
  function MonthlyConsumptionOf(s: seq<ConsumptionTrend>): seq<MonthTotal>
  {
    MonthTotalsFor(s, FirstSeen(KeysOf(s, TrendMonthOf)))
  }

  /** The accumulator after the points `s`: `order` is its key order. */
  ghost predicate GroupStateOf(s: seq<ConsumptionTrend>, order: seq<string>, acc: map<string, MonthTotal>)
  {
    && order == FirstSeen(KeysOf(s, TrendMonthOf))
    && (forall m :: m in acc <==> m in order)
    && (forall m | m in acc :: acc[m] == MonthTotalOf(s, m))
  }

  lemma {:induction false} MonthTotalAbsentFrom(s: seq<ConsumptionTrend>, m: string)
    requires m !in KeysOf(s, TrendMonthOf)
    ensures MonthTotalOf(s, m) == MonthTotal(m, 0.0)
  {
    if s != [] {
      assert KeysOf(s, TrendMonthOf)[|s| - 1] == s[|s| - 1].month;
      assert KeysOf(s[..|s| - 1], TrendMonthOf) == KeysOf(s, TrendMonthOf)[..|s| - 1];
      MonthTotalAbsentFrom(s[..|s| - 1], m);
    }
  }

  /** A month with no points so far starts at 0. */
  lemma MonthTotalAbsent(s: seq<ConsumptionTrend>, m: string)
    requires m !in FirstSeen(KeysOf(s, TrendMonthOf))
    ensures MonthTotalOf(s, m) == MonthTotal(m, 0.0)
  {
    FirstSeenFacts(KeysOf(s, TrendMonthOf));
    MonthTotalAbsentFrom(s, m);
  }

  lemma GroupStateStep(s: seq<ConsumptionTrend>, x: ConsumptionTrend, order: seq<string>,
                       acc: map<string, MonthTotal>, order': seq<string>, acc': map<string, MonthTotal>)
    requires GroupStateOf(s, order, acc)
    requires order' == if x.month in acc then order else order + [x.month]
    requires acc' == acc[x.month := MonthTotalOf(s + [x], x.month)]
    ensures GroupStateOf(s + [x], order', acc')
  {
    FirstSeenKeysStep(s, x, TrendMonthOf);
    forall m | m in acc' ensures acc'[m] == MonthTotalOf(s + [x], m) {
      assert (s + [x])[..|s|] == s;
    }
  }

  lemma MonthTotalAppend(s: seq<ConsumptionTrend>, x: ConsumptionTrend)
    ensures MonthTotalOf(s + [x], x.month) == MonthTotal(x.month, MonthTotalOf(s, x.month).totalUsage + x.consumption)
  {
    assert (s + [x])[..|s|] == s;
  }

  lemma GroupStateValues(s: seq<ConsumptionTrend>, order: seq<string>, acc: map<string, MonthTotal>,
                         chartData: seq<MonthTotal>)
    requires GroupStateOf(s[..|s|], order, acc)
    requires |chartData| == |order|
    requires forall j :: 0 <= j < |order| ==> order[j] in acc && chartData[j] == acc[order[j]]
    ensures chartData == MonthlyConsumptionOf(s)
  {
    assert s[..|s|] == s;
  }

  /** One pass of the `reduce` callback: start the month at 0 if it is new, then add the
      point's consumption. */
  lemma GroupRecordStep(s: seq<ConsumptionTrend>, x: ConsumptionTrend, order: seq<string>,
                        acc: map<string, MonthTotal>, order1: seq<string>,
                        acc1: map<string, MonthTotal>, acc': map<string, MonthTotal>)
    requires GroupStateOf(s, order, acc)
    requires x.month in acc ==> order1 == order && acc1 == acc
    requires x.month !in acc ==>
               order1 == order + [x.month] && acc1 == acc[x.month := MonthTotal(x.month, 0.0)]
    requires x.month in acc1
    requires acc' == acc1[x.month := acc1[x.month].(totalUsage := acc1[x.month].totalUsage + x.consumption)]
    ensures GroupStateOf(s + [x], order1, acc')
  {
    var m := x.month;
    if m !in acc {
      MonthTotalAbsent(s, m);
    }
    assert acc1[m] == MonthTotalOf(s, m);
    MonthTotalAppend(s, x);
    var v := MonthTotalOf(s + [x], m);
    assert acc' == acc1[m := v];
    if m !in acc {
      MapOverwrite(acc, m, MonthTotal(m, 0.0), v);
    }
    GroupStateStep(s, x, order, acc, order1, acc');
  }

  /** The `reduce` into an object keyed by month, followed by `Object.values`. */
  method GroupByMonth(filteredData: seq<ConsumptionTrend>) returns (chartData: seq<MonthTotal>)
    ensures chartData == MonthlyConsumptionOf(filteredData)
  {
    var acc: map<string, MonthTotal> := map[];
    var order: seq<string> := [];  // the key order of `acc`
    for i := 0 to |filteredData|
      invariant GroupStateOf(filteredData[..i], order, acc)
    {
      var record := filteredData[i];
      ghost var order0, acc0 := order, acc;
      if record.month !in acc {
        acc := acc[record.month := MonthTotal(record.month, 0.0)];
        order := order + [record.month];
      }
      ghost var acc1 := acc;
      acc := acc[record.month := acc[record.month].(totalUsage := acc[record.month].totalUsage + record.consumption)];
      GroupRecordStep(filteredData[..i], record, order0, acc0, order, acc1, acc);
      PrefixStep(filteredData, i);
    }
    chartData := seq(|order|, j requires 0 <= j < |order| => acc[order[j]]);
    GroupStateValues(filteredData, order, acc, chartData);
  }

  /** One bar per distinct month of the points, in order of first appearance, each holding
      the sum of its month's consumption. */
  lemma MonthlyConsumptionOnePerMonth(s: seq<ConsumptionTrend>)
    ensures var r := MonthlyConsumptionOf(s);
            && (forall i, j :: 0 <= i < j < |r| ==> r[i].month != r[j].month)
            && (forall x :: x in s ==> exists i :: 0 <= i < |r| && r[i].month == x.month)
            && (forall i :: 0 <= i < |r| ==> r[i].totalUsage == SumWhere(s, TrendMonthOf, r[i].month, TrendConsumptionOf))
  {
    var months := FirstSeen(KeysOf(s, TrendMonthOf));
    FirstSeenFacts(KeysOf(s, TrendMonthOf));
    var r := MonthlyConsumptionOf(s);
    assert |r| == |months|;
    forall i | 0 <= i < |r|
      ensures r[i].month == months[i]
      ensures r[i].totalUsage == SumWhere(s, TrendMonthOf, r[i].month, TrendConsumptionOf)
    {
      assert r[i] == MonthTotalOf(s, months[i]);
    }
    forall i, j | 0 <= i < j < |r| ensures r[i].month != r[j].month {
      assert months[i] != months[j];
    }
    forall x | x in s ensures exists i :: 0 <= i < |r| && r[i].month == x.month {
      var k :| 0 <= k < |s| && s[k] == x;
      assert KeysOf(s, TrendMonthOf)[k] == x.month;
      assert x.month in months;
      var i :| 0 <= i < |months| && months[i] == x.month;
      assert r[i].month == x.month;
    }
  }

  // ----- Summary figures -----------------------------------------------------------------

  /** The sum of the monthly totals. */
  function TotalConsumption(chartData: seq<MonthTotal>): real
  {
    Sum(chartData, TotalUsageOf)
  }

  lemma {:induction false} MonthTotalsForSum(s: seq<ConsumptionTrend>, months: seq<string>)
    ensures Sum(MonthTotalsFor(s, months), TotalUsageOf) == SumOverKeys(s, TrendMonthOf, months, TrendConsumptionOf)
  {
    if months != [] {
      var r := MonthTotalsFor(s, months);
      MonthTotalsForSum(s, months[..|months| - 1]);
      assert r[..|r| - 1] == MonthTotalsFor(s, months[..|months| - 1]);
    }
  }

  /** The total over the months is the consumption of all filtered points. */
  lemma TotalConsumptionIsSum(s: seq<ConsumptionTrend>)
    ensures TotalConsumption(MonthlyConsumptionOf(s)) == Sum(s, TrendConsumptionOf)
  {
    MonthTotalsForSum(s, FirstSeen(KeysOf(s, TrendMonthOf)));
    PartitionSum(s, TrendMonthOf, TrendConsumptionOf);
  }

  /** The mean monthly total, 0 without months. */
  function AverageMonthlyConsumption(chartData: seq<MonthTotal>): (avg: real)
    ensures chartData != [] ==> avg * |chartData| as real == TotalConsumption(chartData)
    ensures chartData == [] ==> avg == 0.0
  {
    if |chartData| > 0 then TotalConsumption(chartData) / |chartData| as real else 0.0
  }

  /** The last month's total, 0 without months. */
  function LatestMonthConsumption(chartData: seq<MonthTotal>): real
  {
    if chartData == [] then 0.0 else chartData[|chartData| - 1].totalUsage
  }

  /** The points are in month order, as the service emits them. */
  predicate ByMonth(s: seq<ConsumptionTrend>)
  {
    forall i, j :: 0 <= i < j < |s| ==> StrCompare(s[i].month, s[j].month) <= 0
  }

  /** Leaving points out keeps the rest in month order. */
  lemma {:induction false} FilterKeepsByMonth(s: seq<ConsumptionTrend>, p: ConsumptionTrend -> bool)
    requires ByMonth(s)
    ensures ByMonth(FilterBy(s, p))
  {
    if s != [] {
      var init, x := s[..|s| - 1], s[|s| - 1];
      forall i, j | 0 <= i < j < |init| ensures StrCompare(init[i].month, init[j].month) <= 0 {
        assert init[i] == s[i] && init[j] == s[j];
      }
      FilterKeepsByMonth(init, p);
      var r := FilterBy(init, p);
      if p(x) {
        forall i | 0 <= i < |r| ensures StrCompare(r[i].month, x.month) <= 0 {
          assert r[i] in init;
          var k :| 0 <= k < |init| && init[k] == r[i];
          assert s[k] == r[i];
        }
        AppendByMonth(r, x);
      }
    }
  }

  lemma AppendByMonth(r: seq<ConsumptionTrend>, x: ConsumptionTrend)
    requires ByMonth(r)
    requires forall i :: 0 <= i < |r| ==> StrCompare(r[i].month, x.month) <= 0
    ensures ByMonth(r + [x])
  {
    var t := r + [x];
    forall i, j | 0 <= i < j < |t| ensures StrCompare(t[i].month, t[j].month) <= 0 {
      if j < |r| { assert t[i] == r[i] && t[j] == r[j]; } else { assert t[i] == r[i] && t[j] == x; }
    }
  }

  /** On points in month order the last bar is the latest month: its total is the
      consumption of the month of the last point. */
  lemma LatestIsLastMonth(s: seq<ConsumptionTrend>)
    requires ByMonth(s)
    ensures LatestMonthConsumption(MonthlyConsumptionOf(s)) ==
              if s == [] then 0.0 else SumWhere(s, TrendMonthOf, s[|s| - 1].month, TrendConsumptionOf)
  {
    var keys := KeysOf(s, TrendMonthOf);
    if s != [] {
      forall i, j | 0 <= i < j < |keys| ensures StrCompare(keys[i], keys[j]) <= 0 {
        assert keys[i] == s[i].month && keys[j] == s[j].month;
      }
      LastOfSortedKeys(keys);
      FirstSeenFacts(keys);
    }
  }

  /** In keys sorted by string order the key seen first last is the last key. */
  lemma LastOfSortedKeys(keys: seq<string>)
    requires keys != []
    requires forall i, j :: 0 <= i < j < |keys| ==> StrCompare(keys[i], keys[j]) <= 0
    ensures FirstSeen(keys) != [] && FirstSeen(keys)[|FirstSeen(keys)| - 1] == keys[|keys| - 1]
  {
    var months := FirstSeen(keys);
    FirstSeenFacts(keys);
    var x := keys[|keys| - 1];
    assert x in months;
    var q :| 0 <= q < |months| && months[q] == x;
    var last := months[|months| - 1];
    if q < |months| - 1 {
      FirstSeenOrder(keys, q, |months| - 1);
      var a, b := FirstIndex(keys, x), FirstIndex(keys, last);
      assert StrCompare(keys[a], keys[b]) <= 0;
      assert StrCompare(keys[b], x) <= 0 by {
        if b < |keys| - 1 { }
      }
      StrCompareAntisymmetric(x, last);
      assert false;
    }
  }

  /** The latest month against the average, in percent; 0 when the average is not positive. */
  function Trend(latest: real, avg: real): (t: real)
    ensures avg <= 0.0 ==> t == 0.0
    ensures avg > 0.0 ==> t * avg == (latest - avg) * 100.0
    ensures avg > 0.0 ==> (t > 0.0 <==> latest > avg) && (t < 0.0 <==> latest < avg)
  {
    if avg > 0.0 then
      var t := ((latest - avg) / avg) * 100.0;
      TrendSign(latest, avg);
      t
    else
      0.0
  }

  lemma TrendSign(latest: real, avg: real)
    requires avg > 0.0
    ensures ((latest - avg) / avg) * 100.0 * avg == (latest - avg) * 100.0
    ensures ((latest - avg) / avg) * 100.0 > 0.0 <==> latest > avg
    ensures ((latest - avg) / avg) * 100.0 < 0.0 <==> latest < avg
  {
    var q := (latest - avg) / avg;
    assert q * avg == latest - avg;
  }

  /** The mean monthly total times the number of months is the consumption of all the
      filtered points. */
  lemma AverageOfPoints(s: seq<ConsumptionTrend>)
    requires s != []
    ensures var chart := MonthlyConsumptionOf(s);
            chart != [] && AverageMonthlyConsumption(chart) * |chart| as real == Sum(s, TrendConsumptionOf)
  {
    MonthlyConsumptionNonEmpty(s);
    TotalConsumptionIsSum(s);
    AverageTimesMonths(MonthlyConsumptionOf(s));
  }

  lemma MonthlyConsumptionNonEmpty(s: seq<ConsumptionTrend>)
    requires s != []
    ensures MonthlyConsumptionOf(s) != []
  {
    var months := FirstSeen(KeysOf(s, TrendMonthOf));
    FirstSeenFacts(KeysOf(s, TrendMonthOf));
    assert KeysOf(s, TrendMonthOf)[0] in months;
  }

  lemma AverageTimesMonths(chart: seq<MonthTotal>)
    requires chart != []
    ensures AverageMonthlyConsumption(chart) * |chart| as real == TotalConsumption(chart)
  {
  }
}
