/** The dashboard page: it holds the filter state, filters the MSL and consumption trends
    before handing them to their views, derives the choices of the filter panel, and picks
    the item the MSL view shows. */
module Dashboard {
  import opened Common
  import opened Seqs
  import opened InventoryTypes
  import opened FilterPanel
  import ConsumptionTrendView
  import InventoryTable
  import InventoryService

  /** The state the page starts with: every field empty and no date bounds. */
  const InitialFilters: FilterState := FilterState("", "", "", "", (None, None))

  // ----- MSL trend filter ----------------------------------------------------------------

  /** `a < b` on the time values of two dates; false when either is NaN. */
  predicate DateBefore(a: Number, b: Number)
  {
    a.Num? && b.Num? && a.value < b.value
  }

  /** The predicate of `data.mslTrends.filter(...)`. `parseDate` stands for `new Date(...)`
      applied to the trend's date string. */
  predicate MslTrendMatches(filters: FilterState, parseDate: string -> Number, trend: MSLTrend)
  {
    if filters.itemId != "" && trend.itemId != filters.itemId then false
    else if filters.dateRange.0.Some? || filters.dateRange.1.Some? then
      var date := parseDate(trend.date);
      if filters.dateRange.0.Some? && DateBefore(date, filters.dateRange.0.value) then false
      else if filters.dateRange.1.Some? && DateBefore(filters.dateRange.1.value, date) then false
      else true
    else true
  }

  function FilteredMslTrends(filters: FilterState, parseDate: string -> Number, trends: seq<MSLTrend>): seq<MSLTrend>
  {
    FilterBy(trends, t => MslTrendMatches(filters, parseDate, t))
  }

  /** A trend point is kept exactly when it belongs to the selected item (or none is
      selected) and its date lies within each bound that is set, both bounds inclusive. For
      valid dates this is `start <= date <= end`; a date that does not parse is never
      before or after a bound and so always passes the date test. */
  lemma MslTrendFilterSpec(filters: FilterState, parseDate: string -> Number, trends: seq<MSLTrend>)
    ensures forall t :: t in FilteredMslTrends(filters, parseDate, trends) <==>
      && t in trends
      && (filters.itemId == "" || t.itemId == filters.itemId)
      && (filters.dateRange.0.Some? ==> !DateBefore(parseDate(t.date), filters.dateRange.0.value))
      && (filters.dateRange.1.Some? ==> !DateBefore(filters.dateRange.1.value, parseDate(t.date)))
    ensures IsSubsequence(FilteredMslTrends(filters, parseDate, trends), trends)
    ensures forall t | t in trends :: multiset(FilteredMslTrends(filters, parseDate, trends))[t] ==
              if MslTrendMatches(filters, parseDate, t) then multiset(trends)[t] else 0
  {
    FilterIsSubsequence(trends, t => MslTrendMatches(filters, parseDate, t));
    FilterByCounts(trends, t => MslTrendMatches(filters, parseDate, t));
  }

  /** Selecting an item with no date bounds shows exactly the trend points of that item's
      records, in record order. */
  lemma {:induction false} SelectedItemTrends(filters: FilterState, parseDate: string -> Number, records: seq<InventoryRecord>)
    requires filters.itemId != "" && filters.dateRange == (None, None)
    ensures FilteredMslTrends(filters, parseDate, InventoryService.CalculateMSLTrends(records))
         == InventoryService.CalculateMSLTrends(FilterBy(records, InventoryService.RecordOfItem(filters.itemId)))
  {
    var trends := InventoryService.CalculateMSLTrends(records);
    FilterAgreeing(trends, t => MslTrendMatches(filters, parseDate, t), InventoryService.TrendOfItem(filters.itemId));
    InventoryService.MSLTrendsOfItem(records, filters.itemId);
  }

  /** With valid dates on both sides the date test is the inclusive interval test. */
  lemma MslTrendDateWindow(filters: FilterState, parseDate: string -> Number, t: MSLTrend, start: real, end: real)
    requires filters.dateRange == (Some(Num(start)), Some(Num(end)))
    requires parseDate(t.date).Num?
    ensures MslTrendMatches(filters, parseDate, t) <==>
              (filters.itemId == "" || t.itemId == filters.itemId)
              && start <= parseDate(t.date).value <= end
  {
  }

  // ----- Consumption trend filter --------------------------------------------------------

  /** The predicate of `data.consumptionTrends.filter(...)`. */
  predicate ConsumptionTrendMatches(filters: FilterState, trend: ConsumptionTrend)
  {
    if filters.category != "" && trend.category != filters.category then false
    else if filters.abcClass != "" && trend.abcClass != filters.abcClass then false
    else if filters.itemId != "" && trend.itemId != filters.itemId then false
    else true
  }

  function FilteredConsumptionTrends(filters: FilterState, trends: seq<ConsumptionTrend>): seq<ConsumptionTrend>
  {
    FilterBy(trends, t => ConsumptionTrendMatches(filters, t))
  }

  /** The filters the page passes on to the consumption view. */
  function ViewFiltersOf(filters: FilterState): ConsumptionTrendView.TrendFilters
  {
    ConsumptionTrendView.TrendFilters(filters.category, filters.abcClass, filters.itemId)
  }

  /** The filters the page passes on to the inventory table. */
  function TableFiltersOf(filters: FilterState): InventoryTable.TableFilters
  {
    InventoryTable.TableFilters(filters.itemName, filters.category, filters.abcClass)
  }

  /** A point is kept exactly when its category, ABC class and item id each match the
      filter or the filter field is empty; the kept points stay in order. */
  lemma ConsumptionTrendFilterSpec(filters: FilterState, trends: seq<ConsumptionTrend>)
    ensures forall t :: t in FilteredConsumptionTrends(filters, trends) <==>
      && t in trends
      && (filters.category == "" || t.category == filters.category)
      && (filters.abcClass == "" || t.abcClass == filters.abcClass)
      && (filters.itemId == "" || t.itemId == filters.itemId)
    ensures IsSubsequence(FilteredConsumptionTrends(filters, trends), trends)
    ensures forall t | t in trends :: multiset(FilteredConsumptionTrends(filters, trends))[t] ==
              if ConsumptionTrendMatches(filters, t) then multiset(trends)[t] else 0
  {
    FilterIsSubsequence(trends, t => ConsumptionTrendMatches(filters, t));
    FilterByCounts(trends, t => ConsumptionTrendMatches(filters, t));
  }

  /** The consumption view filters again with the same criteria, which changes nothing:
      the page's filter and the view's filter are the same predicate. */
  lemma {:induction false} ViewRefilterChangesNothing(filters: FilterState, trends: seq<ConsumptionTrend>)
    ensures ConsumptionTrendView.FilterData(FilteredConsumptionTrends(filters, trends), ViewFiltersOf(filters))
         == FilteredConsumptionTrends(filters, trends)
  {
    var kept := FilteredConsumptionTrends(filters, trends);
    forall t | t in kept
      ensures ConsumptionTrendView.MatchesFilters(t, ViewFiltersOf(filters))
    {
    }
  }

  /** The consumption view's last bar is the latest month the filters keep: the service
      emits its points in month order, and filtering keeps that order, so the last bar is
      the total of the greatest month among the kept points. */
  lemma LatestBarIsLatestMonth(filters: FilterState, records: seq<InventoryRecord>)
    ensures var kept := FilteredConsumptionTrends(filters, InventoryService.ConsumptionTrendsOf(records));
            var view := ConsumptionTrendView.FilterData(kept, ViewFiltersOf(filters));
            && view == kept
            && (view == [] ==> ConsumptionTrendView.LatestMonthConsumption(ConsumptionTrendView.MonthlyConsumptionOf(view)) == 0.0)
            && (view != [] ==>
                  && (forall t :: t in view ==> StrCompare(t.month, view[|view| - 1].month) <= 0)
                  && ConsumptionTrendView.LatestMonthConsumption(ConsumptionTrendView.MonthlyConsumptionOf(view))
                     == SumWhere(view, InventoryService.TrendMonthOf, view[|view| - 1].month,
                                 InventoryService.TrendConsumptionOf))
  {
    var trends := InventoryService.ConsumptionTrendsOf(records);
    var kept := FilteredConsumptionTrends(filters, trends);
    InventoryService.ConsumptionTrendsByMonth(records);
    assert ConsumptionTrendView.ByMonth(trends);
    ConsumptionTrendView.FilterKeepsByMonth(trends, t => ConsumptionTrendMatches(filters, t));
    ViewRefilterChangesNothing(filters, trends);
    ConsumptionTrendView.LatestIsLastMonth(kept);
    if kept != [] {
      forall t | t in kept ensures StrCompare(t.month, kept[|kept| - 1].month) <= 0 {
        var k :| 0 <= k < |kept| && kept[k] == t;
        if k < |kept| - 1 { }
      }
    }
  }

  /** With the initial filters both trend collections and the table's rows pass through
      unchanged, whatever the dates. */
  lemma InitialFiltersPassAll(parseDate: string -> Number, mslTrends: seq<MSLTrend>,
                              consumptionTrends: seq<ConsumptionTrend>, itrMetrics: seq<ITRMetric>)
    ensures FilteredMslTrends(InitialFilters, parseDate, mslTrends) == mslTrends
    ensures FilteredConsumptionTrends(InitialFilters, consumptionTrends) == consumptionTrends
    ensures ConsumptionTrendView.FilterData(consumptionTrends, ViewFiltersOf(InitialFilters)) == consumptionTrends
    ensures InventoryTable.FilterItems(itrMetrics, TableFiltersOf(InitialFilters)) == itrMetrics
  {
    ConsumptionTrendView.EmptyFiltersKeepAll(consumptionTrends);
    InventoryTable.EmptyFiltersKeepAll(itrMetrics);
  }

  // ----- Choices of the filter panel ------------------------------------------------------

  function MasterCategoryOf(item: ItemMaster): string { item.category }
  function MasterIdOf(item: ItemMaster): string { item.itemId }

  /** `Array.from(new Set(itemMaster.map(item => item.Category)))`. */
  function Categories(itemMaster: seq<ItemMaster>): seq<string>
  {
    FirstSeen(KeysOf(itemMaster, MasterCategoryOf))
  }

  /** Every category of the item master appears once, and no other value does. */
  lemma CategoriesAreDistinct(itemMaster: seq<ItemMaster>)
    ensures forall c :: c in Categories(itemMaster) <==> exists item :: item in itemMaster && item.category == c
    ensures NoDuplicates(Categories(itemMaster))
  {
    var keys := KeysOf(itemMaster, MasterCategoryOf);
    FirstSeenFacts(keys);
    forall c | c in Categories(itemMaster)
      ensures exists item :: item in itemMaster && item.category == c
    {
      var i :| 0 <= i < |keys| && keys[i] == c;
      assert itemMaster[i] in itemMaster;
    }
    forall item | item in itemMaster
      ensures item.category in Categories(itemMaster)
    {
      var i :| 0 <= i < |itemMaster| && itemMaster[i] == item;
      assert keys[i] == item.category;
    }
  }

  /** The categories are listed in the order in which they first occur in the item master. */
  lemma CategoriesInFirstSeenOrder(itemMaster: seq<ItemMaster>, i: nat, j: nat)
    requires i < j < |Categories(itemMaster)|
    ensures var keys := KeysOf(itemMaster, MasterCategoryOf);
            Categories(itemMaster)[i] in keys && Categories(itemMaster)[j] in keys
    ensures var keys := KeysOf(itemMaster, MasterCategoryOf);
            FirstIndex(keys, Categories(itemMaster)[i]) < FirstIndex(keys, Categories(itemMaster)[j])
  {
    FirstSeenOrder(KeysOf(itemMaster, MasterCategoryOf), i, j);
  }

  /** `itemMaster.map(item => ({ id: item['Item ID'], name: item['Item Name'] }))`. */
  function ItemOptions(itemMaster: seq<ItemMaster>): (r: seq<ItemOption>)
    ensures |r| == |itemMaster|
    ensures forall i :: 0 <= i < |r| ==> r[i] == ItemOption(itemMaster[i].itemId, itemMaster[i].itemName)
  {
    seq(|itemMaster|, i requires 0 <= i < |itemMaster| => ItemOption(itemMaster[i].itemId, itemMaster[i].itemName))
  }

  /** Every item of the item master can be chosen in the item selector, and every choice
      after "All Items" is the id of an item. */
  lemma ItemChoicesAreItemIds(itemMaster: seq<ItemMaster>)
    ensures forall item :: item in itemMaster ==> item.itemId in ItemIdChoices(ItemOptions(itemMaster))
    ensures forall k :: 1 <= k < |ItemIdChoices(ItemOptions(itemMaster))| ==>
              itemMaster[k - 1].itemId == ItemIdChoices(ItemOptions(itemMaster))[k]
  {
    var choices := ItemIdChoices(ItemOptions(itemMaster));
    forall item | item in itemMaster
      ensures item.itemId in choices
    {
      var i :| 0 <= i < |itemMaster| && itemMaster[i] == item;
      assert choices[i + 1] == item.itemId;
    }
  }

  /** The first entry of the category, ABC class and item selectors is "", which the
      filters read as "all": choosing "All" in the three selectors lets every consumption
      point through. */
  lemma AllChoicesMatchEverything(filters: FilterState, categories: seq<string>,
                                  itemOptions: seq<ItemOption>, trends: seq<ConsumptionTrend>)
    ensures var r := HandleChange(HandleChange(HandleChange(filters,
                       SetCategory(CategoryChoices(categories)[0])),
                       SetAbcClass(AbcClassChoices[0])),
                       SetItemId(ItemIdChoices(itemOptions)[0]));
            FilteredConsumptionTrends(r, trends) == trends
  {
  }

  // ----- The item shown by the MSL view ---------------------------------------------------

  /** `filters.itemId || filteredMSLTrends[0]?.itemId || ''`. */
  function DisplayedItemId(filters: FilterState, filtered: seq<MSLTrend>): string
  {
    if filters.itemId != "" then filters.itemId
    else if filtered != [] then filtered[0].itemId
    else ""
  }

  /** The id the item name is looked up by: `filters.itemId || filteredMSLTrends[0]?.itemId`,
      which is `undefined` when neither is available. */
  function NameLookupKey(filters: FilterState, filtered: seq<MSLTrend>): Option<string>
  {
    if filters.itemId != "" then Some(filters.itemId)
    else if filtered != [] then Some(filtered[0].itemId)
    else None
  }

  /** `itemMaster.find(item => item['Item ID'] === key)?.['Item Name'] || ''`. */
  function DisplayedItemName(itemMaster: seq<ItemMaster>, filters: FilterState, filtered: seq<MSLTrend>): string
  {
    match NameLookupKey(filters, filtered)
    case None => ""
    case Some(key) =>
      match FirstWhere(itemMaster, MasterIdOf, key)
      case None => ""
      case Some(item) => item.itemName
  }

  /** The displayed id is the filter's item when one is selected, otherwise the item of the
      first kept trend point, otherwise empty. When an item is selected every kept point
      belongs to it, so the view shows that item's points only. */
  lemma DisplayedItemIdSpec(filters: FilterState, parseDate: string -> Number, trends: seq<MSLTrend>)
    ensures var filtered := FilteredMslTrends(filters, parseDate, trends);
            var id := DisplayedItemId(filters, filtered);
            && (filters.itemId != "" ==> id == filters.itemId && forall t :: t in filtered ==> t.itemId == id)
            && (filters.itemId == "" && filtered != [] ==> id == filtered[0].itemId)
            && (filters.itemId == "" && filtered == [] ==> id == "")
  {
    MslTrendFilterSpec(filters, parseDate, trends);
  }

  /** The displayed name belongs to the displayed id: it is the name of the first item
      master entry with that id, or empty when no entry has it or there is nothing to
      show. */
  lemma DisplayedItemNameSpec(itemMaster: seq<ItemMaster>, filters: FilterState, filtered: seq<MSLTrend>)
    ensures var id := DisplayedItemId(filters, filtered);
            var name := DisplayedItemName(itemMaster, filters, filtered);
            && (filters.itemId == "" && filtered == [] ==> name == "")
            && ((filters.itemId != "" || filtered != []) ==>
                  if exists item :: item in itemMaster && item.itemId == id
                  then exists i :: 0 <= i < |itemMaster| && itemMaster[i].itemId == id
                         && (forall j :: 0 <= j < i ==> itemMaster[j].itemId != id)
                         && name == itemMaster[i].itemName
                  else name == "")
  {
    var id := DisplayedItemId(filters, filtered);
    if filters.itemId != "" || filtered != [] {
      assert NameLookupKey(filters, filtered) == Some(id);
      if exists item :: item in itemMaster && item.itemId == id {
        var keys := KeysOf(itemMaster, MasterIdOf);
        assert id in keys by {
          var item :| item in itemMaster && item.itemId == id;
          var k :| 0 <= k < |itemMaster| && itemMaster[k] == item;
          assert keys[k] == id;
        }
        var i := FirstIndex(keys, id);
        FirstWhereIsFirst(itemMaster, MasterIdOf, id, i);
      }
    }
  }
}
