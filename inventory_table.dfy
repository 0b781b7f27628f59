/** The turnover table: the filter over the turnover metrics, the column sort with its
    three-way comparator, the turnover rating, and the sort state the column headers
    switch. */
module InventoryTable {
  import opened Common
  import opened Seqs
  import opened Sorting
  import opened InventoryTypes

  // ----- Product numbers in item names ---------------------------------------------------

  /** The value of the first maximal run of decimal digits in `name`, or 0 when it has none:
      the natural-sort key of the name column. */
  function ExtractProductNumber(name: string): (n: nat)
    ensures NoDigits(name) ==> n == 0
    ensures forall i: nat, j: nat | IsFirstDigitRun(name, i, j) :: n == DigitsValue(name[i..j])
  {
    var i := FirstDigitFrom(name, 0);
    assert forall k :: 0 <= k < i ==> name[..i][k] == name[k];
    if i == |name| then
      0
    else
      var j := DigitRunEnd(name, i);
      FirstDigitRunIsUnique(name, i, j);
      DigitsValue(name[i..j])
  }

  /** There is at most one first digit run. */
  lemma FirstDigitRunIsUnique(s: string, i: nat, j: nat)
    requires i < |s| && IsDigit(s[i]) && NoDigits(s[..i])
    requires i < j <= |s| && (forall k :: i <= k < j ==> IsDigit(s[k])) && (j == |s| || !IsDigit(s[j]))
    ensures IsFirstDigitRun(s, i, j)
    ensures forall i': nat, j': nat | IsFirstDigitRun(s, i', j') :: i' == i && j' == j
  {
    forall i': nat, j': nat | IsFirstDigitRun(s, i', j') ensures i' == i && j' == j {
      assert IsDigit(s[i']) by {
        assert s[i'..j'][0] == s[i'];
      }
      forall k | 0 <= k < i ensures !IsDigit(s[k]) {
        assert s[..i][k] == s[k];
      }
      forall k | 0 <= k < i' ensures !IsDigit(s[k]) {
        assert s[..i'][k] == s[k];
      }
      forall k | i' <= k < j' ensures IsDigit(s[k]) {
        assert s[i'..j'][k - i'] == s[k];
      }
    }
    assert forall k :: 0 <= k < j - i ==> s[i..j][k] == s[i + k];
  }

  /** A name with a digit has a first digit run. */
  lemma FirstDigitRunExists(name: string)
    requires !NoDigits(name)
    ensures exists i, j :: IsFirstDigitRun(name, i, j)
  {
    var i := FirstDigitFrom(name, 0);
    assert forall k :: 0 <= k < i ==> name[..i][k] == name[k];
    var j := DigitRunEnd(name, i);
    FirstDigitRunIsUnique(name, i, j);
  }

  /** The first index at or after `from` where a backslash is followed by `d`, or `|s|`. */
  function FirstBackslashD(s: string, from: nat): (i: nat)
    requires from <= |s|
    ensures from <= i <= |s|
    ensures i < |s| ==> OccursAt(s, "\\d", i)
    ensures forall k :: from <= k < i ==> !OccursAt(s, "\\d", k)
    decreases |s| - from
  {
    if from == |s| || OccursAt(s, "\\d", from) then from else FirstBackslashD(s, from + 1)
  }

  /** The end of the run of `d`s that starts at `from`. */
  function RunOfDsEnd(s: string, from: nat): (j: nat)
    requires from <= |s|
    ensures from <= j <= |s|
    ensures forall k :: from <= k < j ==> s[k] == 'd'
    ensures j == |s| || s[j] != 'd'
    decreases |s| - from
  {
    if from == |s| || s[from] != 'd' then from else RunOfDsEnd(s, from + 1)
  }

  /** `name.match(/\\d+/)` as the pattern is written: `\\d+` is a backslash followed by one
      or more `d`s, and the match is its leftmost occurrence, as long as it goes. */
  function MatchAsWritten(name: string): (m: Option<string>)
    ensures m.Some? <==> Contains(name, "\\d")
    ensures m.Some? ==> |m.value| >= 2 && m.value[0] == '\\' && forall k :: 1 <= k < |m.value| ==> m.value[k] == 'd'
  {
    var i := FirstBackslashD(name, 0);
    if i == |name| then
      None
    else
      assert name[i + 1] == 'd' by {
        assert name[i..i + 2][1] == name[i + 1];
      }
      var j := RunOfDsEnd(name, i + 1);
      assert name[i..j][0] == name[i] == '\\' by {
        assert name[i..i + 2][0] == name[i];
      }
      Some(name[i..j])
  }

  /** `extractProductNumber` as written: 0 when the pattern does not match, otherwise the
      `parseInt` of the match. A match starts with a backslash, so its `parseInt` is NaN. */
  function ExtractProductNumberAsWritten(name: string): (n: Number)
    ensures n == NaN || n == Num(0.0)
    ensures n == NaN <==> Contains(name, "\\d")
  {
    match MatchAsWritten(name)
    case None => Num(0.0)
    case Some(m) => ParseInt(m)
  }

  lemma NoBackslashNoMatch(name: string)
    requires forall k :: 0 <= k < |name| ==> name[k] != '\\'
    ensures !Contains(name, "\\d")
  {
    forall i | 0 <= i <= |name| - 2 ensures !OccursAt(name, "\\d", i) {
      assert name[i..i + 2][0] == name[i] != '\\';
    }
  }

  /** As written, "Item 2" and "Item 10" get the same key, while their product numbers are
      2 and 10. */
  lemma ProductNumberAsWrittenIgnoresDigits()
    ensures ExtractProductNumberAsWritten("Item 2") == ExtractProductNumberAsWritten("Item 10") == Num(0.0)
    ensures ExtractProductNumber("Item 2") == 2 && ExtractProductNumber("Item 10") == 10
  {
    NoBackslashNoMatch("Item 2");
    NoBackslashNoMatch("Item 10");
    FirstDigitRunIsUnique("Item 2", 5, 6);
    FirstDigitRunIsUnique("Item 10", 5, 7);
    assert "Item 2"[5..6] == "2";
    assert "Item 10"[5..7] == "10";
    assert "10"[..1] == "1";
  }

  /** The name comparison with the key as written: the difference of two keys, where NaN,
      which `sort` reads as 0, stands for a tie. */
  function CompareNamesAsWritten(order: SortOrder, a: ITRMetric, b: ITRMetric): real
  {
    match (ExtractProductNumberAsWritten(a.itemName), ExtractProductNumberAsWritten(b.itemName))
    case (Num(x), Num(y)) => if order == Asc then x - y else -(x - y)
    case _ => 0.0
  }

  /** As written, sorting by item name never reorders the rows. */
  lemma NameSortAsWrittenKeepsOrder(items: seq<ITRMetric>, order: SortOrder)
    ensures StableSort(items, (a, b) => CompareNamesAsWritten(order, a, b)) == items
  {
    SortWithoutOrderIsIdentity(items, (a, b) => CompareNamesAsWritten(order, a, b));
  }

  // ----- Turnover rating -----------------------------------------------------------------

  datatype Turnover = Low | Optimal | High

  /** Rates a turnover ratio: below 1 is low, above 3 high; NaN fails both tests. */
  function EvaluateTurnover(itr: Number): (t: Turnover)
    ensures t == Low <==> itr.Num? && itr.value < 1.0
    ensures t == High <==> itr.Num? && itr.value > 3.0
    ensures t == Optimal <==> itr == NaN || 1.0 <= itr.value <= 3.0
  {
    if itr.Num? && itr.value < 1.0 then Low
    else if itr.Num? && itr.value > 3.0 then High
    else Optimal
  }

  // ----- Filter --------------------------------------------------------------------------

  /** The table's filter fields; an empty field matches every row. */
  datatype TableFilters = TableFilters(itemName: string, category: string, abcClass: string)

  /** Case-insensitive name substring, category equality and ABC class equality. */
  predicate MatchesFilters(item: ITRMetric, filters: TableFilters)
  {
    && (filters.itemName == "" || Contains(ToLower(item.itemName), ToLower(filters.itemName)))
    && (filters.category == "" || item.category == filters.category)
    && (filters.abcClass == "" || item.abcClass == filters.abcClass)
  }

  function FilterItems(data: seq<ITRMetric>, filters: TableFilters): seq<ITRMetric>
  {
    FilterBy(data, item => MatchesFilters(item, filters))
  }

  /** The filter keeps exactly the matching rows, in their order. */
  lemma FilterItemsKeepsMatches(data: seq<ITRMetric>, filters: TableFilters)
    ensures forall x :: x in FilterItems(data, filters) <==> x in data && MatchesFilters(x, filters)
    ensures IsSubsequence(FilterItems(data, filters), data)
    ensures forall x | x in data :: multiset(FilterItems(data, filters))[x] ==
              if MatchesFilters(x, filters) then multiset(data)[x] else 0
  {
    FilterIsSubsequence(data, item => MatchesFilters(item, filters));
    FilterByCounts(data, item => MatchesFilters(item, filters));
  }

  /** Empty filter fields let every row through. */
  lemma EmptyFiltersKeepAll(data: seq<ITRMetric>)
    ensures FilterItems(data, TableFilters("", "", "")) == data
  {
  }

  lemma {:induction false} ToLowerIdempotent(s: string)
    ensures ToLower(ToLower(s)) == ToLower(s)
  {
    assert forall i :: 0 <= i < |s| ==> ToLowerChar(ToLowerChar(s[i])) == ToLowerChar(s[i]);
  }

  /** The name filter ignores the case of the query. */
  lemma NameFilterIgnoresCase(item: ITRMetric, filters: TableFilters)
    ensures MatchesFilters(item, filters.(itemName := ToLower(filters.itemName))) == MatchesFilters(item, filters)
  {
    ToLowerIdempotent(filters.itemName);
  }

  // ----- Sorting -------------------------------------------------------------------------

  /** The columns a metric can be sorted by. */
  datatype SortField = ItemId | ItemName | Category | AbcClass | Itr | AverageInventory | MonthlyConsumption | DataPoints

  datatype SortOrder = Asc | Desc

  /** The value of a column: text, or a number the comparator tests with `isNaN`. */
  datatype FieldValue = Text(text: string) | Numeric(number: Number)

  function FieldValueOf(item: ITRMetric, field: SortField): FieldValue
  {
    match field
    case ItemId => Text(item.itemId)
    case ItemName => Text(item.itemName)
    case Category => Text(item.category)
    case AbcClass => Text(item.abcClass)
    case Itr => Numeric(item.itr)
    case AverageInventory => Numeric(item.averageInventory)
    case MonthlyConsumption => Numeric(item.monthlyConsumption)
    case DataPoints => Numeric(Num(item.dataPoints as real))
  }

  /** Two numbers: NaNs tie, a NaN sorts after a number in ascending order and before it in
      descending order, and numbers compare by their difference. */
  function CompareNumbers(x: Number, y: Number, order: SortOrder): real
  {
    if x.NaN? && y.NaN? then 0.0
    else if x.NaN? then (if order == Asc then 1.0 else -1.0)
    else if y.NaN? then (if order == Asc then -1.0 else 1.0)
    else if order == Asc then x.value - y.value
    else y.value - x.value
  }

  /** The comparator the table sorts with. */
  function CompareItems(field: SortField, order: SortOrder, a: ITRMetric, b: ITRMetric): real
  {
    if field == ItemName then
      var comparison := (ExtractProductNumber(a.itemName) - ExtractProductNumber(b.itemName)) as real;
      if order == Asc then comparison else -comparison
    else
      match (FieldValueOf(a, field), FieldValueOf(b, field))
      case (Numeric(x), Numeric(y)) => CompareNumbers(x, y, order)
      case (Text(s), Text(t)) => (if order == Asc then StrCompare(s, t) else StrCompare(t, s)) as real
      case _ => 0.0
  }

  function Comparator(field: SortField, order: SortOrder): (ITRMetric, ITRMetric) -> real
  {
    (a, b) => CompareItems(field, order, a, b)
  }

  /** `[...filteredItems].sort(comparator)`. */
  function SortItems(items: seq<ITRMetric>, field: SortField, order: SortOrder): seq<ITRMetric>
  {
    StableSort(items, Comparator(field, order))
  }

  /** Descending order is ascending order with the operands swapped, NaNs included. */
  lemma DescendingIsSwappedAscending(field: SortField, a: ITRMetric, b: ITRMetric)
    ensures CompareItems(field, Desc, a, b) == CompareItems(field, Asc, b, a)
  {
  }

  lemma CompareItemsAntisymmetric(field: SortField, order: SortOrder, a: ITRMetric, b: ITRMetric)
    ensures CompareItems(field, order, a, b) > 0.0 <==> CompareItems(field, order, b, a) < 0.0
  {
    match (FieldValueOf(a, field), FieldValueOf(b, field))
    case (Text(s), Text(t)) => StrCompareAntisymmetric(s, t);
    case _ =>
  }

  lemma CompareItemsTransitive(field: SortField, order: SortOrder, a: ITRMetric, b: ITRMetric, c: ITRMetric)
    requires CompareItems(field, order, a, b) <= 0.0 && CompareItems(field, order, b, c) <= 0.0
    ensures CompareItems(field, order, a, c) <= 0.0
  {
    if field != ItemName {
      match (FieldValueOf(a, field), FieldValueOf(b, field), FieldValueOf(c, field))
      case (Text(s), Text(t), Text(u)) =>
        if order == Asc {
          StrCompareTransitive(s, t, u);
        } else {
          StrCompareTransitive(u, t, s);
        }
      case _ =>
    }
  }

  /** Every column's comparator is consistent, so the sort is well defined. */
  lemma ComparatorIsTotalPreorder(field: SortField, order: SortOrder)
    ensures TotalPreorder(Comparator(field, order))
  {
    var cmp := Comparator(field, order);
    forall a, b ensures cmp(a, b) > 0.0 <==> cmp(b, a) < 0.0 {
      CompareItemsAntisymmetric(field, order, a, b);
    }
    forall a, b, c | cmp(a, b) <= 0.0 && cmp(b, c) <= 0.0 ensures cmp(a, c) <= 0.0 {
      CompareItemsTransitive(field, order, a, b, c);
    }
  }

  /** The sorted rows are the filtered rows, ordered by the column, rows that tie keeping
      their filtered order. */
  lemma SortItemsSpec(items: seq<ITRMetric>, field: SortField, order: SortOrder, k: ITRMetric)
    ensures multiset(SortItems(items, field, order)) == multiset(items)
    ensures var r := SortItems(items, field, order);
            forall i, j :: 0 <= i < j < |r| ==> CompareItems(field, order, r[i], r[j]) <= 0.0
    ensures TiesWith(SortItems(items, field, order), k, Comparator(field, order)) == TiesWith(items, k, Comparator(field, order))
  {
    ComparatorIsTotalPreorder(field, order);
    SortSorted(items, Comparator(field, order));
    SortStable(items, k, Comparator(field, order));
  }

  /** Sorting by name orders the rows by product number, ascending or descending. */
  lemma NameSortByProductNumber(items: seq<ITRMetric>, order: SortOrder)
    ensures var r := SortItems(items, ItemName, order);
            forall i, j :: 0 <= i < j < |r| ==>
              if order == Asc then ExtractProductNumber(r[i].itemName) <= ExtractProductNumber(r[j].itemName)
              else ExtractProductNumber(r[i].itemName) >= ExtractProductNumber(r[j].itemName)
  {
    var r := SortItems(items, ItemName, order);
    SortItemsSpec(items, ItemName, order, if items == [] then ITRMetric("", "", "", "", NaN, NaN, NaN, 0) else items[0]);
    forall i, j | 0 <= i < j < |r|
      ensures if order == Asc then ExtractProductNumber(r[i].itemName) <= ExtractProductNumber(r[j].itemName)
              else ExtractProductNumber(r[i].itemName) >= ExtractProductNumber(r[j].itemName)
    {
      assert CompareItems(ItemName, order, r[i], r[j]) <= 0.0;
    }
  }

  function NumberOf(item: ITRMetric, field: SortField): Number
  {
    match FieldValueOf(item, field)
    case Numeric(n) => n
    case Text(_) => Num(0.0)
  }

  predicate IsNumericField(field: SortField)
  {
    field == Itr || field == AverageInventory || field == MonthlyConsumption || field == DataPoints
  }

  lemma NaNPlacementPair(field: SortField, order: SortOrder, a: ITRMetric, b: ITRMetric)
    requires IsNumericField(field) && CompareItems(field, order, a, b) <= 0.0
    ensures order == Asc ==> !(NumberOf(a, field).NaN? && NumberOf(b, field).Num?)
    ensures order == Desc ==> !(NumberOf(a, field).Num? && NumberOf(b, field).NaN?)
  {
  }

  /** On a numeric column, ascending order puts the NaN rows last and descending order puts
      them first. */
  lemma NaNPlacement(items: seq<ITRMetric>, field: SortField, order: SortOrder)
    requires IsNumericField(field)
    ensures var r := SortItems(items, field, order);
            forall i, j :: 0 <= i < j < |r| ==>
              && (order == Asc ==> !(NumberOf(r[i], field).NaN? && NumberOf(r[j], field).Num?))
              && (order == Desc ==> !(NumberOf(r[i], field).Num? && NumberOf(r[j], field).NaN?))
  {
    var r := SortItems(items, field, order);
    ComparatorIsTotalPreorder(field, order);
    SortSorted(items, Comparator(field, order));
    forall i, j | 0 <= i < j < |r|
      ensures && (order == Asc ==> !(NumberOf(r[i], field).NaN? && NumberOf(r[j], field).Num?))
              && (order == Desc ==> !(NumberOf(r[i], field).Num? && NumberOf(r[j], field).NaN?))
    {
      NaNPlacementPair(field, order, r[i], r[j]);
    }
  }

  // ----- Sort state ----------------------------------------------------------------------

  datatype SortState = SortState(field: SortField, order: SortOrder)

  function Toggled(order: SortOrder): SortOrder
  {
    if order == Asc then Desc else Asc
  }

  /** Clicking a column header: the current column flips its order, another column becomes
      current in ascending order. */
  function NextSortState(state: SortState, field: SortField): (next: SortState)
    ensures next.field == field
    ensures field == state.field ==> next.order != state.order
    ensures field != state.field ==> next.order == Asc
  {
    if field == state.field then SortState(field, Toggled(state.order)) else SortState(field, Asc)
  }

  /** Clicking the same header twice restores the order. */
  lemma ClickTwiceRestores(state: SortState)
    ensures NextSortState(NextSortState(state, state.field), state.field) == state
  {
  }

  /** The `sortField` and `sortOrder` state of the table. */
  class SortControl {
    var sortField: SortField
    var sortOrder: SortOrder

    /** The table starts sorted by item name, ascending. */
    constructor()
      ensures sortField == ItemName && sortOrder == Asc
    {
      sortField := ItemName;
      sortOrder := Asc;
    }

    function State(): SortState
      reads this
    {
      SortState(sortField, sortOrder)
    }

    method HandleSortChange(field: SortField)
      modifies this
      ensures State() == NextSortState(old(State()), field)
    {
      if field == sortField {
        sortOrder := if sortOrder == Asc then Desc else Asc;
      } else {
        sortField := field;
        sortOrder := Asc;
      }
    }

    /** The rows as the table shows them under the current state. */
    function SortedItems(filteredItems: seq<ITRMetric>): (r: seq<ITRMetric>)
      reads this
      ensures multiset(r) == multiset(filteredItems)
    {
      SortItems(filteredItems, sortField, sortOrder)
    }
  }
}
