/** The filter panel: the dashboard's filter state and the single-field update each
    control performs. */
module FilterPanel {
  import opened Common
  import opened InventoryTypes

  /** A date picker value: absent (`null`) or a `Date` whose time value may be NaN. */
  type DateBound = Option<Number>

  /** The filter state shared by the dashboard's views; `""` stands for "all". */
  datatype FilterState = FilterState(
    itemName: string,
    category: string,
    abcClass: string,
    itemId: string,
    dateRange: (DateBound, DateBound))

  /** One call of `handleChange(field, value)`: the field and its new value. */
  datatype FilterChange =
    | SetItemName(itemName: string)
    | SetCategory(category: string)
    | SetAbcClass(abcClass: string)
    | SetItemId(itemId: string)
    | SetDateRange(dateRange: (DateBound, DateBound))

  /** `{ ...filters, [field]: value }`: the named field takes the new value and every other
      field keeps its old one. */
  function HandleChange(filters: FilterState, change: FilterChange): (r: FilterState)
    ensures change.SetItemName? ==> r == FilterState(change.itemName, filters.category, filters.abcClass, filters.itemId, filters.dateRange)
    ensures change.SetCategory? ==> r == FilterState(filters.itemName, change.category, filters.abcClass, filters.itemId, filters.dateRange)
    ensures change.SetAbcClass? ==> r == FilterState(filters.itemName, filters.category, change.abcClass, filters.itemId, filters.dateRange)
    ensures change.SetItemId? ==> r == FilterState(filters.itemName, filters.category, filters.abcClass, change.itemId, filters.dateRange)
    ensures change.SetDateRange? ==> r == FilterState(filters.itemName, filters.category, filters.abcClass, filters.itemId, change.dateRange)
  {
    match change
    case SetItemName(v) => filters.(itemName := v)
    case SetCategory(v) => filters.(category := v)
    case SetAbcClass(v) => filters.(abcClass := v)
    case SetItemId(v) => filters.(itemId := v)
    case SetDateRange(v) => filters.(dateRange := v)
  }

  /** Which field a change writes. */
  datatype FilterField = ItemNameField | CategoryField | AbcClassField | ItemIdField | DateRangeField

  function FieldOf(change: FilterChange): FilterField
  {
    match change
    case SetItemName(_) => ItemNameField
    case SetCategory(_) => CategoryField
    case SetAbcClass(_) => AbcClassField
    case SetItemId(_) => ItemIdField
    case SetDateRange(_) => DateRangeField
  }

  /** A later change of the same field overrides an earlier one. */
  lemma LastChangeWins(filters: FilterState, first: FilterChange, second: FilterChange)
    requires FieldOf(first) == FieldOf(second)
    ensures HandleChange(HandleChange(filters, first), second) == HandleChange(filters, second)
  {
  }

  /** Changes of different fields commute. */
  lemma ChangesCommute(filters: FilterState, a: FilterChange, b: FilterChange)
    requires FieldOf(a) != FieldOf(b)
    ensures HandleChange(HandleChange(filters, a), b) == HandleChange(HandleChange(filters, b), a)
  {
  }

  /** Setting a field to the value it already has changes nothing. */
  lemma ChangeToCurrentValue(filters: FilterState, change: FilterChange)
    requires match change
             case SetItemName(v) => v == filters.itemName
             case SetCategory(v) => v == filters.category
             case SetAbcClass(v) => v == filters.abcClass
             case SetItemId(v) => v == filters.itemId
             case SetDateRange(v) => v == filters.dateRange
    ensures HandleChange(filters, change) == filters
  {
  }

  /** The start date picker: `handleChange('dateRange', [date, filters.dateRange[1]])`. */
  function ChangeStartDate(filters: FilterState, date: DateBound): (r: FilterState)
    ensures r.dateRange.0 == date && r.dateRange.1 == filters.dateRange.1
    ensures r.(dateRange := filters.dateRange) == filters
  {
    HandleChange(filters, SetDateRange((date, filters.dateRange.1)))
  }

  /** The end date picker: `handleChange('dateRange', [filters.dateRange[0], date])`. */
  function ChangeEndDate(filters: FilterState, date: DateBound): (r: FilterState)
    ensures r.dateRange.0 == filters.dateRange.0 && r.dateRange.1 == date
    ensures r.(dateRange := filters.dateRange) == filters
  {
    HandleChange(filters, SetDateRange((filters.dateRange.0, date)))
  }

  /** Picking the start and the end date, in either order, sets both bounds. */
  lemma DatePickersCommute(filters: FilterState, start: DateBound, end: DateBound)
    ensures ChangeEndDate(ChangeStartDate(filters, start), end)
         == ChangeStartDate(ChangeEndDate(filters, end), start)
         == filters.(dateRange := (start, end))
  {
  }

  /** The values the ABC class selector offers; `""` is "All Classes". */
  const AbcClassChoices: seq<string> := ["", "A", "B", "C"]

  /** The category selector offers "All Categories" and then each category. */
  function CategoryChoices(categories: seq<string>): (r: seq<string>)
    ensures |r| == |categories| + 1 && r[0] == ""
    ensures forall i :: 0 <= i < |categories| ==> r[i + 1] == categories[i]
  {
    [""] + categories
  }

  /** The item selector offers "All Items" and then the id of each option. */
  function ItemIdChoices(itemOptions: seq<ItemOption>): (r: seq<string>)
    ensures |r| == |itemOptions| + 1 && r[0] == ""
    ensures forall i :: 0 <= i < |itemOptions| ==> r[i + 1] == itemOptions[i].id
  {
    [""] + seq(|itemOptions|, i requires 0 <= i < |itemOptions| => itemOptions[i].id)
  }

  /** Starting from any state, a change made through the ABC class selector leaves an ABC
      class filter that is "" or one of A, B and C. */
  lemma AbcSelectorKeepsChoices(filters: FilterState, choice: nat)
    requires choice < |AbcClassChoices|
    ensures var r := HandleChange(filters, SetAbcClass(AbcClassChoices[choice]));
            r.abcClass in {"", "A", "B", "C"}
            && (r.abcClass == "" <==> choice == 0)
  {
  }
}
