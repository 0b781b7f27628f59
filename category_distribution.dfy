/** The category pie chart: one slice per category metric with a colour from a cyclic
    palette, the selection highlight, and the totals shown beside it. */
module CategoryDistribution {
  import opened Seqs
  import opened InventoryTypes
  import opened InventoryService

  const CategoryColors: seq<string> := ["limegreen", "purple", "orange", "red", "cyan"]

  /** One slice of the chart. */
  datatype ChartRow = ChartRow(
    name: string,
    value: real,
    color: string,
    isSelected: bool,
    itemCount: nat,
    consumption: real)

  function ChartRowOf(category: CategoryMetric, index: nat, selectedCategory: string): ChartRow
  {
    ChartRow(category.category, category.stockValue, CategoryColors[index % |CategoryColors|],
             selectedCategory == category.category, category.totalItems, category.consumptionRate)
  }

  /** `data.map((category, index) => ...)`. */
  function ChartData(data: seq<CategoryMetric>, selectedCategory: string): (rows: seq<ChartRow>)
    ensures |rows| == |data|
  {
    seq(|data|, i requires 0 <= i < |data| => ChartRowOf(data[i], i, selectedCategory))
  }

  /** Each slice copies its metric, takes the palette colour of its position modulo 5, and
      is selected exactly when its category is the selected one. */
  lemma ChartDataRows(data: seq<CategoryMetric>, selectedCategory: string, i: nat)
    requires i < |data|
    ensures var row := ChartData(data, selectedCategory)[i];
            && row.name == data[i].category
            && row.value == data[i].stockValue
            && row.itemCount == data[i].totalItems
            && row.consumption == data[i].consumptionRate
            && row.color == CategoryColors[i % 5]
            && (row.isSelected <==> selectedCategory == data[i].category)
  {
  }

  /** The palette repeats every five slices, and any five consecutive slices have five
      different colours. */
  lemma ColorsCycle(data: seq<CategoryMetric>, selectedCategory: string, i: nat, j: nat)
    requires i < j < |data|
    ensures var rows := ChartData(data, selectedCategory);
            rows[i].color == rows[j].color <==> (j - i) % 5 == 0
  {
    var rows := ChartData(data, selectedCategory);
    assert rows[i].color == CategoryColors[i % 5] && rows[j].color == CategoryColors[j % 5];
    assert (j - i) % 5 == 0 <==> i % 5 == j % 5;
  }

  /** A slice is drawn opaque when it is selected or nothing is selected. */
  function Opacity(row: ChartRow, selectedCategory: string): real
  {
    if row.isSelected || selectedCategory == "" then 1.0 else 0.3
  }

  lemma OpacityOfRows(data: seq<CategoryMetric>, selectedCategory: string, i: nat)
    requires i < |data|
    ensures var o := Opacity(ChartData(data, selectedCategory)[i], selectedCategory);
            && (o == 1.0 <==> selectedCategory == "" || selectedCategory == data[i].category)
            && (o != 1.0 ==> o == 0.3)
  {
  }

  function ValueOf(row: ChartRow): real { row.value }
  function ItemCountOf(row: ChartRow): real { row.itemCount as real }

  function TotalStockValue(chartData: seq<ChartRow>): real
  {
    Sum(chartData, ValueOf)
  }

  function TotalItems(chartData: seq<ChartRow>): real
  {
    Sum(chartData, ItemCountOf)
  }

  /** The totals are the sums over the metrics. */
  lemma {:induction false} TotalsOfChartData(data: seq<CategoryMetric>, selectedCategory: string)
    ensures TotalStockValue(ChartData(data, selectedCategory)) == Sum(data, MetricStockValueOf)
    ensures TotalItems(ChartData(data, selectedCategory)) == Sum(data, InventoryService.ItemCountOf)
  {
    if data != [] {
      var rows := ChartData(data, selectedCategory);
      var init := data[..|data| - 1];
      TotalsOfChartData(init, selectedCategory);
      assert rows[..|rows| - 1] == ChartData(init, selectedCategory);
    }
  }

  /** Charting the category metrics of the records: the slice values add up to the stock
      value of all records and the item counts to the number of records. */
  lemma ChartTotalsOfRecords(records: seq<InventoryRecord>, selectedCategory: string)
    ensures TotalStockValue(ChartData(CategoryMetricsOf(records), selectedCategory)) == Sum(records, StockValueOf)
    ensures TotalItems(ChartData(CategoryMetricsOf(records), selectedCategory)) == |records| as real
  {
    TotalsOfChartData(CategoryMetricsOf(records), selectedCategory);
    CategoryMetricsAddUp(records);
  }
}
