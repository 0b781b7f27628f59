/** The records the dashboard reads and the rows it derives from them. Numbers are reals;
    dates are ISO `YYYY-MM-DD` strings, as in the data files. */
module InventoryTypes {
  import opened Common

  /** One day of stock movement for one item. */
  datatype InventoryRecord = InventoryRecord(
    itemId: string,
    date: string,
    openingStock: real,
    consumption: real,
    incoming: real,
    closingStock: real,
    units: string,
    itemName: string,
    category: string,
    unitPrice: real,
    abcClass: string,
    msl: real)

  /** The static description of an item. */
  datatype ItemMaster = ItemMaster(
    itemId: string,
    itemName: string,
    category: string,
    abcClass: string,
    msl: real,
    unitPrice: real)

  /** The closing stock of one record next to its minimum stock level. */
  datatype MSLTrend = MSLTrend(itemId: string, date: string, stock: real, msl: real)

  /** The clamped consumption of one item in one `YYYY-MM` month. */
  datatype ConsumptionTrend = ConsumptionTrend(
    itemId: string,
    category: string,
    abcClass: string,
    month: string,
    consumption: real)

  /** Per-category totals: number of records, stock value and consumption. */
  datatype CategoryMetric = CategoryMetric(
    category: string,
    totalItems: nat,
    stockValue: real,
    consumptionRate: real)

  /** Per-item inventory turnover. The numeric fields are JavaScript numbers, since the
      table tests them with `isNaN`. */
  datatype ITRMetric = ITRMetric(
    itemId: string,
    itemName: string,
    category: string,
    abcClass: string,
    itr: Number,
    averageInventory: Number,
    monthlyConsumption: Number,
    dataPoints: nat)

  /** An entry of the item selector. */
  datatype ItemOption = ItemOption(id: string, name: string)
}
