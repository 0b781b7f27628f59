/** The minimum-stock-level panel of one item: each trend point rated against its MSL,
    the current status, the days below and above the band, and the compliance rate. */
module MSLTrendAnalysis {
  import opened Common
  import opened Seqs
  import opened InventoryTypes
  import opened InventoryService

  /** Rates `currentStock / targetMSL` against 0.9 and 1.5; a NaN ratio fails both tests. */
  function GetStockStatus(currentStock: real, targetMSL: real): (status: MSLState)
    ensures targetMSL > 0.0 ==> (status == Below <==> currentStock < 0.9 * targetMSL)
    ensures targetMSL > 0.0 ==> (status == Excess <==> currentStock > 1.5 * targetMSL)
    ensures targetMSL == 0.0 ==> (status == Below <==> currentStock < 0.0)
    ensures targetMSL == 0.0 ==> (status == Excess <==> currentStock > 0.0)
  {
    var ratio := Divide(currentStock, targetMSL);
    RatioComparison(currentStock, targetMSL, 0.9);
    RatioComparison(currentStock, targetMSL, 1.5);
    if LessThan(ratio, 0.9) then Below
    else if GreaterThan(ratio, 1.5) then Excess
    else MSLState.Optimal
  }

  /** The panel and the service's rating agree on every input. */
  lemma StockStatusAgreesWithService(stock: real, msl: real)
    ensures GetStockStatus(stock, msl) == EvaluateMSLStatus(stock, msl).status
  {
  }

  /** A trend point with its status. */
  datatype EnrichedPoint = EnrichedPoint(itemId: string, date: string, stock: real, msl: real, status: MSLState)

  function Enrich(point: MSLTrend): EnrichedPoint
  {
    EnrichedPoint(point.itemId, point.date, point.stock, point.msl, GetStockStatus(point.stock, point.msl))
  }

  /** `data.map(point => ({ ...point, status }))`. */
  function EnrichedData(data: seq<MSLTrend>): (e: seq<EnrichedPoint>)
    ensures |e| == |data|
  {
    seq(|data|, i requires 0 <= i < |data| => Enrich(data[i]))
  }

  function PointOf(e: EnrichedPoint): MSLTrend
  {
    MSLTrend(e.itemId, e.date, e.stock, e.msl)
  }

  /** Enriching only adds the status: dropping it gives the points back, in order, and the
      status is the rating of the point's own stock and MSL. */
  lemma EnrichedDataAddsOnlyStatus(data: seq<MSLTrend>)
    ensures seq(|data|, i requires 0 <= i < |data| => PointOf(EnrichedData(data)[i])) == data
    ensures forall i :: 0 <= i < |data| ==> EnrichedData(data)[i].status == GetStockStatus(data[i].stock, data[i].msl)
  {
  }

  /** `enrichedData[enrichedData.length - 1]?.status || 'optimal'`. */
  function CurrentStatus(enriched: seq<EnrichedPoint>): MSLState
  {
    if enriched == [] then MSLState.Optimal else enriched[|enriched| - 1].status
  }

  /** The current status is the rating of the latest point, optimal when there is none. */
  lemma CurrentStatusIsLatest(data: seq<MSLTrend>)
    ensures CurrentStatus(EnrichedData(data)) ==
              if data == [] then MSLState.Optimal else GetStockStatus(data[|data| - 1].stock, data[|data| - 1].msl)
  {
  }

  function DaysBelow(enriched: seq<EnrichedPoint>): nat
  {
    |FilterBy(enriched, (d: EnrichedPoint) => d.status == Below)|
  }

  function DaysExcess(enriched: seq<EnrichedPoint>): nat
  {
    |FilterBy(enriched, (d: EnrichedPoint) => d.status == Excess)|
  }

  /** No day is both below and above the band. */
  lemma DaysWithinCount(enriched: seq<EnrichedPoint>)
    ensures DaysBelow(enriched) + DaysExcess(enriched) <= |enriched|
  {
    FilterDisjointLengths(enriched, (d: EnrichedPoint) => d.status == Below, (d: EnrichedPoint) => d.status == Excess);
  }

  lemma ShareBounds(k: real, n: real)
    requires 0.0 <= k <= n && n > 0.0
    ensures 0.0 <= k / n <= 1.0
    ensures (k / n) * n == k
  {
  }

  lemma ShareIsOne(k: real, n: real)
    requires n > 0.0
    ensures k / n == 1.0 <==> k == n
  {
  }

  /** A share `k / n` of a positive whole, in percent. */
  function Percent(k: real, n: real): (p: real)
    requires 0.0 <= k <= n && n > 0.0
    ensures 0.0 <= p <= 100.0
    ensures p * n == k * 100.0
    ensures p == 100.0 <==> k == n
  {
    ShareBounds(k, n);
    ShareIsOne(k, n);
    var q := k / n;
    assert q * 100.0 * n == (q * n) * 100.0;
    q * 100.0
  }

  /** The share of days not below the band, in percent; 100 without data. */
  function MslCompliance(enriched: seq<EnrichedPoint>): (c: real)
    ensures 0.0 <= c <= 100.0
    ensures enriched != [] ==> c * |enriched| as real == (|enriched| - DaysBelow(enriched)) as real * 100.0
    ensures c == 100.0 <==> DaysBelow(enriched) == 0
  {
    var n := |enriched|;
    var below := DaysBelow(enriched);
    if n > 0 then Percent((n - below) as real, n as real)
    else
      100.0
  }
}
