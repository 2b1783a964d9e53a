/** Sale Summary (`calculate_sale_agg_2`): Sale Detail restricted to sold
    items, grouped by (date_sold, type_of_property) and ordered by that key. */
module Summary {
  import opened Nullable
  import opened Ordering
  import opened Grouping
  import opened Tables
  import opened Loader
  import opened Sales

  /** A Sale Detail row is sold when its sale date is present. */
  function IsSold(d: SaleDetailRow): bool
  {
    d.dateSold.Some?
  }

  /** AVG ignores NULL: the rows whose days_on_market is not NULL. */
  function HasDays(d: SaleDetailRow): bool
  {
    d.daysOnMarket.Some?
  }

  /** The grouping key: sale date and property type. It is only applied to
      sold rows, so the default date is never used. */
  function SummaryKey(d: SaleDetailRow): GroupKey
  {
    GroupKey(d.dateSold.GetOr(0), d.typeOfProperty)
  }

  function DetailProfit(d: SaleDetailRow): int
  {
    d.profit
  }

  function DetailDays(d: SaleDetailRow): int
  {
    d.daysOnMarket.GetOr(0)
  }

  function RowKey(r: SaleSummaryRow): GroupKey
  {
    GroupKey(r.dateSold, r.typeOfProperty)
  }

  function RowNumIn(r: SaleSummaryRow): int
  {
    r.numIn
  }

  function RowProfit(r: SaleSummaryRow): int
  {
    r.profit
  }

  /** The sold rows of Sale Detail, in table order. */
  function Sold(detail: seq<SaleDetailRow>): seq<SaleDetailRow>
  {
    Filter(detail, IsSold)
  }

  /** One Sale Summary row per key: the group's row count, the total and
      count of its present days on market, and its total profit. */
  function SummaryRows(sold: seq<SaleDetailRow>, ks: seq<GroupKey>): (out: seq<SaleSummaryRow>)
    ensures |out| == |ks|
    ensures forall i :: 0 <= i < |out| ==>
              && RowKey(out[i]) == ks[i]
              && out[i].numIn == CountWhere(sold, SummaryKey, ks[i])
              && out[i].daysOnMarketTotal == SumWhere(Filter(sold, HasDays), SummaryKey, ks[i], DetailDays)
              && out[i].daysOnMarketCount == CountWhere(Filter(sold, HasDays), SummaryKey, ks[i])
              && out[i].profit == SumWhere(sold, SummaryKey, ks[i], DetailProfit)
    ensures Sum(out, RowNumIn) == SumKeys(sold, SummaryKey, One, ks)
    ensures Sum(out, RowProfit) == SumKeys(sold, SummaryKey, DetailProfit, ks)
  {
    if |ks| == 0 then []
    else
      var k := ks[0];
      var withDays := Filter(sold, HasDays);
      CountIsSumOfOnes(sold, SummaryKey, k);
      var row := SaleSummaryRow(k.date, k.text, CountWhere(sold, SummaryKey, k),
                                SumWhere(withDays, SummaryKey, k, DetailDays),
                                CountWhere(withDays, SummaryKey, k),
                                SumWhere(sold, SummaryKey, k, DetailProfit));
      var rest := SummaryRows(sold, ks[1..]);
      assert ([row] + rest)[1..] == rest;
      [row] + rest
  }

  /** `calculate_sale_agg_2`. Keys are strictly increasing in (date_sold,
      type_of_property) order, hence unique, and are exactly the keys of the
      sold rows; each row counts its group's rows (at least one), sums their
      profit, and sums and counts their non-NULL days on market. */
  function SaleSummary(detail: seq<SaleDetailRow>): (out: seq<SaleSummaryRow>)
    ensures forall i, j :: 0 <= i < j < |out| ==> KeyLt(RowKey(out[i]), RowKey(out[j]))
    ensures forall k :: (exists i :: 0 <= i < |out| && RowKey(out[i]) == k) <==> k in KeysOf(Sold(detail), SummaryKey)
    ensures forall i :: 0 <= i < |out| ==>
              && out[i].numIn == CountWhere(Sold(detail), SummaryKey, RowKey(out[i]))
              && out[i].numIn > 0
              && out[i].profit == SumWhere(Sold(detail), SummaryKey, RowKey(out[i]), DetailProfit)
              && out[i].daysOnMarketTotal == SumWhere(Filter(Sold(detail), HasDays), SummaryKey, RowKey(out[i]), DetailDays)
              && out[i].daysOnMarketCount == CountWhere(Filter(Sold(detail), HasDays), SummaryKey, RowKey(out[i]))
  {
    var sold := Sold(detail);
    var ks := SortedKeys(sold, SummaryKey);
    var out := SummaryRows(sold, ks);
    forall i | 0 <= i < |out| ensures out[i].numIn > 0 {
      CountWherePositive(sold, SummaryKey, ks[i]);
    }
    out
  }

  /** Every Sale Summary row stands for sold Sale Detail rows: some row with
      a non-NULL date_sold has the summary row's date and type. */
  lemma SaleSummaryOnlySold(detail: seq<SaleDetailRow>)
    ensures forall i :: 0 <= i < |SaleSummary(detail)| ==>
              exists d :: d in detail && d.dateSold == Some(SaleSummary(detail)[i].dateSold)
                          && d.typeOfProperty == SaleSummary(detail)[i].typeOfProperty
  {
    var out := SaleSummary(detail);
    forall i | 0 <= i < |out|
      ensures exists d :: d in detail && d.dateSold == Some(out[i].dateSold)
                          && d.typeOfProperty == out[i].typeOfProperty
    {
      var k := RowKey(out[i]);
      FilterSelects(detail, IsSold);
      assert k in KeysOf(Sold(detail), SummaryKey);
      var d :| d in Sold(detail) && SummaryKey(d) == k;
    }
  }

  /** The num_in values add up to the number of sold rows. */
  lemma SaleSummaryCount(detail: seq<SaleDetailRow>)
    ensures Sum(SaleSummary(detail), RowNumIn) == |Sold(detail)|
  {
    var sold := Sold(detail);
    var ks := SortedKeys(sold, SummaryKey);
    SortedKeysDistinct(ks);
    SumKeysTotal(sold, SummaryKey, One, ks);
    SumOfOnes(sold);
  }

  /** The profits add up to the total profit of the sold rows. */
  lemma SaleSummaryProfit(detail: seq<SaleDetailRow>)
    ensures Sum(SaleSummary(detail), RowProfit) == Sum(Sold(detail), DetailProfit)
  {
    var sold := Sold(detail);
    var ks := SortedKeys(sold, SummaryKey);
    SortedKeysDistinct(ks);
    SumKeysTotal(sold, SummaryKey, DetailProfit, ks);
  }

  /** avg_days_on_market: the average of the group's non-NULL days on
      market, NULL when there are none. */
  function AvgDaysOnMarket(r: SaleSummaryRow): (a: Option<real>)
    ensures a.Some? <==> r.daysOnMarketCount > 0
    ensures a.Some? ==> a.value * r.daysOnMarketCount as real == r.daysOnMarketTotal as real
  {
    if r.daysOnMarketCount == 0 then None
    else Some(r.daysOnMarketTotal as real / r.daysOnMarketCount as real)
  }

  /** When every sold row has its days on market, the rows AVG skips are
      none: the filter keeps the whole table. */
  lemma {:induction false} FilterKeepsAll(sold: seq<SaleDetailRow>)
    requires forall d :: d in sold ==> HasDays(d)
    ensures Filter(sold, HasDays) == sold
  {
    if |sold| > 0 {
      assert sold == [sold[0]] + sold[1..];
      FilterKeepsAll(sold[1..]);
    }
  }

  /** Where every sold row has its days on market, every group's day count
      equals its item count. */
  lemma SaleSummaryDaysCount(detail: seq<SaleDetailRow>)
    requires forall d :: d in detail && IsSold(d) ==> HasDays(d)
    ensures forall r :: r in SaleSummary(detail) ==> r.daysOnMarketCount == r.numIn
  {
    FilterSelects(detail, IsSold);
    FilterKeepsAll(Sold(detail));
  }

  /** Sale Detail built from cleaned sales has days on market on every
      sold row. */
  lemma CleanDetailHasDays(raw: seq<RawSale>, costs: seq<InventoryCostRow>)
    ensures forall d :: d in SaleDetail(ReadAndClean(raw), costs) && IsSold(d) ==> HasDays(d)
  {
    var sales := ReadAndClean(raw);
    forall d | d in SaleDetail(sales, costs) && IsSold(d) ensures HasDays(d) {
      var s :| s in sales && ProfitOf(s, d);
      var i :| 0 <= i < |sales| && sales[i] == s;
      assert WellDerived(sales[i]);
    }
  }

  /** Where every sold row has its days on market, AVG divides by num_in:
      the average is the group's total days on market over num_in. */
  lemma SaleSummaryAverageOf(detail: seq<SaleDetailRow>)
    requires forall d :: d in detail && IsSold(d) ==> HasDays(d)
    ensures forall r :: r in SaleSummary(detail) ==>
              && AvgDaysOnMarket(r).Some?
              && AvgDaysOnMarket(r).value * r.numIn as real == r.daysOnMarketTotal as real
  {
    SaleSummaryDaysCount(detail);
    var out := SaleSummary(detail);
    forall r | r in out
      ensures AvgDaysOnMarket(r).Some? && AvgDaysOnMarket(r).value * r.numIn as real == r.daysOnMarketTotal as real
    {
      var i :| 0 <= i < |out| && out[i] == r;
      AverageOverNumIn(r);
    }
  }

  lemma AverageOverNumIn(r: SaleSummaryRow)
    requires r.daysOnMarketCount == r.numIn > 0
    ensures AvgDaysOnMarket(r).Some?
    ensures AvgDaysOnMarket(r).value * r.numIn as real == r.daysOnMarketTotal as real
  {
    var a := AvgDaysOnMarket(r);
    assert a.value * r.daysOnMarketCount as real == r.daysOnMarketTotal as real;
  }

  /** On Sale Detail built from cleaned sales, AVG divides by num_in. */
  lemma SaleSummaryAverage(raw: seq<RawSale>, costs: seq<InventoryCostRow>)
    ensures forall r :: r in SaleSummary(SaleDetail(ReadAndClean(raw), costs)) ==>
              && AvgDaysOnMarket(r).Some?
              && AvgDaysOnMarket(r).value * r.numIn as real == r.daysOnMarketTotal as real
  {
    CleanDetailHasDays(raw, costs);
    SaleSummaryAverageOf(SaleDetail(ReadAndClean(raw), costs));
  }
}
