/** Worked examples of the queries on small tables. Day ordinals: 0 is
    2023-01-01, so 4 and 5 are 2023-01-05 and 2023-01-06 and 10 is
    2023-01-11. */
module Examples {
  import opened Nullable
  import opened Ordering
  import opened Grouping
  import opened Tables
  import opened Loader
  import opened Marketing
  import opened Sales

  /** A sale bought for 100 on day 0 and sold for 150 on day 10, with no
      marketing spend: cost 0, profit 50, ten days on market. */
  lemma SoldWithoutMarketing()
    ensures SaleDetail(ReadAndClean([RawSale(1, "house", 0, Some(10), 100, 150)]), [])
         == [SaleDetailRow(1, "house", 0, Some(10), Some(10), 0, 50)]
  {
    var sales := ReadAndClean([RawSale(1, "house", 0, Some(10), 100, 150)]);
    assert sales == [Sale(1, "house", 0, Some(10), 100, 150, Some(10))];
    assert LeftJoin(sales, []) == [Joined(sales[0], None)];
  }

  /** Two disbursements of 30 and 20 for item 1, both in category "ads" on
      consecutive days: Inventory Cost has the single row (1, 50), and
      Marketing Aggregate keeps the two days apart. */
  lemma TwoDisbursements()
    ensures InventoryCost([Expenditure(1, 4, "ads", 30), Expenditure(1, 5, "ads", 20)])
         == [InventoryCostRow(1, 50)]
    ensures MarketingAggregate([Expenditure(1, 4, "ads", 30), Expenditure(1, 5, "ads", 20)])
         == [MarketingAggRow(4, "ads", 30), MarketingAggRow(5, "ads", 20)]
  {
    var mkt := [Expenditure(1, 4, "ads", 30), Expenditure(1, 5, "ads", 20)];
    assert DistinctKeys(mkt, ExpenditureId) == [1];
    assert SumWhere(mkt, ExpenditureId, 1, ExpenditureCost) == 50;
    assert SortedKeys(mkt, ExpenditureKey) == [GroupKey(4, "ads"), GroupKey(5, "ads")];
  }
}
