/** The rows of the two input tables and of the five derived tables. Dates
    are day ordinals (days since a fixed epoch); money amounts are integers. */
module Tables {
  import opened Nullable

  /** A row of `mkt`: one marketing disbursement attributed to an inventory
      item. The queries spell the category column `expendtiture_category`;
      the model calls it `category`. */
  datatype Expenditure = Expenditure(
    inventoryId: int,
    dateOfDisbursement: int,
    category: string,
    cost: int)

  /** A row of `sale` as read from its file, before the derived column is
      added. A missing `dateSold` means the item is unsold. */
  datatype RawSale = RawSale(
    inventoryId: int,
    typeOfProperty: string,
    dateAcquired: int,
    dateSold: Option<int>,
    buyingPrice: int,
    sellingPrice: int)

  /** A row of `sale` after cleaning: the raw columns plus `days_on_market`. */
  datatype Sale = Sale(
    inventoryId: int,
    typeOfProperty: string,
    dateAcquired: int,
    dateSold: Option<int>,
    buyingPrice: int,
    sellingPrice: int,
    daysOnMarket: Option<int>)

  /** A row of Inventory Cost (`inventory_id_cost`). */
  datatype InventoryCostRow = InventoryCostRow(inventoryId: int, cost: int)

  /** A row of Marketing Aggregate (`mkt_agg`). */
  datatype MarketingAggRow = MarketingAggRow(dateOfDisbursement: int, category: string, cost: int)

  /** A row of Sale Detail (`sale_agg_1`). */
  datatype SaleDetailRow = SaleDetailRow(
    inventoryId: int,
    typeOfProperty: string,
    dateAcquired: int,
    dateSold: Option<int>,
    daysOnMarket: Option<int>,
    cost: int,
    profit: int)

  /** A row of Sale Summary (`sale_agg_2`). AVG(days_on_market) is kept as
      the sum and the count of the non-NULL values it averages. */
  datatype SaleSummaryRow = SaleSummaryRow(
    dateSold: int,
    typeOfProperty: string,
    numIn: nat,
    daysOnMarketTotal: int,
    daysOnMarketCount: nat,
    profit: int)

  /** A row of Unsold Ranking (`top_unsold_invetory_id`). The cost is the
      joined Inventory Cost, NULL when the item has none. */
  datatype UnsoldRow = UnsoldRow(
    inventoryId: int,
    typeOfProperty: string,
    dateAcquired: int,
    cost: Option<int>,
    currentDate: int)
}
