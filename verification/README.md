# Real-estate ETL aggregations in Dafny

This project models the aggregation core of a small real-estate analytics
pipeline (`etl.py`). The pipeline reads two tables. `sale` has one row per
inventory item: its property type, acquisition and sale dates, and buying and
selling prices. `mkt` has one row per marketing disbursement charged to an
inventory item. The pipeline derives `days_on_market` for each sale and then
runs five SQL queries:

- **Marketing Aggregate** (`calculate_mkt_agg`): SUM(cost) per
  (date_of_disbursement, category), ordered by date.
- **Inventory Cost** (`calculate_invertory_id_cost`): SUM(cost) per inventory_id.
- **Sale Detail** (`calculate_sale_agg_1`): `sale` LEFT JOIN Inventory Cost,
  with COALESCE(cost, 0) and profit = selling − (buying + cost).
- **Sale Summary** (`calculate_sale_agg_2`): sold rows of Sale Detail,
  grouped by (date_sold, type_of_property), with COUNT, AVG(days_on_market)
  and SUM(profit), ordered by the key.
- **Unsold Ranking** (`calculate_top_unsold_invetory_id`): unsold rows of
  `sale` LEFT JOIN Inventory Cost, with the raw (possibly NULL) cost and the
  current date, ordered by cost descending.

Tables are sequences of immutable records (`Tables`). SQL NULL is
`Nullable.Option`. Dates are integer day ordinals. Each query is a pure
function, and its SQL meaning is stated in its contract and in lemmas.
The SQL meaning is the one standard SQL (ISO/IEC 9075, query expressions)
gives GROUP BY, SUM, COUNT, AVG, LEFT JOIN, COALESCE, IS NULL and ORDER BY.

Modules:

- `Nullable`: NULL-able values, with COALESCE as `GetOr`.
- `Ordering`: binary text collation and the (date, text) key order.
- `Grouping`: SUM/COUNT per group, WHERE, the distinct or sorted keys of a
  GROUP BY, and sum conservation.
- `Tables`: row types.
- `Loader`: `days_on_market`.
- `Marketing`: Marketing Aggregate and Inventory Cost.
- `Sales`: the LEFT JOIN and Sale Detail.
- `Summary`: Sale Summary.
- `Unsold`: Unsold Ranking.
- `Examples`: small worked tables.

The marketing category column is spelled `expendtiture_category` in the
queries (etl.py:22, etl.py:24). The model has a single field, `category`.

The LEFT JOIN is modelled as SQL defines it: one output row per matching
Inventory Cost row, or one NULL-cost row when nothing matches. The claim
"one Sale Detail row per sale row" is therefore a lemma
(`Sales.LeftJoinOneToOne`). It holds because Inventory Cost ids are unique,
which `Marketing.InventoryCost` guarantees.

Unsold Ranking's guarantee is split into three parts.
`Unsold.UnsoldRanking` reorders the selected rows. `Unsold.UnsoldRowsPerSale`
says those rows are one per unsold sale row. `Sales.InventoryCostLookup`
says what cost each of those rows carries.

## Model

| member | source | states |
|---|---|---|
| Loader.DaysOnMarket | etl.py:12 | days on market is present exactly when the sale date is, and then acquisition date plus days on market is the sale date |
| Loader.CleanSale | etl.py:9-12 | a cleaned row keeps every raw column and its derived days on market agrees with its dates |
| Loader.ReadAndClean | etl.py:5-17 | cleaning `sale` keeps every row in order, leaves the raw columns untouched and adds a consistent days on market |
| Loader.CleanSaleInverse | etl.py:12 | a row whose days on market agrees with its dates is exactly what cleaning its raw columns yields (cleaning is the inverse of dropping the column) |
| Ordering.StringLt | etl.py:57 | the binary text order used to sort type_of_property; no contract of its own, its meaning is carried by Ordering.StringLtIrreflexive, Ordering.StringLtTransitive and Ordering.StringLtTotal |
| Ordering.StringLtTransitive | etl.py:57 | the text order used for ORDER BY type_of_property is transitive |
| Ordering.StringLtTotal | etl.py:57 | any two different texts are ordered one way or the other |
| Ordering.InsertKey | etl.py:24-25 | inserting a key into a strictly increasing key list keeps it strictly increasing and adds exactly that key |
| Grouping.Filter | etl.py:55 | the WHERE clause (also at etl.py:68), keeping table order; no contract of its own, its meaning is carried by Grouping.FilterSelects and Grouping.FilterAppend |
| Grouping.FilterSelects | etl.py:55 | WHERE keeps exactly the rows satisfying the condition, each exactly as many times as the input holds it, and drops every other row |
| Grouping.DistinctKeys | etl.py:35 | GROUP BY yields each key of the table exactly once and no other key |
| Grouping.SortedKeys | etl.py:56-57 | GROUP BY with ORDER BY on the key yields each key of the table once, strictly increasing |
| Grouping.CountWherePositive | etl.py:53 | a group has at least one row exactly when its key occurs in the table |
| Grouping.SumKeysTotal | etl.py:33-35 | adding up the per-group sums over distinct keys covering every row gives the sum over the whole table |
| Grouping.CountIsSumOfOnes | etl.py:53 | COUNT over a group equals SUM of ones over it |
| Marketing.MarketingAggregate | etl.py:21-26 | (date, category) keys are unique and exactly those of `mkt`; each cost is the sum over its group; dates never decrease |
| Marketing.MarketingAggregateTotal | etl.py:22-24 | the Marketing Aggregate costs add up to the total marketing cost |
| Marketing.InventoryCost | etl.py:32-36 | each inventory id occurs at most once; the ids are exactly those with marketing rows; each cost is the sum of that id's costs |
| Marketing.InventoryCostTotal | etl.py:33-35 | the Inventory Cost costs add up to the total marketing cost |
| Sales.LeftJoin | etl.py:44-45 | the left outer join on equal inventory id (also at etl.py:66-67); it has no contract of its own, and its meaning is carried by Sales.LeftJoinMatches, Sales.LeftJoinKeepsSales and Sales.LeftJoinOneToOne |
| Sales.DetailRow | etl.py:43 | a missing joined cost becomes 0 and profit = selling − (buying + cost); no contract of its own, its meaning is carried by Sales.SaleDetail and Sales.SaleDetailPerSale |
| Sales.LookupCost | etl.py:45 | the join finds a cost exactly when Inventory Cost has the id, and then it is the cost of a row with that id |
| Sales.MatchingCosts | etl.py:45 | the join's matches are exactly the costs of the Inventory Cost rows with the id; there are none exactly when the id is absent |
| Sales.MatchingCostsUnique | etl.py:45 | with unique ids a sale row has at most one match, the one LookupCost finds |
| Sales.JoinOneMatches | etl.py:44-45 | a sale row yields at least one joined row, each pairing it with the cost of a row of the same id, or NULL when there is none |
| Sales.LeftJoinMatches | etl.py:44-45 | every LEFT JOIN row pairs a sale row with the cost of an Inventory Cost row of the same id, or NULL when there is none |
| Sales.LeftJoinKeepsSales | etl.py:44-45 | every sale row yields at least one LEFT JOIN row, so the join is never shorter than `sale` |
| Sales.LeftJoinOneToOne | etl.py:44-45 | with unique Inventory Cost ids the LEFT JOIN is each sale row, in order, paired with its own matched cost or NULL |
| Sales.JoinByLookupIndex | etl.py:44-45 | that pairing has exactly one row per sale row, the i-th carrying the i-th sale row and its looked-up cost |
| Sales.InventoryCostLookup | etl.py:45 | over the Inventory Cost of `mkt` the join finds the item's total marketing spend, or NULL when the item has no marketing rows |
| Sales.SaleDetail | etl.py:42-46 | each Sale Detail row copies a sale row's columns, has cost 0 when the id has no Inventory Cost and the matched cost otherwise, and profit = selling − (buying + cost) |
| Sales.SaleDetailPerSale | etl.py:43-45 | Sale Detail over the Inventory Cost of `mkt` has one row per sale row; its cost is the item's total marketing spend (0 if none) and its profit follows from it |
| Summary.SaleSummary | etl.py:52-58 | keys are strictly increasing (date_sold, type) and exactly those of sold rows; each row's count is at least 1 and counts the group; profit and day totals sum the group |
| Summary.SaleSummaryOnlySold | etl.py:55 | every Sale Summary row stands for a Sale Detail row with a non-NULL date_sold of that date and type |
| Summary.SaleSummaryCount | etl.py:53 | the num_in values add up to the number of sold rows |
| Summary.SaleSummaryProfit | etl.py:53 | the summary profits add up to the total profit of the sold rows |
| Summary.AvgDaysOnMarket | etl.py:53 | the average is NULL exactly when the group has no non-NULL days on market, and otherwise times the count gives the total |
| Summary.SaleSummaryDaysCount | etl.py:53 | when every sold row has days on market, each group's day count equals its num_in |
| Summary.SaleSummaryAverage | etl.py:53 | on cleaned sales, every group's average is present and equals total days on market over num_in |
| Unsold.RanksBefore | etl.py:69 | descending cost order with NULL below every cost; no contract of its own, its meaning is carried by Unsold.InsertByCost and Unsold.SortByCost |
| Unsold.InsertByCost | etl.py:69 | inserting into a cost-ranked table keeps it ranked and adds exactly that row |
| Unsold.SortByCost | etl.py:69 | ORDER BY cost DESC yields a permutation of its input ranked by cost, with NULL costs last |
| Unsold.UnsoldRanking | etl.py:64-70 | the result is a permutation of the unsold joined rows, ranked by cost, each stamped with the given current date |
| Unsold.UnsoldRowsPerSale | etl.py:65-68 | with unique Inventory Cost ids the selected rows are exactly the unsold sale rows, one each, in order, each with its own matched cost or NULL |
| Unsold.UnsoldByLookupCount | etl.py:68 | there is one such row per sale row whose date_sold is NULL |
| Unsold.UnsoldRankingPerSale | etl.py:65-68 | over the Inventory Cost of `mkt` the ranking is a reordering of one row per unsold sale row with its looked-up cost, and has as many rows as there are unsold sales |
| Examples.SoldWithoutMarketing | etl.py:43 | a sale bought for 100 on day 0 and sold for 150 on day 10 with no marketing has cost 0, profit 50 and 10 days on market |
| Examples.TwoDisbursements | etl.py:22-35 | marketing rows of 30 and 20 for one item on two days give Inventory Cost 50 and two Marketing Aggregate rows |

## Left out

- CSV reading and writing (etl.py:6, etl.py:75-76): library I/O. Tables are given as sequences of records.
- Date parsing with `pd.to_datetime` (etl.py:9-10, etl.py:16): dates are day ordinals. A time-of-day part, and the flooring `.dt.days` would apply to it, is not modelled.
- The `mkt` branch of `read_and_clean` (etl.py:14-16) only parses a date, so it is the identity on day ordinals.
- Dispatch on the file-path string (etl.py:7, etl.py:14): the two tables have separate record types instead.
- The query engine `sqldf.run` and its binding of Python globals as table names (etl.py:27, 37, 47, 59, 71): only the meaning of the queries is modelled.
- `CURRENT_DATE` (etl.py:65) is a wall-clock read. It is a parameter copied into every row.
- The orchestration in `__main__` (etl.py:78-97) is not modelled: progress output, call order and output file names. The code writes its last table to `top_unsold_invetory_id.csv` (etl.py:95).
- COUNT(inventory_id) is the number of rows in the group, because ids are never NULL here.
- NULLs in columns other than `date_sold`, `days_on_market` and the joined cost are not modelled: `inventory_id`, `cost` in `mkt`, prices and `date_acquired` are non-NULL. Money is integer, not floating point.
- Integer width: Dafny's integers are unbounded. The query engine (SQLite, which sqldf wraps) keeps integers in 64 bits: its SUM(cost) and SUM(profit) stop with an overflow error beyond that, and its integer `+` and `-` fall back to floating point. The model has no overflow error path and no such fallback.
- Sales.LeftJoin: the queries (etl.py:42-46, etl.py:64-68) have no ORDER BY on the join, so the engine promises no row order. The model yields the joined rows in `sale` order, which is one admissible order. The index-wise statements of Sales.LeftJoinOneToOne, Sales.JoinByLookupIndex, Sales.SaleDetailPerSale and Unsold.UnsoldRowsPerSale are about that order.
- Summary.AvgDaysOnMarket: the floating-point AVG is an exact real quotient.
- Marketing.MarketingAggregate: the SQL orders only by date. Its contract promises unique keys and non-decreasing dates. Within a date the model's rows happen to follow category order, which is one admissible order.
- Marketing.InventoryCost: the query has no ORDER BY, so the contract promises no row order.
- Unsold.UnsoldRanking: the standard leaves NULL placement to the engine. The model puts NULL costs last, as an engine that sorts NULL as the smallest value does for DESC. The contract leaves the order of equal costs open.
