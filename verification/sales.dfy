/** The LEFT JOIN of `sale` with Inventory Cost, and the two queries built on
    it: Sale Detail (`calculate_sale_agg_1`) and Sale Summary
    (`calculate_sale_agg_2`). */
module Sales {
  import opened Nullable
  import opened Ordering
  import opened Grouping
  import opened Tables
  import opened Loader
  import opened Marketing

  /** A row of the left outer join of sale rows with Inventory Cost rows on
      equal inventory id: the sale row and the matched cost, NULL when no
      Inventory Cost row has that id. */
  datatype Joined = Joined(sale: Sale, cost: Option<int>)

  /** The joined cost agrees with the Inventory Cost table: a present cost
      belongs to a row with the sale's id, an absent one means no such row. */
  ghost predicate JoinedWith(j: Joined, costs: seq<InventoryCostRow>)
  {
    && (j.cost.Some? ==> InventoryCostRow(j.sale.inventoryId, j.cost.value) in costs)
    && (j.cost.None? ==> j.sale.inventoryId !in CostIds(costs))
  }

  /** The cost of the first Inventory Cost row with this id, if any. */
  function LookupCost(costs: seq<InventoryCostRow>, id: int): (c: Option<int>)
    ensures c.None? <==> id !in CostIds(costs)
    ensures c.Some? ==> InventoryCostRow(id, c.value) in costs
  {
    if |costs| == 0 then None
    else if costs[0].inventoryId == id then
      assert CostRowId(costs[0]) == id;
      Some(costs[0].cost)
    else
      assert costs == [costs[0]] + costs[1..];
      LookupCost(costs[1..], id)
  }

  /** The costs of all Inventory Cost rows with this id, in table order. */
  function MatchingCosts(costs: seq<InventoryCostRow>, id: int): (m: seq<int>)
    ensures forall c :: c in m <==> InventoryCostRow(id, c) in costs
    ensures |m| == 0 <==> id !in CostIds(costs)
  {
    if |costs| == 0 then []
    else
      assert costs == [costs[0]] + costs[1..];
      var rest := MatchingCosts(costs[1..], id);
      if costs[0].inventoryId == id then [costs[0].cost] + rest else rest
  }

  /** With unique ids, at most one row matches, and it is the one found by
      LookupCost. */
  lemma {:induction false} MatchingCostsUnique(costs: seq<InventoryCostRow>, id: int)
    requires UniqueIds(costs)
    ensures MatchingCosts(costs, id) == (match LookupCost(costs, id)
                                        case Some(c) => [c]
                                        case None => [])
  {
    if |costs| > 0 {
      assert UniqueIds(costs[1..]) by {
        forall i, j | 0 <= i < j < |costs[1..]|
          ensures costs[1..][i].inventoryId != costs[1..][j].inventoryId
        {
          assert costs[1..][i] == costs[i + 1] && costs[1..][j] == costs[j + 1];
        }
      }
      MatchingCostsUnique(costs[1..], id);
    }
  }

  /** The joined rows of one sale row: one per matching Inventory Cost row,
      or a single row with a NULL cost when none matches. */
  function JoinOne(s: Sale, costs: seq<InventoryCostRow>): seq<Joined>
  {
    var m := MatchingCosts(costs, s.inventoryId);
    if |m| == 0 then [Joined(s, None)]
    else seq(|m|, i requires 0 <= i < |m| => Joined(s, Some(m[i])))
  }

  /** A sale row yields at least one joined row, and each pairs it with a
      cost that agrees with the table. */
  lemma JoinOneMatches(s: Sale, costs: seq<InventoryCostRow>)
    ensures |JoinOne(s, costs)| >= 1
    ensures forall j :: j in JoinOne(s, costs) ==> j.sale == s && JoinedWith(j, costs)
  {
    var m := MatchingCosts(costs, s.inventoryId);
    if |m| > 0 {
      forall j | j in JoinOne(s, costs) ensures j.sale == s && JoinedWith(j, costs) {
        var i :| 0 <= i < |m| && JoinOne(s, costs)[i] == j;
        assert m[i] in m;
      }
    }
  }

  /** The left outer join of sale rows with Inventory Cost rows on equal
      inventory id: the joined rows of each sale row, taken in `sale` order
      (one admissible order; the join itself promises none). */
  function LeftJoin(sales: seq<Sale>, costs: seq<InventoryCostRow>): seq<Joined>
  {
    if |sales| == 0 then [] else JoinOne(sales[0], costs) + LeftJoin(sales[1..], costs)
  }

  /** Every joined row pairs a sale row with a cost that agrees with the
      Inventory Cost table. */
  lemma {:induction false} LeftJoinMatches(sales: seq<Sale>, costs: seq<InventoryCostRow>)
    ensures forall j :: j in LeftJoin(sales, costs) ==> j.sale in sales && JoinedWith(j, costs)
  {
    if |sales| > 0 {
      LeftJoinMatches(sales[1..], costs);
      JoinOneMatches(sales[0], costs);
      assert LeftJoin(sales, costs) == JoinOne(sales[0], costs) + LeftJoin(sales[1..], costs);
    }
  }

  /** The LEFT in LEFT JOIN: every sale row yields at least one joined row,
      matched or not, so the join is never shorter than `sale`. */
  lemma {:induction false} LeftJoinKeepsSales(sales: seq<Sale>, costs: seq<InventoryCostRow>)
    ensures |LeftJoin(sales, costs)| >= |sales|
    ensures forall s :: s in sales ==> exists j :: j in LeftJoin(sales, costs) && j.sale == s
  {
    if |sales| > 0 {
      LeftJoinKeepsSales(sales[1..], costs);
      JoinOneMatches(sales[0], costs);
      var head := JoinOne(sales[0], costs);
      var js := LeftJoin(sales, costs);
      assert js == head + LeftJoin(sales[1..], costs);
      assert head[0] in head && head[0] in js;
      forall s | s in sales ensures exists j :: j in js && j.sale == s {
        if s == sales[0] {
          assert head[0].sale == s;
        } else {
          assert s in sales[1..];
          var j :| j in LeftJoin(sales[1..], costs) && j.sale == s;
          assert j in js;
        }
      }
    }
  }

  /** Each sale row paired with the cost LookupCost finds for it. */
  function JoinByLookup(sales: seq<Sale>, costs: seq<InventoryCostRow>): seq<Joined>
  {
    if |sales| == 0 then []
    else [Joined(sales[0], LookupCost(costs, sales[0].inventoryId))] + JoinByLookup(sales[1..], costs)
  }

  /** With unique Inventory Cost ids the LEFT JOIN keeps the shape of
      `sale`: one joined row per sale row, in `sale` order, carrying that row's
      cost or NULL. */
  lemma {:induction false} LeftJoinOneToOne(sales: seq<Sale>, costs: seq<InventoryCostRow>)
    requires UniqueIds(costs)
    ensures LeftJoin(sales, costs) == JoinByLookup(sales, costs)
  {
    if |sales| > 0 {
      JoinOneUnique(sales[0], costs);
      LeftJoinOneToOne(sales[1..], costs);
    }
  }

  /** Pairing by lookup has one row per sale row, in `sale` order. */
  lemma {:induction false} JoinByLookupIndex(sales: seq<Sale>, costs: seq<InventoryCostRow>)
    ensures |JoinByLookup(sales, costs)| == |sales|
    ensures forall i :: 0 <= i < |sales| ==>
              JoinByLookup(sales, costs)[i] == Joined(sales[i], LookupCost(costs, sales[i].inventoryId))
  {
    if |sales| > 0 {
      JoinByLookupIndex(sales[1..], costs);
      var js := JoinByLookup(sales, costs);
      forall i | 0 < i < |sales|
        ensures js[i] == Joined(sales[i], LookupCost(costs, sales[i].inventoryId))
      {
        assert js[i] == JoinByLookup(sales[1..], costs)[i - 1];
        assert sales[1..][i - 1] == sales[i];
      }
    }
  }

  /** With unique ids a sale row joins to exactly one row. */
  lemma JoinOneUnique(s: Sale, costs: seq<InventoryCostRow>)
    requires UniqueIds(costs)
    ensures JoinOne(s, costs) == [Joined(s, LookupCost(costs, s.inventoryId))]
  {
    MatchingCostsUnique(costs, s.inventoryId);
  }

  /** One Sale Detail row from one joined row: a missing marketing cost
      counts as 0, and the profit is the selling price less the buying price
      and that cost. */
  function DetailRow(j: Joined): SaleDetailRow
  {
    var cost := j.cost.GetOr(0);
    SaleDetailRow(j.sale.inventoryId, j.sale.typeOfProperty, j.sale.dateAcquired, j.sale.dateSold,
                  j.sale.daysOnMarket, cost, j.sale.sellingPrice - (j.sale.buyingPrice + cost))
  }

  /** `calculate_sale_agg_1`: Sale Detail, one row per joined row. Every row
      comes from a sale row with the same id, dates and days on market, has
      the joined cost or 0 when the join found none, and its profit is the
      selling price less the buying price and that cost. */
  function SaleDetail(sales: seq<Sale>, costs: seq<InventoryCostRow>): (out: seq<SaleDetailRow>)
    ensures |out| >= |sales|
    ensures forall d :: d in out ==> exists s :: s in sales && ProfitOf(s, d)
    ensures forall d :: d in out ==>
              (d.cost == 0 && d.inventoryId !in CostIds(costs))
              || InventoryCostRow(d.inventoryId, d.cost) in costs
  {
    var js := LeftJoin(sales, costs);
    LeftJoinKeepsSales(sales, costs);
    LeftJoinMatches(sales, costs);
    var out := seq(|js|, i requires 0 <= i < |js| => DetailRow(js[i]));
    assert forall d :: d in out ==> exists i :: 0 <= i < |js| && d == DetailRow(js[i]);
    out
  }

  /** `d` is the Sale Detail row of sale row `s`: the copied columns agree
      and the profit is the selling price less the buying price and the
      row's (coalesced) marketing cost. */
  ghost predicate ProfitOf(s: Sale, d: SaleDetailRow)
  {
    && d.inventoryId == s.inventoryId
    && d.typeOfProperty == s.typeOfProperty
    && d.dateAcquired == s.dateAcquired
    && d.dateSold == s.dateSold
    && d.daysOnMarket == s.daysOnMarket
    && d.profit == s.sellingPrice - (s.buyingPrice + d.cost)
  }

  /** Sale Detail over the Inventory Cost of `mkt` has exactly one row per
      sale row, in `sale` order; its cost is the item's total marketing spend (0
      when it has none), and its profit follows from that cost. */
  lemma SaleDetailPerSale(sales: seq<Sale>, mkt: seq<Expenditure>)
    ensures |SaleDetail(sales, InventoryCost(mkt))| == |sales|
    ensures forall i :: 0 <= i < |sales| ==>
              var d := SaleDetail(sales, InventoryCost(mkt))[i];
              && ProfitOf(sales[i], d)
              && d.cost == SumWhere(mkt, ExpenditureId, sales[i].inventoryId, ExpenditureCost)
  {
    var costs := InventoryCost(mkt);
    LeftJoinOneToOne(sales, costs);
    JoinByLookupIndex(sales, costs);
    forall i | 0 <= i < |sales|
      ensures SaleDetail(sales, costs)[i].cost == SumWhere(mkt, ExpenditureId, sales[i].inventoryId, ExpenditureCost)
    {
      var id := sales[i].inventoryId;
      var c := LookupCost(costs, id);
      if c.None? {
        CountWherePositive(mkt, ExpenditureId, id);
        NoGroupNoSum(mkt, id);
      } else {
        var k :| 0 <= k < |costs| && costs[k] == InventoryCostRow(id, c.value);
      }
    }
  }

  /** Over the Inventory Cost of `mkt`, the join finds an item's total
      marketing spend, or NULL when the item has no marketing rows. */
  lemma InventoryCostLookup(mkt: seq<Expenditure>, id: int)
    ensures LookupCost(InventoryCost(mkt), id)
         == if id in KeysOf(mkt, ExpenditureId)
            then Some(SumWhere(mkt, ExpenditureId, id, ExpenditureCost))
            else None
  {
    var costs := InventoryCost(mkt);
    var c := LookupCost(costs, id);
    if c.Some? {
      var k :| 0 <= k < |costs| && costs[k] == InventoryCostRow(id, c.value);
    }
  }

  /** An id with no marketing rows has a marketing sum of 0. */
  lemma {:induction false} NoGroupNoSum(mkt: seq<Expenditure>, id: int)
    requires CountWhere(mkt, ExpenditureId, id) == 0
    ensures SumWhere(mkt, ExpenditureId, id, ExpenditureCost) == 0
  {
    if |mkt| > 0 {
      NoGroupNoSum(mkt[1..], id);
    }
  }
}
