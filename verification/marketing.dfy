/** The two queries over `mkt`: Marketing Aggregate (`calculate_mkt_agg`)
    and Inventory Cost (`calculate_invertory_id_cost`). */
module Marketing {
  import opened Ordering
  import opened Grouping
  import opened Tables

  function ExpenditureId(e: Expenditure): int
  {
    e.inventoryId
  }

  function ExpenditureCost(e: Expenditure): int
  {
    e.cost
  }

  /** The grouping key: disbursement date and category. */
  function ExpenditureKey(e: Expenditure): GroupKey
  {
    GroupKey(e.dateOfDisbursement, e.category)
  }

  function AggKey(r: MarketingAggRow): GroupKey
  {
    GroupKey(r.dateOfDisbursement, r.category)
  }

  function AggCost(r: MarketingAggRow): int
  {
    r.cost
  }

  function CostRowId(r: InventoryCostRow): int
  {
    r.inventoryId
  }

  function CostRowCost(r: InventoryCostRow): int
  {
    r.cost
  }

  /** The inventory ids an Inventory Cost table holds. */
  ghost function CostIds(t: seq<InventoryCostRow>): set<int>
  {
    KeysOf(t, CostRowId)
  }

  /** No inventory id occurs twice. */
  predicate UniqueIds(t: seq<InventoryCostRow>)
  {
    forall i, j :: 0 <= i < j < |t| ==> t[i].inventoryId != t[j].inventoryId
  }

  /** One Marketing Aggregate row per key, carrying the group's SUM(cost). */
  function AggRows(mkt: seq<Expenditure>, ks: seq<GroupKey>): (out: seq<MarketingAggRow>)
    ensures |out| == |ks|
    ensures forall i :: 0 <= i < |out| ==>
              AggKey(out[i]) == ks[i] && out[i].cost == SumWhere(mkt, ExpenditureKey, ks[i], ExpenditureCost)
    ensures Sum(out, AggCost) == SumKeys(mkt, ExpenditureKey, ExpenditureCost, ks)
  {
    if |ks| == 0 then []
    else
      var row := MarketingAggRow(ks[0].date, ks[0].text, SumWhere(mkt, ExpenditureKey, ks[0], ExpenditureCost));
      var rest := AggRows(mkt, ks[1..]);
      assert ([row] + rest)[1..] == rest;
      [row] + rest
  }

  /** `calculate_mkt_agg`: SUM(cost) per (date_of_disbursement, category),
      ordered by date. Keys are unique and are exactly the keys of `mkt`;
      every row carries the sum of its group; dates never decrease. */
  function MarketingAggregate(mkt: seq<Expenditure>): (out: seq<MarketingAggRow>)
    ensures forall i, j :: 0 <= i < j < |out| ==> AggKey(out[i]) != AggKey(out[j])
    ensures forall i, j :: 0 <= i < j < |out| ==> out[i].dateOfDisbursement <= out[j].dateOfDisbursement
    ensures forall k :: (exists i :: 0 <= i < |out| && AggKey(out[i]) == k) <==> k in KeysOf(mkt, ExpenditureKey)
    ensures forall i :: 0 <= i < |out| ==>
              out[i].cost == SumWhere(mkt, ExpenditureKey, AggKey(out[i]), ExpenditureCost)
  {
    var ks := SortedKeys(mkt, ExpenditureKey);
    SortedKeysDistinct(ks);
    var out := AggRows(mkt, ks);
    assert forall i, j :: 0 <= i < j < |out| ==> KeyLt(AggKey(out[i]), AggKey(out[j]));
    out
  }

  /** The marketing total is conserved by Marketing Aggregate. */
  lemma MarketingAggregateTotal(mkt: seq<Expenditure>)
    ensures Sum(MarketingAggregate(mkt), AggCost) == Sum(mkt, ExpenditureCost)
  {
    var ks := SortedKeys(mkt, ExpenditureKey);
    SortedKeysDistinct(ks);
    SumKeysTotal(mkt, ExpenditureKey, ExpenditureCost, ks);
  }

  /** One Inventory Cost row per id, carrying the id's SUM(cost). */
  function CostRows(mkt: seq<Expenditure>, ids: seq<int>): (out: seq<InventoryCostRow>)
    ensures |out| == |ids|
    ensures forall i :: 0 <= i < |out| ==>
              out[i].inventoryId == ids[i] && out[i].cost == SumWhere(mkt, ExpenditureId, ids[i], ExpenditureCost)
    ensures Sum(out, CostRowCost) == SumKeys(mkt, ExpenditureId, ExpenditureCost, ids)
  {
    if |ids| == 0 then []
    else
      var row := InventoryCostRow(ids[0], SumWhere(mkt, ExpenditureId, ids[0], ExpenditureCost));
      var rest := CostRows(mkt, ids[1..]);
      assert ([row] + rest)[1..] == rest;
      [row] + rest
  }

  /** `calculate_invertory_id_cost`: SUM(cost) per inventory_id. Each id of
      `mkt` occurs exactly once, ids without marketing rows do not occur,
      and each row carries the sum of its id's costs. */
  function InventoryCost(mkt: seq<Expenditure>): (out: seq<InventoryCostRow>)
    ensures UniqueIds(out)
    ensures CostIds(out) == KeysOf(mkt, ExpenditureId)
    ensures forall i :: 0 <= i < |out| ==>
              out[i].cost == SumWhere(mkt, ExpenditureId, out[i].inventoryId, ExpenditureCost)
  {
    var ids := DistinctKeys(mkt, ExpenditureId);
    var out := CostRows(mkt, ids);
    assert forall x :: x in CostIds(out) <==> x in ids by {
      forall x ensures x in CostIds(out) <==> x in ids {
        if x in ids {
          var i :| 0 <= i < |ids| && ids[i] == x;
          assert out[i] in out;
        }
      }
    }
    out
  }

  /** The marketing total is conserved by Inventory Cost. */
  lemma InventoryCostTotal(mkt: seq<Expenditure>)
    ensures Sum(InventoryCost(mkt), CostRowCost) == Sum(mkt, ExpenditureCost)
  {
    var ids := DistinctKeys(mkt, ExpenditureId);
    SumKeysTotal(mkt, ExpenditureId, ExpenditureCost, ids);
  }
}
