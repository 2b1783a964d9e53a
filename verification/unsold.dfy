/** Unsold Ranking (`calculate_top_unsold_invetory_id`): the unsold items
    with their un-coalesced marketing cost, highest cost first. */
module Unsold {
  import opened Nullable
  import opened Grouping
  import opened Tables
  import opened Marketing
  import opened Sales

  /** Descending cost order: a cost ranks at or before another when it is
      at least as large; NULL ranks below every cost, as in an engine that
      sorts NULL as the smallest value. */
  predicate RanksBefore(a: Option<int>, b: Option<int>)
  {
    b.None? || (a.Some? && a.value >= b.value)
  }

  /** Every row ranks at or before every later row. */
  predicate RankedByCost(rows: seq<UnsoldRow>)
  {
    forall i, j :: 0 <= i < j < |rows| ==> RanksBefore(rows[i].cost, rows[j].cost)
  }

  /** Puts a row into a ranked table in front of the first row it ranks
      before. */
  function InsertByCost(x: UnsoldRow, rows: seq<UnsoldRow>): (r: seq<UnsoldRow>)
    requires RankedByCost(rows)
    ensures RankedByCost(r)
    ensures multiset(r) == multiset(rows) + multiset{x}
  {
    if |rows| == 0 then [x]
    else if RanksBefore(x.cost, rows[0].cost) then
      assert forall y | y in rows :: RanksBefore(x.cost, y.cost) by {
        forall y | y in rows ensures RanksBefore(x.cost, y.cost) {
          var j :| 0 <= j < |rows| && rows[j] == y;
        }
      }
      [x] + rows
    else
      var rest := InsertByCost(x, rows[1..]);
      assert rows == [rows[0]] + rows[1..];
      assert forall y | y in rest :: RanksBefore(rows[0].cost, y.cost) by {
        forall y | y in rest ensures RanksBefore(rows[0].cost, y.cost) {
          assert y in multiset(rest);
          if y != x {
            assert y in rows[1..];
            var j :| 0 <= j < |rows[1..]| && rows[1..][j] == y;
            assert rows[j + 1] == y;
          }
        }
      }
      [rows[0]] + rest
  }

  /** The sort by cost: an insertion sort, so that rows of equal rank keep no
      promised order relative to each other. */
  function SortByCost(rows: seq<UnsoldRow>): (r: seq<UnsoldRow>)
    ensures RankedByCost(r)
    ensures multiset(r) == multiset(rows)
  {
    if |rows| == 0 then []
    else
      assert rows == [rows[0]] + rows[1..];
      InsertByCost(rows[0], SortByCost(rows[1..]))
  }

  /** A sale row is unsold when it has no sale date. */
  function IsUnsoldSale(s: Sale): bool
  {
    s.dateSold.None?
  }

  /** The unsold condition, on the joined rows. */
  function IsUnsold(j: Joined): bool
  {
    IsUnsoldSale(j.sale)
  }

  /** The columns kept for an unsold item: its id, property type and
      acquisition date, the matched cost left as is (possibly NULL), and the
      current date, which is a parameter here rather than a clock read. */
  function ToUnsoldRow(j: Joined, currentDate: int): UnsoldRow
  {
    UnsoldRow(j.sale.inventoryId, j.sale.typeOfProperty, j.sale.dateAcquired, j.cost, currentDate)
  }

  function Project(js: seq<Joined>, currentDate: int): seq<UnsoldRow>
  {
    if |js| == 0 then [] else [ToUnsoldRow(js[0], currentDate)] + Project(js[1..], currentDate)
  }

  /** Every projected row carries the current date it was given. */
  lemma {:induction false} ProjectStamps(js: seq<Joined>, currentDate: int)
    ensures forall r :: r in Project(js, currentDate) ==> r.currentDate == currentDate
  {
    if |js| > 0 {
      ProjectStamps(js[1..], currentDate);
    }
  }

  /** The selected rows before sorting: the unsold joined rows, projected. */
  function UnsoldRows(sales: seq<Sale>, costs: seq<InventoryCostRow>, currentDate: int): seq<UnsoldRow>
  {
    Project(Filter(LeftJoin(sales, costs), IsUnsold), currentDate)
  }

  /** `calculate_top_unsold_invetory_id`: the unsold joined rows, projected
      and ranked by cost. The result is a reordering of exactly those rows,
      ranked by cost, each stamped with the current date. */
  function UnsoldRanking(sales: seq<Sale>, costs: seq<InventoryCostRow>, currentDate: int): (out: seq<UnsoldRow>)
    ensures RankedByCost(out)
    ensures multiset(out) == multiset(UnsoldRows(sales, costs, currentDate))
    ensures forall r :: r in out ==> r.currentDate == currentDate
  {
    var rows := UnsoldRows(sales, costs, currentDate);
    ProjectStamps(Filter(LeftJoin(sales, costs), IsUnsold), currentDate);
    var out := SortByCost(rows);
    assert forall r :: r in out ==> r in multiset(rows);
    out
  }

  /** One row per unsold sale row, in `sale` order, carrying the cost
      LookupCost finds for it (NULL when none). */
  function UnsoldByLookup(sales: seq<Sale>, costs: seq<InventoryCostRow>, currentDate: int): seq<UnsoldRow>
  {
    if |sales| == 0 then []
    else
      var s := sales[0];
      var rest := UnsoldByLookup(sales[1..], costs, currentDate);
      if IsUnsoldSale(s) then
        [UnsoldRow(s.inventoryId, s.typeOfProperty, s.dateAcquired, LookupCost(costs, s.inventoryId), currentDate)] + rest
      else rest
  }

  /** There is one such row per unsold sale row. */
  lemma {:induction false} UnsoldByLookupCount(sales: seq<Sale>, costs: seq<InventoryCostRow>, currentDate: int)
    ensures |UnsoldByLookup(sales, costs, currentDate)| == |Filter(sales, IsUnsoldSale)|
  {
    if |sales| > 0 {
      UnsoldByLookupCount(sales[1..], costs, currentDate);
    }
  }

  /** With unique Inventory Cost ids the query selects exactly the unsold
      sale rows, one row each, in `sale` order, each with its own matched
      cost or NULL. */
  lemma {:induction false} UnsoldRowsPerSale(sales: seq<Sale>, costs: seq<InventoryCostRow>, currentDate: int)
    requires UniqueIds(costs)
    ensures UnsoldRows(sales, costs, currentDate) == UnsoldByLookup(sales, costs, currentDate)
  {
    if |sales| > 0 {
      JoinOneUnique(sales[0], costs);
      UnsoldRowsPerSale(sales[1..], costs, currentDate);
      var head := JoinOne(sales[0], costs);
      var tail := LeftJoin(sales[1..], costs);
      FilterAppend(head, tail, IsUnsold);
      ProjectAppend(Filter(head, IsUnsold), Filter(tail, IsUnsold), currentDate);
    }
  }

  lemma {:induction false} ProjectAppend(a: seq<Joined>, b: seq<Joined>, currentDate: int)
    ensures Project(a + b, currentDate) == Project(a, currentDate) + Project(b, currentDate)
  {
    if |a| > 0 {
      assert (a + b)[1..] == a[1..] + b;
      ProjectAppend(a[1..], b, currentDate);
    } else {
      assert a + b == b;
    }
  }

  /** Unsold Ranking over the Inventory Cost of `mkt` is a reordering of
      one row per unsold sale row, each carrying the looked-up cost, which
      InventoryCostLookup identifies as the item's total marketing spend or
      NULL. */
  lemma UnsoldRankingPerSale(sales: seq<Sale>, mkt: seq<Expenditure>, currentDate: int)
    ensures multiset(UnsoldRanking(sales, InventoryCost(mkt), currentDate))
         == multiset(UnsoldByLookup(sales, InventoryCost(mkt), currentDate))
    ensures |UnsoldRanking(sales, InventoryCost(mkt), currentDate)| == |Filter(sales, IsUnsoldSale)|
  {
    var costs := InventoryCost(mkt);
    UnsoldRowsPerSale(sales, costs, currentDate);
    UnsoldByLookupCount(sales, costs, currentDate);
    var out := UnsoldRanking(sales, costs, currentDate);
    assert |multiset(out)| == |out|;
    assert |multiset(UnsoldByLookup(sales, costs, currentDate))| == |UnsoldByLookup(sales, costs, currentDate)|;
  }
}
