/** Cleaning of the `sale` table: the derived `days_on_market` column. */
module Loader {
  import opened Nullable
  import opened Tables

  /** `days_on_market`: whole days from acquisition to sale, NULL (NaN) when
      the item is unsold. */
  function DaysOnMarket(acquired: int, sold: Option<int>): (d: Option<int>)
    ensures d.Some? <==> sold.Some?
    ensures d.Some? ==> acquired + d.value == sold.value
  {
    match sold
    case Some(s) => Some(s - acquired)
    case None => None
  }

  /** The raw columns of a cleaned row, i.e. the row without the derived column. */
  function Raw(s: Sale): RawSale
  {
    RawSale(s.inventoryId, s.typeOfProperty, s.dateAcquired, s.dateSold, s.buyingPrice, s.sellingPrice)
  }

  /** The derived column agrees with the two dates it is derived from. */
  predicate WellDerived(s: Sale)
  {
    s.daysOnMarket == DaysOnMarket(s.dateAcquired, s.dateSold)
  }

  function CleanSale(r: RawSale): (s: Sale)
    ensures Raw(s) == r
    ensures WellDerived(s)
  {
    Sale(r.inventoryId, r.typeOfProperty, r.dateAcquired, r.dateSold, r.buyingPrice, r.sellingPrice,
         DaysOnMarket(r.dateAcquired, r.dateSold))
  }

  /** The sale branch of `read_and_clean`: every row kept, in order, with
      the derived column added and the raw columns untouched. */
  function ReadAndClean(raw: seq<RawSale>): (t: seq<Sale>)
    ensures |t| == |raw|
    ensures forall i :: 0 <= i < |t| ==> Raw(t[i]) == raw[i] && WellDerived(t[i])
  {
    if |raw| == 0 then [] else [CleanSale(raw[0])] + ReadAndClean(raw[1..])
  }

  /** Cleaning loses nothing: dropping the derived column gives the raw row
      back, and a derived column that agrees with the dates is the one
      cleaning computes. */
  lemma CleanSaleInverse(s: Sale)
    requires WellDerived(s)
    ensures CleanSale(Raw(s)) == s
  {
  }
}
