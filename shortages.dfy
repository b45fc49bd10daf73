/**
  The shortage table and the counts shown on the summary cards. A material
  absent from the stock table counts as 0 available (`currentStock[m] || 0`).
 */
module Shortages {

  import opened Tables

  /**
    `sc` is the shortage table of `req` against `stock`: it holds exactly the
    required materials whose requirement exceeds what is available, each with
    the missing quantity.
   */
  ghost predicate IsShortageOf(sc: Quantities, req: Quantities, stock: Stock)
  {
    && (forall m :: m in sc <==> m in req && req[m] > ValueOrZero(stock, m))
    && (forall m :: m in sc ==> sc[m] == req[m] - ValueOrZero(stock, m))
  }

  /** The materials of `req` that the stock covers. */
  ghost function Covered(req: Quantities, stock: Stock): set<Material>
  {
    set m | m in req && req[m] <= ValueOrZero(stock, m)
  }

  /** The shortage `forEach` of the effect (lines 116-122). */
  method ComputeShortage(req: Quantities, stock: Stock) returns (sc: Quantities)
    ensures IsShortageOf(sc, req, stock)
  {
    sc := map[];
    var todo := req.Keys;
    while todo != {}
      invariant todo <= req.Keys
      invariant forall m :: m in sc <==> m in req && m !in todo && req[m] > ValueOrZero(stock, m)
      invariant forall m :: m in sc ==> sc[m] == req[m] - ValueOrZero(stock, m)
      decreases todo
    {
      var m :| m in todo;
      var required := req[m];
      var available := ValueOrZero(stock, m);
      if required > available {
        sc := sc[m := required - available];
      }
      todo := todo - {m};
    }
  }

  /** The shortage table is determined by the requirement and stock tables. */
  lemma ShortageUnique(sc: Quantities, sc': Quantities, req: Quantities, stock: Stock)
    requires IsShortageOf(sc, req, stock) && IsShortageOf(sc', req, stock)
    ensures sc == sc'
  {
  }

  /**
    Every shortage is a required material with a positive missing quantity,
    and every required material is either short or covered, never both.
   */
  lemma ShortagePartition(sc: Quantities, req: Quantities, stock: Stock)
    requires IsShortageOf(sc, req, stock)
    ensures sc.Keys <= req.Keys
    ensures forall m :: m in sc ==> sc[m] > 0.0
    ensures sc.Keys !! Covered(req, stock)
    ensures req.Keys == sc.Keys + Covered(req, stock)
  {
  }

  /** `totalShortageItems` (line 129): the number of entries of the shortage table. */
  function ShortageItemCount(sc: Quantities): (r: nat)
    ensures r == 0 <==> sc == map[]
  {
    |sc|
  }

  /**
    "Available in Stock" (line 335): required materials minus shortage entries.
    When every short material is a required one, it counts the required
    materials that are not short, so it is never negative.
   */
  function AvailableInStock(req: Quantities, sc: Quantities): (r: int)
    ensures sc.Keys <= req.Keys ==> r == |req.Keys - sc.Keys| >= 0
  {
    |req| - |sc|
  }

  /**
    The summary counts: "Need to Purchase" counts the materials whose
    requirement exceeds stock, and "Available in Stock" counts the covered
    materials, so it is never negative and both add up to "Materials Needed".
   */
  lemma SummaryCounts(sc: Quantities, req: Quantities, stock: Stock)
    requires IsShortageOf(sc, req, stock)
    ensures AvailableInStock(req, sc) == |Covered(req, stock)| >= 0
    ensures ShortageItemCount(sc) + AvailableInStock(req, sc) == |req|
    ensures ShortageItemCount(sc) <= |req|
  {
    ShortagePartition(sc, req, stock);
    assert |req.Keys| == |sc.Keys| + |Covered(req, stock)|;
  }
}
