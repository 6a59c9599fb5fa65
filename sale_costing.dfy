/**
 * The cost price booked for each sold line (`calculate_sale_profit`): the
 * allocation-weighted average landed cost of the batches the line drew on,
 * or, when none of them has a known landed cost, the plain average over the
 * product's active priced batches (`calculate_fallback_cost_price`).
 */
module SaleCosting {
  import opened Wrappers
  import opened Inventory
  import opened SaleRetry
  import opened SaleRecords

  /** `SELECT batch_id, quantity FROM sale_batch_allocations WHERE sale_id = ? AND product_id = ?`. */
  function AllocationsFor(records: seq<AllocationRecord>, saleId: int, productId: int): (r: seq<AllocationRecord>)
    ensures forall x :: x in r <==> x in records && x.saleId == saleId && x.productId == productId
    ensures |r| <= |records|
  {
    if |records| == 0 then []
    else
      assert records == [records[0]] + records[1..];
      var rest := AllocationsFor(records[1..], saleId, productId);
      if records[0].saleId == saleId && records[0].productId == productId then [records[0]] + rest else rest
  }

  /** `SELECT landed_cost FROM stock_batches WHERE id = ?`: None when the row is missing or the cost is NULL. */
  function AllocatedCost(batches: seq<Batch>, a: AllocationRecord): Option<real>
  {
    match FindBatch(batches, a.batchId)
    case None => None
    case Some(b) => LandedCost(b)
  }

  /** One allocation whose batch has a known landed cost: that cost and the quantity drawn. */
  datatype Draw = Draw(cost: real, quantity: int)

  /** The allocations that count towards the average, in the order they are read. */
  function PricedDraws(allocs: seq<AllocationRecord>, batches: seq<Batch>): (r: seq<Draw>)
    ensures |r| <= |allocs|
  {
    if |allocs| == 0 then []
    else
      var a := allocs[|allocs| - 1];
      PricedDraws(allocs[..|allocs| - 1], batches)
        + match AllocatedCost(batches, a) case None => [] case Some(c) => [Draw(c, a.quantity)]
  }

  /** What one draw adds to `total_cost`: its landed cost times its quantity. */
  function Weighted(d: Draw): real {
    d.cost * (d.quantity as real)
  }

  /** `total_cost`: landed cost times quantity, summed. */
  function DrawCost(ds: seq<Draw>): real
  {
    if |ds| == 0 then 0.0 else DrawCost(ds[..|ds| - 1]) + Weighted(ds[|ds| - 1])
  }

  /** `total_allocated_quantity`: the quantities, summed. */
  function DrawQuantity(ds: seq<Draw>): int
  {
    if |ds| == 0 then 0 else DrawQuantity(ds[..|ds| - 1]) + ds[|ds| - 1].quantity
  }

  lemma DrawsAppend(ds: seq<Draw>, d: Draw)
    ensures DrawCost(ds + [d]) == DrawCost(ds) + Weighted(d)
    ensures DrawQuantity(ds + [d]) == DrawQuantity(ds) + d.quantity
  {
    assert (ds + [d])[..|ds|] == ds;
  }

  /** The draws of one more allocation record. */
  function DrawsOf(batches: seq<Batch>, a: AllocationRecord): (r: seq<Draw>)
  {
    match AllocatedCost(batches, a) case None => [] case Some(c) => [Draw(c, a.quantity)]
  }

  lemma PricedDrawsStep(allocs: seq<AllocationRecord>, batches: seq<Batch>, i: nat)
    requires i < |allocs|
    ensures PricedDraws(allocs[..i + 1], batches) == PricedDraws(allocs[..i], batches) + DrawsOf(batches, allocs[i])
  {
    assert allocs[..i + 1][..i] == allocs[..i];
  }

  /** The inner loop of `calculate_sale_profit` over one line's allocations. */
  method SumAllocatedCosts(allocs: seq<AllocationRecord>, batches: seq<Batch>)
    returns (totalCost: real, totalQuantity: int)
    ensures totalCost == DrawCost(PricedDraws(allocs, batches))
    ensures totalQuantity == DrawQuantity(PricedDraws(allocs, batches))
  {
    totalCost := 0.0;
    totalQuantity := 0;
    for i := 0 to |allocs|
      invariant TotalsOf(allocs[..i], batches, totalCost, totalQuantity)
    {
      var landed := AllocatedCost(batches, allocs[i]);
      TotalsStep(allocs, batches, i, totalCost, totalQuantity);
      if landed.Some? {
        var d := Draw(landed.value, allocs[i].quantity);
        totalCost := totalCost + Weighted(d);
        totalQuantity := totalQuantity + d.quantity;
      }
    }
    assert allocs[..|allocs|] == allocs;
  }

  /** `cost` and `quantity` are the totals of the priced draws of `allocs`. */
  predicate TotalsOf(allocs: seq<AllocationRecord>, batches: seq<Batch>, cost: real, quantity: int) {
    cost == DrawCost(PricedDraws(allocs, batches)) && quantity == DrawQuantity(PricedDraws(allocs, batches))
  }

  /** One more allocation adds its draw to the totals when its batch has a known landed cost, and nothing otherwise. */
  lemma TotalsStep(allocs: seq<AllocationRecord>, batches: seq<Batch>, i: nat, cost: real, quantity: int)
    requires i < |allocs| && TotalsOf(allocs[..i], batches, cost, quantity)
    ensures var landed := AllocatedCost(batches, allocs[i]);
      && (landed.None? ==> TotalsOf(allocs[..i + 1], batches, cost, quantity))
      && (landed.Some? ==>
            var d := Draw(landed.value, allocs[i].quantity);
            TotalsOf(allocs[..i + 1], batches, cost + Weighted(d), quantity + d.quantity))
  {
    var before := PricedDraws(allocs[..i], batches);
    PricedDrawsStep(allocs, batches, i);
    var landed := AllocatedCost(batches, allocs[i]);
    if landed.Some? {
      DrawsAppend(before, Draw(landed.value, allocs[i].quantity));
    } else {
      assert before + [] == before;
    }
  }

  /** `WHERE product_id = ? AND is_active = 1 AND landed_cost IS NOT NULL` (no store filter). */
  predicate FallbackEligible(b: Batch, productId: int) {
    b.productId == productId && b.isActive && LandedCost(b).Some?
  }

  /** The landed costs the fallback query averages, in table order. */
  function FallbackCosts(batches: seq<Batch>, productId: int): (r: seq<real>)
    ensures |r| <= |batches|
  {
    if |batches| == 0 then []
    else
      (if FallbackEligible(batches[0], productId) then [LandedCost(batches[0]).value] else [])
        + FallbackCosts(batches[1..], productId)
  }

  function Sum(xs: seq<real>): real
  {
    if |xs| == 0 then 0.0 else xs[0] + Sum(xs[1..])
  }

  /** `AVG(landed_cost)`, and 0 when the average is NULL because no row qualifies. */
  function FallbackCost(batches: seq<Batch>, productId: int): real
  {
    var xs := FallbackCosts(batches, productId);
    if |xs| == 0 then 0.0 else Sum(xs) / (|xs| as real)
  }

  /** The cost price `calculate_sale_profit` books for one sold product. */
  function CostPrice(records: seq<AllocationRecord>, batches: seq<Batch>, saleId: int, productId: int): real
  {
    var allocs := AllocationsFor(records, saleId, productId);
    if |allocs| == 0 then FallbackCost(batches, productId)
    else
      var ds := PricedDraws(allocs, batches);
      var q := DrawQuantity(ds);
      if q > 0 then DrawCost(ds) / (q as real)
      else FallbackCost(batches, productId)
  }

  // ---------------------------------------------------------------------
  // Properties of the cost price
  // ---------------------------------------------------------------------

  lemma MulCancel(x: real, y: real, q: real)
    requires q > 0.0 && x * q <= y * q
    ensures x <= y
  {
  }

  lemma MulBetween(lo: real, c: real, hi: real, q: real)
    requires lo <= c <= hi && q >= 0.0
    ensures lo * q <= c * q <= hi * q
  {
  }

  lemma MulDistributes(x: real, a: real, b: real)
    ensures x * (a + b) == x * a + x * b
  {
  }

  /** One more term `c * q` with `c` in `[lo, hi]` keeps a total between `lo` and `hi` times its weight. */
  lemma BoundStep(lo: real, hi: real, total: real, weight: real, c: real, q: real)
    requires lo * weight <= total <= hi * weight && lo <= c <= hi && q >= 0.0
    ensures lo * (weight + q) <= total + c * q <= hi * (weight + q)
  {
    MulBetween(lo, c, hi, q);
    MulDistributes(lo, weight, q);
    MulDistributes(hi, weight, q);
  }

  /** A quotient of a sum bounded by `lo * q` and `hi * q` lies between `lo` and `hi`. */
  lemma QuotientBetween(total: real, q: real, lo: real, hi: real)
    requires q > 0.0 && lo * q <= total <= hi * q
    ensures lo <= total / q <= hi
  {
    var avg := total / q;
    assert avg * q == total;
    MulCancel(lo, avg, q);
    MulCancel(avg, hi, q);
  }

  /** Every draw has a non-negative quantity and a cost in `[lo, hi]`. */
  predicate DrawsBetween(ds: seq<Draw>, lo: real, hi: real) {
    forall i :: 0 <= i < |ds| ==> ds[i].quantity >= 0 && lo <= ds[i].cost <= hi
  }

  lemma {:induction false} DrawTotalsBetween(ds: seq<Draw>, lo: real, hi: real)
    requires DrawsBetween(ds, lo, hi)
    ensures lo * (DrawQuantity(ds) as real) <= DrawCost(ds) <= hi * (DrawQuantity(ds) as real)
  {
    if |ds| > 0 {
      var init := ds[..|ds| - 1];
      var d := ds[|ds| - 1];
      assert DrawsBetween(init, lo, hi) by {
        forall i | 0 <= i < |init| ensures init[i] == ds[i] { }
      }
      DrawTotalsBetween(init, lo, hi);
      BoundStep(lo, hi, DrawCost(init), DrawQuantity(init) as real, d.cost, d.quantity as real);
    }
  }

  /** The weighted average of draws whose costs lie in `[lo, hi]` lies there too. */
  lemma AverageBetween(ds: seq<Draw>, lo: real, hi: real)
    requires DrawsBetween(ds, lo, hi) && DrawQuantity(ds) > 0
    ensures lo <= DrawCost(ds) / (DrawQuantity(ds) as real) <= hi
  {
    DrawTotalsBetween(ds, lo, hi);
    QuotientBetween(DrawCost(ds), DrawQuantity(ds) as real, lo, hi);
  }

  /**
   * When some allocated batch has a known cost, the booked cost price is a
   * weighted average: it lies between the cheapest and the dearest of the
   * allocated landed costs.
   */
  lemma CostPriceWithinAllocatedCosts(records: seq<AllocationRecord>, batches: seq<Batch>,
                                      saleId: int, productId: int, lo: real, hi: real)
    requires var ds := PricedDraws(AllocationsFor(records, saleId, productId), batches);
      DrawsBetween(ds, lo, hi) && DrawQuantity(ds) > 0
    ensures lo <= CostPrice(records, batches, saleId, productId) <= hi
  {
    var allocs := AllocationsFor(records, saleId, productId);
    var ds := PricedDraws(allocs, batches);
    assert |allocs| > 0;
    AverageBetween(ds, lo, hi);
  }

  /** When every allocated batch of known cost has the same landed cost, that is the cost price. */
  lemma UniformCostIsCostPrice(records: seq<AllocationRecord>, batches: seq<Batch>,
                               saleId: int, productId: int, c: real)
    requires var ds := PricedDraws(AllocationsFor(records, saleId, productId), batches);
      DrawsBetween(ds, c, c) && DrawQuantity(ds) > 0
    ensures CostPrice(records, batches, saleId, productId) == c
  {
    CostPriceWithinAllocatedCosts(records, batches, saleId, productId, c, c);
  }

  /** Without a positive quantity of known cost, the fallback average is booked. */
  lemma CostPriceFallsBack(records: seq<AllocationRecord>, batches: seq<Batch>, saleId: int, productId: int)
    requires DrawQuantity(PricedDraws(AllocationsFor(records, saleId, productId), batches)) <= 0
    ensures CostPrice(records, batches, saleId, productId) == FallbackCost(batches, productId)
  {
  }

  /** Every value lies in `[lo, hi]`. */
  predicate AllBetween(xs: seq<real>, lo: real, hi: real) {
    forall i :: 0 <= i < |xs| ==> lo <= xs[i] <= hi
  }

  lemma {:induction false} SumBetween(xs: seq<real>, lo: real, hi: real)
    requires AllBetween(xs, lo, hi)
    ensures lo * (|xs| as real) <= Sum(xs) <= hi * (|xs| as real)
  {
    if |xs| > 0 {
      assert AllBetween(xs[1..], lo, hi) by {
        forall i | 0 <= i < |xs[1..]| ensures xs[1..][i] == xs[i + 1] { }
      }
      SumBetween(xs[1..], lo, hi);
      BoundStep(lo, hi, Sum(xs[1..]), |xs[1..]| as real, xs[0], 1.0);
    }
  }

  /**
   * The fallback is 0 when no active batch of the product has a known
   * landed cost, and otherwise lies between their cheapest and dearest.
   */
  lemma FallbackCostBounds(batches: seq<Batch>, productId: int, lo: real, hi: real)
    requires AllBetween(FallbackCosts(batches, productId), lo, hi)
    ensures |FallbackCosts(batches, productId)| == 0 ==> FallbackCost(batches, productId) == 0.0
    ensures |FallbackCosts(batches, productId)| > 0 ==> lo <= FallbackCost(batches, productId) <= hi
  {
    var xs := FallbackCosts(batches, productId);
    if |xs| > 0 {
      SumBetween(xs, lo, hi);
      QuotientBetween(Sum(xs), |xs| as real, lo, hi);
    }
  }

  /** The same rows with every batch moved to store `storeId`. */
  function InStore(batches: seq<Batch>, storeId: int): (r: seq<Batch>)
    ensures |r| == |batches|
    ensures forall k :: 0 <= k < |batches| ==> r[k] == batches[k].(storeId := storeId)
  {
    seq(|batches|, k requires 0 <= k < |batches| => batches[k].(storeId := storeId))
  }

  /** The fallback does not look at stores: batches of every store are averaged alike. */
  lemma {:induction false} FallbackIgnoresStore(batches: seq<Batch>, productId: int, storeId: int)
    ensures FallbackCosts(InStore(batches, storeId), productId) == FallbackCosts(batches, productId)
  {
    if |batches| > 0 {
      assert InStore(batches, storeId)[1..] == InStore(batches[1..], storeId);
      FallbackIgnoresStore(batches[1..], productId, storeId);
    }
  }

  // ---------------------------------------------------------------------
  // Writing the cost prices
  // ---------------------------------------------------------------------

  /** `UPDATE sale_items SET cost_price = ? WHERE sale_id = ? AND product_id = ?`. */
  function SetCost(items: seq<SaleItemRecord>, saleId: int, productId: int, cost: real): (r: seq<SaleItemRecord>)
    ensures |r| == |items|
    ensures forall k :: 0 <= k < |items| ==>
      r[k] == if items[k].saleId == saleId && items[k].productId == productId
              then items[k].(costPrice := Some(cost)) else items[k]
  {
    seq(|items|, k requires 0 <= k < |items| =>
      if items[k].saleId == saleId && items[k].productId == productId
      then items[k].(costPrice := Some(cost)) else items[k])
  }

  /** The `sale_items` table after one update per cart line, in cart order. */
  function CostItems(items: seq<SaleItemRecord>, records: seq<AllocationRecord>, batches: seq<Batch>,
                     saleId: int, productIds: seq<int>): (r: seq<SaleItemRecord>)
    ensures |r| == |items|
  {
    if |productIds| == 0 then items
    else
      var pid := productIds[|productIds| - 1];
      SetCost(CostItems(items, records, batches, saleId, productIds[..|productIds| - 1]),
              saleId, pid, CostPrice(records, batches, saleId, pid))
  }

  /**
   * Each line of the sale whose product is in the cart gets that product's
   * cost price; every other line is left alone. A product listed twice gets
   * the same price twice, so the order of the cart does not matter.
   */
  lemma {:induction false} CostItemsEffect(items: seq<SaleItemRecord>, records: seq<AllocationRecord>,
                                           batches: seq<Batch>, saleId: int, productIds: seq<int>, k: nat)
    requires k < |items|
    ensures CostItems(items, records, batches, saleId, productIds)[k] ==
      if items[k].saleId == saleId && items[k].productId in productIds
      then items[k].(costPrice := Some(CostPrice(records, batches, saleId, items[k].productId)))
      else items[k]
  {
    if |productIds| > 0 {
      var init := productIds[..|productIds| - 1];
      assert productIds == init + [productIds[|productIds| - 1]];
      CostItemsEffect(items, records, batches, saleId, init, k);
    }
  }

  /** After costing, a line's profit column is its unit price less the booked cost price. */
  lemma CostedLineProfit(items: seq<SaleItemRecord>, records: seq<AllocationRecord>,
                         batches: seq<Batch>, saleId: int, productIds: seq<int>, k: nat)
    requires k < |items| && items[k].saleId == saleId && items[k].productId in productIds
    ensures var line := CostItems(items, records, batches, saleId, productIds)[k];
      ItemProfit(line) == Some(items[k].unitPrice - CostPrice(records, batches, saleId, items[k].productId))
  {
    CostItemsEffect(items, records, batches, saleId, productIds, k);
  }

  /** The cost price computation for one cart line. */
  method LineCostPrice(records: seq<AllocationRecord>, batches: seq<Batch>, saleId: int, productId: int)
    returns (cost: real)
    ensures cost == CostPrice(records, batches, saleId, productId)
  {
    var allocs := AllocationsFor(records, saleId, productId);
    if |allocs| == 0 {
      cost := FallbackCost(batches, productId);
    } else {
      var totalCost, totalQuantity := SumAllocatedCosts(allocs, batches);
      if totalQuantity > 0 {
        cost := totalCost / (totalQuantity as real);
      } else {
        cost := FallbackCost(batches, productId);
      }
    }
  }

  /**
   * `calculate_sale_profit`: gives up when the allocation table cannot be
   * ensured (`tableReady` false) or the retry loop gives up; otherwise books
   * every cart line's cost price and commits them together.
   */
  method CalculateSaleProfit(db: SalesDb, batches: seq<Batch>, env: nat -> DbStatus, tableReady: bool,
                             saleId: int, productIds: seq<int>) returns (ok: bool)
    modifies db
    ensures ok <==> tableReady && Granted(env, DefaultRetries).Some?
    ensures ok ==> db.items == CostItems(old(db.items), old(db.allocations), batches, saleId, productIds)
    ensures !ok ==> db.items == old(db.items)
    ensures db.sales == old(db.sales) && db.allocations == old(db.allocations)
  {
    if !tableReady {
      return false;
    }
    var granted, _ := AwaitDatabase(env, DefaultRetries);
    if granted.None? {
      return false;
    }
    var items := db.items;
    var i := 0;
    while i < |productIds|
      invariant 0 <= i <= |productIds|
      invariant unchanged(db)
      invariant items == CostItems(db.items, db.allocations, batches, saleId, productIds[..i])
    {
      var pid := productIds[i];
      var cost := LineCostPrice(db.allocations, batches, saleId, pid);
      assert productIds[..i + 1][..i] == productIds[..i];
      items := SetCost(items, saleId, pid, cost);
      i := i + 1;
    }
    assert productIds[..i] == productIds;
    db.items := items;
    return true;
  }
}
