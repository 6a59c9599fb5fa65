/**
 * The FIFO batch ledger behind a sale: which batches a sale draws on
 * (oldest first, all or nothing), how the drawn quantities are deducted and
 * their realised margin booked, and when a depleted batch is finalised.
 */
module SaleBatches {
  import opened Wrappers
  import opened Sorting
  import opened Inventory
  import opened SaleRetry
  import opened SaleRecords

  function Min(a: int, b: int): int { if a <= b then a else b }

  // ---------------------------------------------------------------------
  // Selection: get_stock_batches_for_sale
  // ---------------------------------------------------------------------

  /** `WHERE product_id = ? AND store_id = ? AND is_active = 1 AND quantity > 0`. */
  predicate Eligible(b: Batch, productId: int, storeId: int) {
    b.productId == productId && b.storeId == storeId && b.isActive && b.quantity > 0
  }

  /** `ORDER BY received_date ASC, id ASC`. */
  predicate FifoLe(a: Batch, b: Batch) {
    a.receivedDate < b.receivedDate || (a.receivedDate == b.receivedDate && a.id <= b.id)
  }

  lemma FifoLeIsTotalPreorder()
    ensures TotalPreorder(FifoLe)
  {
  }

  /** The eligible rows, in table order. */
  function EligibleRows(rows: seq<Batch>, productId: int, storeId: int): (r: seq<Batch>)
    ensures forall b :: b in r <==> b in rows && Eligible(b, productId, storeId)
    ensures multiset(r) <= multiset(rows)
  {
    if |rows| == 0 then []
    else
      assert rows == [rows[0]] + rows[1..];
      (if Eligible(rows[0], productId, storeId) then [rows[0]] else [])
        + EligibleRows(rows[1..], productId, storeId)
  }

  /** The rows the selection query returns, in the order it returns them. */
  function SelectionQuery(rows: seq<Batch>, productId: int, storeId: int): (c: seq<Batch>)
    ensures forall b :: b in c <==> b in rows && Eligible(b, productId, storeId)
    ensures multiset(c) == multiset(EligibleRows(rows, productId, storeId))
    ensures SortedBy(c, FifoLe)
  {
    var e := EligibleRows(rows, productId, storeId);
    FifoLeIsTotalPreorder();
    SortBySorted(e, FifoLe);
    var c := SortBy(e, FifoLe);
    assert forall b :: b in c <==> b in multiset(c);
    c
  }

  /** One entry of `batches_to_update`: the batch's columns as selected plus the amount to draw. */
  datatype Allocation = Allocation(
    batchId: int,
    batchNumber: string,
    deduct: int,
    currentQuantity: int,
    landedCost: Option<real>,
    buyingPrice: real,
    shippingCost: Option<real>,
    handlingCost: Option<real>,
    expectedMargin: Option<real>,
    originalQuantity: Option<int>)

  function AllocationOf(b: Batch, deduct: int): (a: Allocation)
    ensures a.batchId == b.id && a.deduct == deduct && a.currentQuantity == b.quantity
    ensures a.landedCost == LandedCost(b) && a.originalQuantity == b.originalQuantity
  {
    Allocation(b.id, b.batchNumber, deduct, b.quantity, LandedCost(b), b.buyingPrice,
               b.shippingCost, b.handlingCost, b.expectedMargin, b.originalQuantity)
  }

  /** The total drawn by the first `n` entries of a plan. */
  function DeductedBefore(plan: seq<Allocation>, n: nat): int
    requires n <= |plan|
  {
    if n == 0 then 0 else DeductedBefore(plan, n - 1) + plan[n - 1].deduct
  }

  /** The total drawn by a plan. */
  function Deducted(plan: seq<Allocation>): int
  {
    DeductedBefore(plan, |plan|)
  }

  lemma {:induction false} DeductedBeforeAppend(plan: seq<Allocation>, a: Allocation, n: nat)
    requires n <= |plan|
    ensures DeductedBefore(plan + [a], n) == DeductedBefore(plan, n)
  {
    if n > 0 {
      DeductedBeforeAppend(plan, a, n - 1);
    }
  }

  /**
   * A FIFO plan for `qty` units over the candidates `c`: the i-th entry draws
   * `min(quantity, still needed)` from the i-th candidate, every entry draws
   * something and no more than its batch holds, every entry but the last
   * empties its batch, and the entries add up to exactly what was asked.
   */
  predicate IsFifoPlan(c: seq<Batch>, qty: int, plan: seq<Allocation>) {
    DrawsFrom(c, plan)
    && DrawsWithin(c, plan)
    && EmptiesBefore(c, plan, |plan| - 1)
    && Deducted(plan) == (if qty > 0 then qty else 0)
  }

  /** The i-th entry is taken from the i-th candidate. */
  predicate DrawsFrom(c: seq<Batch>, plan: seq<Allocation>) {
    |plan| <= |c|
    && forall i :: 0 <= i < |plan| ==> plan[i] == AllocationOf(c[i], plan[i].deduct)
  }

  /** The i-th entry draws `min(quantity, still needed)`. */
  predicate DrawsMinimum(c: seq<Batch>, qty: int, plan: seq<Allocation>)
    requires |plan| <= |c|
  {
    forall i :: 0 <= i < |plan| ==> plan[i].deduct == Min(c[i].quantity, qty - DeductedBefore(plan, i))
  }

  /** Every entry draws something and no more than its batch holds. */
  predicate DrawsWithin(c: seq<Batch>, plan: seq<Allocation>)
    requires |plan| <= |c|
  {
    forall i :: 0 <= i < |plan| ==> 0 < plan[i].deduct <= c[i].quantity
  }

  /** The entries before position `n` empty their batches. */
  predicate EmptiesBefore(c: seq<Batch>, plan: seq<Allocation>, n: int)
    requires |plan| <= |c|
  {
    forall i :: 0 <= i < n && i < |plan| ==> plan[i].deduct == c[i].quantity
  }

  predicate AllPositive(c: seq<Batch>) {
    forall i :: 0 <= i < |c| ==> c[i].quantity > 0
  }

  lemma {:induction false} TotalOfPositiveIsMonotone(c: seq<Batch>, i: nat)
    requires AllPositive(c) && i <= |c|
    ensures 0 <= TotalQuantity(c[..i]) <= TotalQuantity(c)
    decreases |c|
  {
    if |c| > 0 {
      if i == 0 {
        assert c[..i] == [];
        assert AllPositive(c[1..]);
        TotalOfPositiveIsMonotone(c[1..], 0);
      } else {
        assert c[..i][1..] == c[1..][..i - 1];
        assert AllPositive(c[1..]);
        TotalOfPositiveIsMonotone(c[1..], i - 1);
      }
    }
  }

  lemma TotalOfExtendedPrefix(c: seq<Batch>, i: nat)
    requires i < |c|
    ensures TotalQuantity(c[..i + 1]) == TotalQuantity(c[..i]) + c[i].quantity
  {
    assert c[..i + 1] == c[..i] + [c[i]];
    TotalQuantityAppend(c[..i], [c[i]]);
    assert TotalQuantity([c[i]]) == c[i].quantity;
  }

  lemma PlanAppend(plan: seq<Allocation>, a: Allocation)
    ensures Deducted(plan + [a]) == Deducted(plan) + a.deduct
  {
    DeductedBeforeAppend(plan, a, |plan|);
  }

  /** What holds after each round of the distribution loop, `remaining` being what is still needed. */
  predicate PlanSoFar(c: seq<Batch>, qty: int, plan: seq<Allocation>, remaining: int) {
    DrawsFrom(c, plan)
    && DrawsWithin(c, plan)
    && EmptiesBefore(c, plan, |plan| - 1)
    && remaining == qty - Deducted(plan)
    && (|plan| > 0 ==> remaining >= 0)
    && (remaining > 0 ==> EmptiesBefore(c, plan, |plan|) && Deducted(plan) == TotalQuantity(c[..|plan|]))
    && Deducted(plan) <= TotalQuantity(c[..|plan|])
  }

  lemma DrawsFromStep(c: seq<Batch>, plan: seq<Allocation>, a: Allocation)
    requires DrawsFrom(c, plan) && |plan| < |c| && a == AllocationOf(c[|plan|], a.deduct)
    ensures DrawsFrom(c, plan + [a])
  {
    var p := plan + [a];
    assert forall i :: 0 <= i < |plan| ==> p[i] == plan[i];
  }

  lemma DrawsWithinStep(c: seq<Batch>, plan: seq<Allocation>, a: Allocation)
    requires |plan| < |c| && DrawsWithin(c, plan) && 0 < a.deduct <= c[|plan|].quantity
    requires EmptiesBefore(c, plan, |plan|)
    ensures DrawsWithin(c, plan + [a])
    ensures EmptiesBefore(c, plan + [a], |plan|)
    ensures a.deduct == c[|plan|].quantity ==> EmptiesBefore(c, plan + [a], |plan| + 1)
  {
    var p := plan + [a];
    assert forall i :: 0 <= i < |plan| ==> p[i] == plan[i];
  }

  /** One round of the loop: draw `min(quantity, remaining)` from the next candidate. */
  lemma PlanStep(c: seq<Batch>, qty: int, plan: seq<Allocation>, remaining: int, a: Allocation)
    requires AllPositive(c) && |plan| < |c| && remaining > 0
    requires PlanSoFar(c, qty, plan, remaining)
    requires a == AllocationOf(c[|plan|], Min(c[|plan|].quantity, remaining))
    ensures PlanSoFar(c, qty, plan + [a], remaining - a.deduct)
  {
    var i := |plan|;
    PlanAppend(plan, a);
    DrawsFromStep(c, plan, a);
    DrawsWithinStep(c, plan, a);
    TotalOfExtendedPrefix(c, i);
    assert (plan + [a])[..i + 1] == plan + [a];
  }

  lemma {:induction false} DeductedBeforeGrows(plan: seq<Allocation>, n: nat, m: nat)
    requires n <= m <= |plan|
    requires forall i :: 0 <= i < |plan| ==> plan[i].deduct > 0
    ensures DeductedBefore(plan, n) <= DeductedBefore(plan, m)
    decreases m
  {
    if n < m {
      DeductedBeforeGrows(plan, n, m - 1);
    }
  }

  /**
   * A FIFO plan draws `min(quantity, still needed)` from each batch it
   * touches, which is the rule the loop applies.
   */
  lemma FifoPlanDrawsMinimum(c: seq<Batch>, qty: int, plan: seq<Allocation>)
    requires IsFifoPlan(c, qty, plan)
    ensures DrawsMinimum(c, qty, plan)
  {
    forall i | 0 <= i < |plan|
      ensures plan[i].deduct == Min(c[i].quantity, qty - DeductedBefore(plan, i))
    {
      DeductedBeforeGrows(plan, i + 1, |plan|);
      assert DeductedBefore(plan, i + 1) == DeductedBefore(plan, i) + plan[i].deduct;
      DeductedBeforeGrows(plan, 0, i);
      assert qty > 0 && Deducted(plan) == qty;
      if i == |plan| - 1 {
        assert qty - DeductedBefore(plan, i) == plan[i].deduct;
      } else {
        assert plan[i].deduct == c[i].quantity;
      }
    }
  }

  /** What the distribution loop has established once it stops. */
  lemma PlanOutcome(c: seq<Batch>, qty: int, plan: seq<Allocation>, remaining: int)
    requires AllPositive(c) && PlanSoFar(c, qty, plan, remaining)
    requires remaining > 0 ==> |plan| == |c|
    ensures remaining > 0 <==> TotalQuantity(c) < qty
    ensures remaining <= 0 ==> IsFifoPlan(c, qty, plan)
  {
    TotalOfPositiveIsMonotone(c, |plan|);
    if remaining > 0 {
      assert c[..|plan|] == c;
    }
  }

  /**
   * The distribution loop: walks the candidates oldest first, drawing
   * `min(quantity, remaining)` from each until nothing remains. `short`
   * reports that the candidates ran out first.
   */
  method PlanFifo(c: seq<Batch>, qty: int) returns (plan: seq<Allocation>, short: bool)
    requires AllPositive(c)
    ensures short <==> TotalQuantity(c) < qty
    ensures !short ==> IsFifoPlan(c, qty, plan)
  {
    var remaining := qty;
    plan := [];
    var i := 0;
    while i < |c|
      invariant 0 <= i <= |c| && |plan| == i
      invariant PlanSoFar(c, qty, plan, remaining)
    {
      if remaining <= 0 {
        break;
      }
      var a := AllocationOf(c[i], Min(c[i].quantity, remaining));
      PlanStep(c, qty, plan, remaining, a);
      plan := plan + [a];
      remaining := remaining - a.deduct;
      i := i + 1;
    }
    PlanOutcome(c, qty, plan, remaining);
    short := remaining > 0;
  }

  /**
   * `get_stock_batches_for_sale`: reads the table and never writes it. None
   * when the retry loop gives up, when no batch qualifies, or when all the
   * qualifying batches together hold less than is needed; otherwise the
   * FIFO plan.
   */
  method GetStockBatchesForSale(env: nat -> DbStatus, rows: seq<Batch>, productId: int, storeId: int, qty: int)
    returns (r: Option<seq<Allocation>>)
    ensures Granted(env, DefaultRetries).None? ==> r.None?
    ensures Granted(env, DefaultRetries).Some? ==>
      var c := SelectionQuery(rows, productId, storeId);
      (r.None? <==> |c| == 0 || TotalQuantity(c) < qty)
      && (r.Some? ==> IsFifoPlan(c, qty, r.value))
  {
    var granted, _ := AwaitDatabase(env, DefaultRetries);
    if granted.None? {
      return None;
    }
    var c := SelectionQuery(rows, productId, storeId);
    if |c| == 0 {
      return None;
    }
    assert AllPositive(c) by {
      forall i | 0 <= i < |c| ensures c[i].quantity > 0 {
        assert c[i] in c;
      }
    }
    var plan, short := PlanFifo(c, qty);
    if short {
      return None;
    }
    return Some(plan);
  }

  // ---------------------------------------------------------------------
  // Deduction: update_stock_batches_after_sale
  // ---------------------------------------------------------------------

  /** Every entry of the plan carries a landed cost (otherwise the margin raises TypeError). */
  predicate AllPriced(plan: seq<Allocation>) {
    forall i :: 0 <= i < |plan| ==> plan[i].landedCost.Some?
  }

  /** No two entries of the plan name the same batch. */
  predicate DistinctBatches(plan: seq<Allocation>) {
    forall i, j :: 0 <= i < j < |plan| ==> plan[i].batchId != plan[j].batchId
  }

  /** The realised margin per unit of one entry at the sale price. */
  function RealisedMargin(a: Allocation, price: real): real
    requires a.landedCost.Some?
  {
    price - a.landedCost.value
  }

  /**
   * The `UPDATE` one entry makes to its batch row: the quantity becomes the
   * selected snapshot less the amount drawn, the batch stays active only
   * while something is left, the margin is replaced by this sale's margin,
   * and this sale's profit is added to the profit so far (NULL counting as 0).
   */
  function DeductRow(b: Batch, a: Allocation, price: real): (r: Batch)
    requires a.landedCost.Some?
  {
    var newQuantity := a.currentQuantity - a.deduct;
    var margin := RealisedMargin(a, price);
    b.(quantity := newQuantity, isActive := newQuantity > 0, actualMargin := Some(margin),
       totalActualProfit := Some(b.totalActualProfit.GetOr(0.0) + margin * a.deduct as real))
  }

  /** The batch table after the plan's updates, applied in order. */
  function ApplyDeductions(rows: seq<Batch>, plan: seq<Allocation>, price: real): (r: seq<Batch>)
    requires AllPriced(plan)
    ensures |r| == |rows|
    decreases |plan|
  {
    if |plan| == 0 then rows
    else
      var last := plan[|plan| - 1];
      UpdateWhere(ApplyDeductions(rows, plan[..|plan| - 1], price), last.batchId,
                  b => DeductRow(b, last, price))
  }

  /** The accumulated `total_actual_profit` of the call: the sum of margin times amount drawn. */
  function SaleProfit(plan: seq<Allocation>, price: real): real
    requires AllPriced(plan)
  {
    if |plan| == 0 then 0.0
    else
      var last := plan[|plan| - 1];
      SaleProfit(plan[..|plan| - 1], price) + RealisedMargin(last, price) * last.deduct as real
  }

  /** The plan's entry for a batch, if it has one. */
  function EntryFor(plan: seq<Allocation>, batchId: int): (e: Option<Allocation>)
    ensures e.Some? ==> e.value in plan && e.value.batchId == batchId
    ensures e.None? ==> forall i :: 0 <= i < |plan| ==> plan[i].batchId != batchId
  {
    if |plan| == 0 then None
    else if plan[|plan| - 1].batchId == batchId then Some(plan[|plan| - 1])
    else EntryFor(plan[..|plan| - 1], batchId)
  }

  lemma PrefixKeepsPlanProperties(plan: seq<Allocation>)
    requires |plan| > 0 && AllPriced(plan) && DistinctBatches(plan)
    ensures AllPriced(plan[..|plan| - 1]) && DistinctBatches(plan[..|plan| - 1])
    ensures forall i :: 0 <= i < |plan| - 1 ==> plan[..|plan| - 1][i] == plan[i]
  {
  }

  /**
   * The effect of the deduction on every row: a row whose batch the plan
   * draws on is updated from that entry's snapshot; every other row is left
   * as it was.
   */
  lemma {:induction false} DeductionEffect(rows: seq<Batch>, plan: seq<Allocation>, price: real, k: nat)
    requires AllPriced(plan) && DistinctBatches(plan) && k < |rows|
    ensures ApplyDeductions(rows, plan, price)[k] ==
      match EntryFor(plan, rows[k].id)
      case None => rows[k]
      case Some(a) => DeductRow(rows[k], a, price)
    decreases |plan|
  {
    if |plan| > 0 {
      var init := plan[..|plan| - 1];
      var last := plan[|plan| - 1];
      PrefixKeepsPlanProperties(plan);
      DeductionEffect(rows, init, price, k);
      if last.batchId == rows[k].id {
        assert EntryFor(init, rows[k].id).None? by {
          forall i | 0 <= i < |init| ensures init[i].batchId != rows[k].id {
            assert init[i] == plan[i];
          }
        }
      }
    }
  }

  /**
   * The realised margin is overwritten by each sale, while the profit
   * accumulates; and the quantity comes from the second snapshot alone, so a
   * second deduction from the same snapshot loses the first.
   */
  lemma RepeatedDeduction(b: Batch, a1: Allocation, a2: Allocation, p1: real, p2: real)
    requires a1.landedCost.Some? && a2.landedCost.Some?
    ensures var r := DeductRow(DeductRow(b, a1, p1), a2, p2);
      r.actualMargin == Some(p2 - a2.landedCost.value)
      && r.totalActualProfit.Some?
      && r.totalActualProfit.value == b.totalActualProfit.GetOr(0.0)
           + (p1 - a1.landedCost.value) * (a1.deduct as real) + (p2 - a2.landedCost.value) * (a2.deduct as real)
      && r.quantity == a2.currentQuantity - a2.deduct
  {
    var r1 := DeductRow(b, a1, p1);
    assert r1.totalActualProfit.value == b.totalActualProfit.GetOr(0.0) + (p1 - a1.landedCost.value) * (a1.deduct as real);
  }

  /**
   * `update_stock_batches_after_sale`: inside the retry loop, applies the
   * plan's updates and commits them together, returning the summed profit.
   * A missing landed cost raises before the commit, so nothing is written.
   */
  method UpdateStockBatchesAfterSale(db: InventoryDb, env: nat -> DbStatus, plan: seq<Allocation>,
                                     price: real, totalQuantity: int) returns (r: Option<real>)
    modifies db
    ensures r.Some? <==> Granted(env, DeductionRetries).Some? && AllPriced(plan)
    ensures r.Some? ==> db.batches == ApplyDeductions(old(db.batches), plan, price)
                        && r.value == SaleProfit(plan, price)
    ensures r.None? ==> db.batches == old(db.batches)
    ensures db.products == old(db.products)
  {
    var granted, _ := AwaitDatabase(env, DeductionRetries);
    if granted.None? {
      return None;
    }
    var rows := db.batches;
    var total := 0.0;
    var i := 0;
    while i < |plan|
      invariant 0 <= i <= |plan|
      invariant AllPriced(plan[..i])
      invariant rows == ApplyDeductions(db.batches, plan[..i], price)
      invariant total == SaleProfit(plan[..i], price)
    {
      var a := plan[i];
      if a.landedCost.None? {
        return None;
      }
      assert plan[..i + 1][..i] == plan[..i];
      var margin := RealisedMargin(a, price);
      rows := UpdateWhere(rows, a.batchId, b => DeductRow(b, a, price));
      total := total + margin * a.deduct as real;
      i := i + 1;
    }
    assert plan[..i] == plan;
    db.batches := rows;
    return Some(total);
  }

  // ---------------------------------------------------------------------
  // Finalisation: calculate_batch_profit
  // ---------------------------------------------------------------------

  /** What finalising one batch row does. */
  datatype Finalisation = NoWrite | Write(margin: real, profit: real) | Fails

  /**
   * The rule for one row: only an empty batch whose profit is still NULL is
   * written, with the realised margin (or the expected one when that is
   * NULL) times the original quantity; a NULL original quantity makes the
   * multiplication raise.
   */
  function FinaliseRule(b: Batch): (f: Finalisation)
  {
    if b.quantity != 0 then NoWrite
    else
      var margin := if b.actualMargin.Some? then b.actualMargin else b.expectedMargin;
      if b.totalActualProfit.None? && margin.Some? then
        if b.originalQuantity.None? then Fails
        else Write(margin.value, margin.value * b.originalQuantity.value as real)
      else NoWrite
  }

  /** The table after `calculate_batch_profit(id)`, or None when it returns False. */
  function Finalise(rows: seq<Batch>, id: int): (r: Option<seq<Batch>>)
  {
    match FindBatch(rows, id)
    case None => None
    case Some(b) =>
      match FinaliseRule(b)
      case Fails => None
      case NoWrite => Some(rows)
      case Write(m, p) => Some(UpdateWhere(rows, id, (x: Batch) => x.(actualMargin := Some(m), totalActualProfit := Some(p))))
  }

  /**
   * Finalisation writes only an empty batch whose profit is NULL, and then
   * sets the margin to the realised margin, or the expected one when that is
   * NULL, and the profit to that margin times the original quantity.
   */
  lemma {:induction false} FinaliseWritesOnlyEmptyUnprofitedBatch(rows: seq<Batch>, id: int)
    requires Finalise(rows, id).Some? && Finalise(rows, id).value != rows
    ensures FindBatch(rows, id).Some?
    ensures var b := FindBatch(rows, id).value;
      b.quantity == 0 && b.totalActualProfit.None? && b.originalQuantity.Some?
      && (b.actualMargin.Some? || b.expectedMargin.Some?)
    ensures var b := FindBatch(rows, id).value;
      var m := if b.actualMargin.Some? then b.actualMargin.value else b.expectedMargin.value;
      var w := FinaliseRule(b);
      w.Write? && w.margin == m && w.profit == m * (b.originalQuantity.value as real)
      && forall k :: 0 <= k < |rows| ==>
           Finalise(rows, id).value[k] ==
             if rows[k].id == id
             then rows[k].(actualMargin := Some(w.margin), totalActualProfit := Some(w.profit))
             else rows[k]
  {
    var b := FindBatch(rows, id).value;
    match FinaliseRule(b)
    case Write(m, p) =>
      WriteRuleShape(b);
      WrittenRows(rows, id);
    case NoWrite =>
      assert false;
  }

  /** When the rule writes, every row with the id gets the rule's margin and profit and the others stay. */
  lemma WrittenRows(rows: seq<Batch>, id: int)
    requires FindBatch(rows, id).Some? && FinaliseRule(FindBatch(rows, id).value).Write?
    ensures var w := FinaliseRule(FindBatch(rows, id).value);
      Finalise(rows, id).Some? && |Finalise(rows, id).value| == |rows|
      && forall k :: 0 <= k < |rows| ==>
           Finalise(rows, id).value[k] ==
             if rows[k].id == id
             then rows[k].(actualMargin := Some(w.margin), totalActualProfit := Some(w.profit))
             else rows[k]
  {
    var w := FinaliseRule(FindBatch(rows, id).value);
    var f := (x: Batch) => x.(actualMargin := Some(w.margin), totalActualProfit := Some(w.profit));
    var u := UpdateWhere(rows, id, f);
    assert Finalise(rows, id).value == u;
    forall k | 0 <= k < |rows|
      ensures u[k] == if rows[k].id == id then rows[k].(actualMargin := Some(w.margin), totalActualProfit := Some(w.profit)) else rows[k]
    {
      assert u[k] == if rows[k].id == id then f(rows[k]) else rows[k];
    }
  }

  /** The rule writes only for an empty batch with NULL profit, a known original quantity and some margin. */
  lemma WriteRuleShape(b: Batch)
    requires FinaliseRule(b).Write?
    ensures b.quantity == 0 && b.totalActualProfit.None? && b.originalQuantity.Some?
    ensures b.actualMargin.Some? || b.expectedMargin.Some?
    ensures var m := if b.actualMargin.Some? then b.actualMargin.value else b.expectedMargin.value;
      FinaliseRule(b).margin == m && FinaliseRule(b).profit == m * (b.originalQuantity.value as real)
  {
  }

  /** A batch that already has a profit is never overwritten. */
  lemma FinaliseNeverOverwritesProfit(rows: seq<Batch>, id: int)
    requires FindBatch(rows, id).Some? && FindBatch(rows, id).value.totalActualProfit.Some?
    ensures Finalise(rows, id) == Some(rows)
  {
  }

  lemma {:induction false} FindAfterUpdate(rows: seq<Batch>, id: int, f: Batch -> Batch)
    requires FindBatch(rows, id).Some?
    requires f(FindBatch(rows, id).value).id == id
    ensures FindBatch(UpdateWhere(rows, id, f), id) == Some(f(FindBatch(rows, id).value))
  {
    var u := UpdateWhere(rows, id, f);
    if rows[0].id != id {
      assert u[1..] == UpdateWhere(rows[1..], id, f);
      FindAfterUpdate(rows[1..], id, f);
    }
  }

  /** Finalising twice is the same as finalising once. */
  lemma FinaliseIdempotent(rows: seq<Batch>, id: int)
    requires Finalise(rows, id).Some?
    ensures Finalise(Finalise(rows, id).value, id) == Finalise(rows, id)
  {
    var b := FindBatch(rows, id).value;
    match FinaliseRule(b)
    case NoWrite =>
    case Write(m, p) =>
      var f := (x: Batch) => x.(actualMargin := Some(m), totalActualProfit := Some(p));
      FindAfterUpdate(rows, id, f);
      var u := UpdateWhere(rows, id, f);
      assert FinaliseRule(f(b)) == NoWrite;
  }

  lemma FindBatchIndex(rows: seq<Batch>, id: int) returns (k: nat)
    requires FindBatch(rows, id).Some?
    ensures k < |rows| && rows[k] == FindBatch(rows, id).value
  {
    if rows[0].id == id {
      k := 0;
    } else {
      var j := FindBatchIndex(rows[1..], id);
      k := j + 1;
    }
  }

  /**
   * After a sale has drawn on a batch, finalising that batch writes
   * nothing: the deduction has already set its profit.
   */
  lemma {:induction false} FinaliseAfterDeductionWritesNothing(rows: seq<Batch>, plan: seq<Allocation>, price: real, id: int)
    requires AllPriced(plan) && DistinctBatches(plan) && EntryFor(plan, id).Some?
    requires exists k :: 0 <= k < |rows| && rows[k].id == id
    ensures Finalise(ApplyDeductions(rows, plan, price), id) == Some(ApplyDeductions(rows, plan, price))
  {
    var after := ApplyDeductions(rows, plan, price);
    var k0 :| 0 <= k0 < |rows| && rows[k0].id == id;
    DeductionEffect(rows, plan, price, k0);
    assert after[k0].id == id;
    var k := FindBatchIndex(after, id);
    DeductionEffect(rows, plan, price, k);
    assert after[k].totalActualProfit.Some?;
  }

  /**
   * `calculate_batch_profit`: inside the retry loop, reads the row and, when
   * the rule says so, writes and commits the final margin and profit.
   */
  method CalculateBatchProfit(db: InventoryDb, env: nat -> DbStatus, id: int) returns (ok: bool)
    modifies db
    ensures ok <==> Granted(env, DefaultRetries).Some? && Finalise(old(db.batches), id).Some?
    ensures ok ==> db.batches == Finalise(old(db.batches), id).value
    ensures !ok ==> db.batches == old(db.batches)
    ensures db.products == old(db.products)
  {
    var granted, _ := AwaitDatabase(env, DefaultRetries);
    if granted.None? {
      return false;
    }
    var found := FindBatch(db.batches, id);
    if found.None? {
      return false;
    }
    var b := found.value;
    match FinaliseRule(b)
    case Fails =>
      return false;
    case NoWrite =>
      return true;
    case Write(m, p) =>
      db.batches := UpdateWhere(db.batches, id, (x: Batch) => x.(actualMargin := Some(m), totalActualProfit := Some(p)));
      return true;
  }
}
