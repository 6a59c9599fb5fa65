/**
 * The arithmetic of manual product entry: stock and low-stock threshold
 * cascades of a new multi-unit product, the checks on a smaller unit, the
 * stock totals after adding or editing a batch, and the batch and links
 * written when a unit is added to an existing structure.
 *
 * A multi-unit product is a chain of units from the largest down;
 * `relations[i]` is how many units i+1 make one unit i.
 */
module ManualEntry {
  import opened Wrappers
  import opened Rounding
  import opened Inventory
  import opened CostCalculation

  // ---------------------------------------------------------------------
  // Cascades down the chain
  // ---------------------------------------------------------------------

  /** The product of the first `n` relations: how many units n make one largest unit. */
  function ChainFactor(relations: seq<int>, n: nat): int
    requires n <= |relations|
  {
    if n == 0 then 1 else ChainFactor(relations, n - 1) * relations[n - 1]
  }

  /** The value of every unit of the chain, given the largest unit's value. */
  function Cascade(top: int, relations: seq<int>): (s: seq<int>)
    ensures |s| == |relations| + 1
    ensures forall i :: 0 <= i < |s| ==> s[i] == top * ChainFactor(relations, i)
  {
    seq(|relations| + 1, i requires 0 <= i <= |relations| => top * ChainFactor(relations, i))
  }

  /** Each unit's value is its parent's times the relation between them. */
  lemma CascadeStep(top: int, relations: seq<int>, i: nat)
    requires i < |relations|
    ensures Cascade(top, relations)[i + 1] == Cascade(top, relations)[i] * relations[i]
  {
    var s := Cascade(top, relations);
    calc {
      s[i + 1];
      top * (ChainFactor(relations, i) * relations[i]);
      (top * ChainFactor(relations, i)) * relations[i];
    }
  }

  lemma {:induction false} ChainFactorPositive(relations: seq<int>, n: nat)
    requires n <= |relations|
    requires forall i :: 0 <= i < |relations| ==> relations[i] > 0
    ensures ChainFactor(relations, n) > 0
  {
    if n > 0 {
      ChainFactorPositive(relations, n - 1);
      var f := ChainFactor(relations, n - 1);
      assert f * relations[n - 1] >= f * 1;
    }
  }

  /**
   * With accepted (positive) relations, a positive top value stays positive
   * on every unit, and a threshold not above the stock stays not above it.
   */
  lemma CascadeOrder(threshold: int, stock: int, relations: seq<int>, i: nat)
    requires forall k :: 0 <= k < |relations| ==> relations[k] > 0
    requires i <= |relations|
    ensures stock > 0 ==> Cascade(stock, relations)[i] > 0
    ensures threshold <= stock ==> Cascade(threshold, relations)[i] <= Cascade(stock, relations)[i]
  {
    ChainFactorPositive(relations, i);
    ScaleByPositive(threshold, stock, ChainFactor(relations, i));
  }

  /** Multiplying by a positive factor keeps signs and order. */
  lemma ScaleByPositive(a: int, b: int, f: int)
    requires f > 0
    ensures b > 0 ==> b * f > 0
    ensures a <= b ==> a * f <= b * f
  {
    if b > 0 {
      assert b * f >= 1 * f;
    }
    if a <= b {
      assert b * f - a * f == (b - a) * f;
    }
  }

  /** One more unit down the chain multiplies the value by the next relation. */
  lemma CascadeNext(top: int, relations: seq<int>, i: nat)
    requires i < |relations|
    ensures top * ChainFactor(relations, i + 1) == (top * ChainFactor(relations, i)) * relations[i]
  {
    var f := ChainFactor(relations, i);
    assert ChainFactor(relations, i + 1) == f * relations[i];
  }

  /** Step 4 of `insert_multi_unit_product`: the stock of every unit, from the largest unit's. */
  method CascadeStock(top: int, relations: seq<int>) returns (stocks: seq<int>)
    ensures stocks == Cascade(top, relations)
  {
    var current := top;
    stocks := [top];
    for i := 1 to |relations| + 1
      invariant current == top * ChainFactor(relations, i - 1)
      invariant stocks == Cascade(top, relations)[..i]
    {
      CascadeNext(top, relations, i - 1);
      current := current * relations[i - 1];
      stocks := stocks + [current];
    }
  }

  /**
   * Step 5: the low-stock threshold written with each unit, multiplied by
   * the next relation after each unit but the last.
   */
  method CascadeThresholds(low: int, relations: seq<int>) returns (thresholds: seq<int>)
    ensures thresholds == Cascade(low, relations)
  {
    var current := low;
    thresholds := [];
    var count := |relations| + 1;
    for i := 0 to count
      invariant i < count ==> current == low * ChainFactor(relations, i)
      invariant thresholds == Cascade(low, relations)[..i]
    {
      thresholds := thresholds + [current];
      if i < count - 1 {
        CascadeNext(low, relations, i);
        current := current * relations[i];
      }
    }
  }

  // ---------------------------------------------------------------------
  // Checks on a smaller unit
  // ---------------------------------------------------------------------

  datatype UnitCheck = Accepted | RelationNotPositive | NotPositive | RetailBelowWholesale

  /**
   * A smaller unit of a new product: its relation must be positive, then its
   * prices and wholesale threshold, and retail may not be below wholesale.
   */
  function CheckSmallerUnit(relation: int, retail: real, wholesale: real, wholesaleThreshold: int): (r: UnitCheck)
    ensures r == Accepted <==>
      relation > 0 && retail > 0.0 && wholesale > 0.0 && wholesaleThreshold > 0 && retail >= wholesale
    ensures r == RelationNotPositive <==> relation <= 0
    ensures r == RetailBelowWholesale ==> retail > 0.0 && wholesale > retail
  {
    if relation <= 0 then RelationNotPositive
    else if retail <= 0.0 || wholesale <= 0.0 || wholesaleThreshold <= 0 then NotPositive
    else if retail < wholesale then RetailBelowWholesale
    else Accepted
  }

  // ---------------------------------------------------------------------
  // Stock totals
  // ---------------------------------------------------------------------

  /** Adding a batch: the product's new stock is the old one plus the added quantity, written only once the batch exists. */
  function StockAfterAddedBatch(currentStock: int, added: int, batchCreated: bool): (r: Option<int>)
    ensures r.Some? <==> batchCreated
    ensures r.Some? ==> r.value - currentStock == added
  {
    if batchCreated then Some(currentStock + added) else None
  }

  /** The sum of quantity over the rows whose id is not `id`. */
  function SumExcept(rows: seq<Batch>, id: int): int
  {
    if |rows| == 0 then 0
    else (if rows[0].id == id then 0 else rows[0].quantity) + SumExcept(rows[1..], id)
  }

  /** The active batches of a product, in table order. */
  function ActiveOf(rows: seq<Batch>, productId: int): seq<Batch>
  {
    if |rows| == 0 then []
    else if rows[0].productId == productId && rows[0].isActive then [rows[0]] + ActiveOf(rows[1..], productId)
    else ActiveOf(rows[1..], productId)
  }

  /** Exactly the product's active rows are selected. */
  lemma {:induction false} ActiveOfMembers(rows: seq<Batch>, productId: int)
    ensures forall b :: b in ActiveOf(rows, productId) <==> b in rows && b.productId == productId && b.isActive
  {
    if |rows| > 0 {
      ActiveOfMembers(rows[1..], productId);
      assert rows == [rows[0]] + rows[1..];
    }
  }

  /** The batch with `id` gets quantity `q`. */
  function WithQuantity(rows: seq<Batch>, id: int, q: int): seq<Batch>
  {
    UpdateWhere(rows, id, (b: Batch) => b.(quantity := q))
  }

  /**
   * Summing the other batches and adding the new quantity is the total of
   * the rows after the edit, when the edited batch is one of them with a
   * unique id.
   */
  lemma {:induction false} SumExceptIsEditedTotal(rows: seq<Batch>, id: int, q: int, k: nat)
    requires UniqueIds(rows) && k < |rows| && rows[k].id == id
    ensures SumExcept(rows, id) + q == TotalQuantity(WithQuantity(rows, id, q))
  {
    var w := WithQuantity(rows, id, q);
    assert w[1..] == WithQuantity(rows[1..], id, q);
    if k == 0 {
      NoneEdited(rows[1..], id, q);
    } else {
      SumExceptIsEditedTotal(rows[1..], id, q, k - 1);
    }
  }

  lemma {:induction false} NoneEdited(rows: seq<Batch>, id: int, q: int)
    requires forall j :: 0 <= j < |rows| ==> rows[j].id != id
    ensures SumExcept(rows, id) == TotalQuantity(WithQuantity(rows, id, q))
  {
    if |rows| > 0 {
      assert WithQuantity(rows, id, q)[1..] == WithQuantity(rows[1..], id, q);
      NoneEdited(rows[1..], id, q);
    } else {
      assert WithQuantity(rows, id, q) == [];
    }
  }

  lemma WithQuantityCons(x: Batch, rest: seq<Batch>, id: int, q: int)
    ensures WithQuantity([x] + rest, id, q) == WithQuantity([x], id, q) + WithQuantity(rest, id, q)
  {
  }

  /** Setting a quantity keeps the product and the active flag, so it commutes with selecting the active batches. */
  lemma {:induction false} ActiveOfWithQuantity(rows: seq<Batch>, productId: int, id: int, q: int)
    ensures ActiveOf(WithQuantity(rows, id, q), productId) == WithQuantity(ActiveOf(rows, productId), id, q)
  {
    if |rows| > 0 {
      assert rows == [rows[0]] + rows[1..];
      WithQuantityCons(rows[0], rows[1..], id, q);
      ActiveOfWithQuantity(rows[1..], productId, id, q);
      if rows[0].productId == productId && rows[0].isActive {
        WithQuantityCons(rows[0], ActiveOf(rows[1..], productId), id, q);
      }
    } else {
      assert WithQuantity(rows, id, q) == [];
    }
  }

  lemma {:induction false} ActiveOfUnique(rows: seq<Batch>, productId: int)
    requires UniqueIds(rows)
    ensures UniqueIds(ActiveOf(rows, productId))
  {
    if |rows| > 0 {
      ActiveOfUnique(rows[1..], productId);
      ActiveOfMembers(rows[1..], productId);
      var rest := ActiveOf(rows[1..], productId);
      forall j | 0 <= j < |rest| ensures rest[j].id != rows[0].id {
        assert rest[j] in rows[1..];
      }
    }
  }

  /**
   * `calculate_total_stock_with_selected_batch`: the SUM over the product's
   * other active batches (NULL counted as 0) plus the new quantity; the new
   * quantity alone when the query fails.
   */
  function TotalWithSelectedBatch(rows: seq<Batch>, productId: int, selectedId: int, newQuantity: int, readOk: bool): int
  {
    if !readOk then newQuantity else SumExcept(ActiveOf(rows, productId), selectedId) + newQuantity
  }

  /**
   * When the selected batch is an active batch of the product, the result is
   * the product's active stock once that batch holds the new quantity.
   */
  lemma TotalWithSelectedBatchIsStock(rows: seq<Batch>, productId: int, selectedId: int, newQuantity: int, k: nat)
    requires UniqueIds(rows) && k < |rows| && rows[k].id == selectedId
    requires rows[k].productId == productId && rows[k].isActive
    ensures TotalWithSelectedBatch(rows, productId, selectedId, newQuantity, true)
      == TotalQuantity(ActiveOf(WithQuantity(rows, selectedId, newQuantity), productId))
  {
    var a := ActiveOf(rows, productId);
    ActiveOfMembers(rows, productId);
    assert rows[k] in a;
    var j :| 0 <= j < |a| && a[j] == rows[k];
    ActiveOfUnique(rows, productId);
    SumExceptIsEditedTotal(a, selectedId, newQuantity, j);
    ActiveOfWithQuantity(rows, productId, selectedId, newQuantity);
  }

  // ---------------------------------------------------------------------
  // Editing one batch
  // ---------------------------------------------------------------------

  /**
   * The UPDATE of `update_basic_product_info` and `update_specific_batch`:
   * quantity, buying price and margins, and original_quantity set to the
   * new quantity whatever it was before.
   */
  function EditedBatch(b: Batch, newQuantity: int, newBuying: real, margin: real): (e: Batch)
    ensures e.id == b.id && e.productId == b.productId && e.isActive == b.isActive
    ensures e.quantity == newQuantity && e.originalQuantity == Some(newQuantity)
    ensures e.totalExpectedProfit == Some(margin * newQuantity as real)
  {
    b.(quantity := newQuantity, buyingPrice := newBuying, expectedMargin := Some(margin),
       totalExpectedProfit := Some(margin * newQuantity as real), originalQuantity := Some(newQuantity))
  }

  /** `UPDATE products SET stock_quantity = ? WHERE id = ?`. */
  function SetProductStock(products: seq<ProductRow>, productId: int, stock: int): (r: seq<ProductRow>)
    ensures |r| == |products|
    ensures forall k :: 0 <= k < |products| ==>
      r[k] == if products[k].id == productId then products[k].(stockQuantity := stock) else products[k]
  {
    seq(|products|, k requires 0 <= k < |products| =>
      if products[k].id == productId then products[k].(stockQuantity := stock) else products[k])
  }

  /**
   * The edit of one batch of a product: the margin comes from the margin
   * calculator with the new buying price as landed cost, the batch row is
   * rewritten, and the product's stock becomes the other selected batches'
   * sum plus the new quantity. `selected` is the product's active batches
   * as read before the edit.
   */
  method UpdateSelectedBatch(db: InventoryDb, productId: int, selected: seq<Batch>, batchId: int,
                             newQuantity: int, newBuying: real, retail: real, wholesale: real,
                             sales: Option<seq<SaleItemRow>>)
    returns (totalStock: int)
    modifies db
    ensures var m := CalculateExpectedMargin(retail, wholesale, newBuying, Some(productId), sales).expectedMargin;
      db.batches == UpdateWhere(old(db.batches), batchId, (b: Batch) => EditedBatch(b, newQuantity, newBuying, m))
    ensures totalStock == SumExcept(selected, batchId) + newQuantity
    ensures db.products == SetProductStock(old(db.products), productId, totalStock)
  {
    var margin := CalculateExpectedMargin(retail, wholesale, newBuying, Some(productId), sales).expectedMargin;
    db.batches := UpdateWhere(db.batches, batchId, (b: Batch) => EditedBatch(b, newQuantity, newBuying, margin));
    totalStock := SumExcept(selected, batchId) + newQuantity;
    db.products := SetProductStock(db.products, productId, totalStock);
  }

  /**
   * An edit overwrites original_quantity: a batch received as 100 and sold
   * down to 40, then edited to 40, claims 40 as its original quantity.
   */
  lemma EditOverwritesOriginal(b: Batch, margin: real)
    requires b.originalQuantity == Some(100) && b.quantity == 40
    ensures EditedBatch(b, 40, b.buyingPrice, margin).originalQuantity == Some(40)
  {
  }

  /** The stock written after the edit is the selected batches' total with the edit applied. */
  lemma UpdatedStockIsSelectionTotal(selected: seq<Batch>, batchId: int, newQuantity: int, k: nat)
    requires UniqueIds(selected) && k < |selected| && selected[k].id == batchId
    ensures SumExcept(selected, batchId) + newQuantity == TotalQuantity(WithQuantity(selected, batchId, newQuantity))
  {
    SumExceptIsEditedTotal(selected, batchId, newQuantity, k);
  }

  // ---------------------------------------------------------------------
  // Adding a unit to an existing structure
  // ---------------------------------------------------------------------

  /** The batch columns written for a new unit. */
  datatype UnitBatch = UnitBatch(quantity: int, landed: real, margin: real, totalProfit: real, originalQuantity: int)

  /**
   * `add_unit_to_existing_structure`: a batch only for a positive stock, with
   * landed cost and margin rounded to cents and the total profit taken from
   * the rounded margin.
   */
  function NewUnitBatch(newStock: int, buying: real, shipping: real, handling: real, retail: real): (r: Option<UnitBatch>)
    ensures r.Some? <==> newStock > 0
    ensures r.Some? ==> (r.value.quantity == newStock && r.value.originalQuantity == newStock
      && r.value.landed == Round2(buying + shipping + handling)
      && r.value.margin == Round2(retail - r.value.landed)
      && r.value.totalProfit == r.value.margin * newStock as real)
  {
    if newStock > 0 then
      var landed := Round2(buying + shipping + handling);
      var margin := Round2(retail - landed);
      Some(UnitBatch(newStock, landed, margin, margin * newStock as real, newStock))
    else None
  }

  /** The rounded margin is within a cent of the exact retail profit. */
  lemma NewUnitMarginBounds(newStock: int, buying: real, shipping: real, handling: real, retail: real)
    requires newStock > 0
    ensures var m := NewUnitBatch(newStock, buying, shipping, handling, retail).value.margin;
      retail - (buying + shipping + handling) - 0.01 < m <= retail - (buying + shipping + handling) + 0.01
  {
    var landed := Round2(buying + shipping + handling);
    Round2Bounds(buying + shipping + handling);
    Round2Bounds(retail - landed);
  }

  /** The parent link of a product row. */
  datatype Link = Link(parent: Option<int>, relation: Option<int>)

  /** How the new unit relates to the chosen unit: `Smaller` (type 1) or `Larger` (type 2). */
  datatype Relating = Smaller | Larger

  /**
   * The links after adding unit `newId`: a smaller unit hangs under the
   * related one; a larger unit has no parent and the related unit is
   * re-parented under it with the relation.
   */
  function AddUnitLinks(links: map<int, Link>, newId: int, relatedId: int, relation: int, kind: Relating): (r: map<int, Link>)
    requires newId != relatedId
    ensures kind == Smaller ==> r.Keys == links.Keys + {newId}
    ensures kind == Larger ==> r.Keys == links.Keys + {newId, relatedId}
    ensures kind == Smaller ==> r[newId] == Link(Some(relatedId), Some(relation))
    ensures kind == Larger ==> r[newId] == Link(None, None) && r[relatedId] == Link(Some(newId), Some(relation))
    ensures forall id :: id in links && id != newId && (kind == Smaller || id != relatedId) ==> r[id] == links[id]
  {
    if kind == Smaller then links[newId := Link(Some(relatedId), Some(relation))]
    else links[newId := Link(None, None)][relatedId := Link(Some(newId), Some(relation))]
  }

  /** Adding a larger unit above the root makes the new unit the only unit without a parent. */
  lemma LargerUnitBecomesRoot(links: map<int, Link>, newId: int, rootId: int, relation: int)
    requires newId != rootId && newId !in links && rootId in links
    requires forall id :: id in links && links[id].parent.None? ==> id == rootId
    ensures var r := AddUnitLinks(links, newId, rootId, relation, Larger);
      forall id :: id in r && r[id].parent.None? ==> id == newId
  {
  }
}
