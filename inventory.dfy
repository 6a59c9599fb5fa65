/**
 * The rows of the inventory database that the sale, import and manual-entry
 * code read and write: stock batches and products. A table is a sequence of
 * rows; `UPDATE ... WHERE id = ?` is `UpdateWhere`. Nullable columns are
 * Options, since several rules test for NULL.
 */
module Inventory {
  import opened Wrappers

  /** A row of `stock_batches`. `receivedDate` is an abstract, ordered timestamp. */
  datatype Batch = Batch(
    id: int,
    productId: int,
    storeId: int,
    batchNumber: string,
    quantity: int,
    buyingPrice: real,
    shippingCost: Option<real>,
    handlingCost: Option<real>,
    receivedDate: int,
    isActive: bool,
    expectedMargin: Option<real>,
    actualMargin: Option<real>,
    totalExpectedProfit: Option<real>,
    totalActualProfit: Option<real>,
    originalQuantity: Option<int>)

  /**
   * The generated column `landed_cost = buying_price + shipping_cost +
   * handling_cost`: NULL as soon as one of its parts is NULL.
   */
  function LandedCost(b: Batch): (c: Option<real>)
    ensures c.Some? <==> b.shippingCost.Some? && b.handlingCost.Some?
    ensures c.Some? ==> c.value - b.buyingPrice == b.shippingCost.value + b.handlingCost.value
  {
    if b.shippingCost.Some? && b.handlingCost.Some? then
      Some(b.buyingPrice + b.shippingCost.value + b.handlingCost.value)
    else None
  }

  /** A row of `products`, with the columns the modelled code touches. */
  datatype ProductRow = ProductRow(
    id: int,
    storeId: int,
    productCode: string,
    name: string,
    stockQuantity: int,
    lowStockThreshold: int,
    parentProductId: Option<int>,
    relationToParent: Option<int>,
    unit: string)

  /** `SELECT ... WHERE id = ?` with `fetchone()`: the first row with that id. */
  function FindBatch(rows: seq<Batch>, id: int): (r: Option<Batch>)
    ensures r.Some? ==> r.value in rows && r.value.id == id
    ensures r.None? <==> forall k :: 0 <= k < |rows| ==> rows[k].id != id
  {
    if |rows| == 0 then None
    else if rows[0].id == id then Some(rows[0])
    else FindBatch(rows[1..], id)
  }

  /** All batch ids are distinct (`id INTEGER PRIMARY KEY`). */
  predicate UniqueIds(rows: seq<Batch>) {
    forall i, j :: 0 <= i < j < |rows| ==> rows[i].id != rows[j].id
  }

  /** `UPDATE stock_batches SET ... WHERE id = ?`: `f` applied to every row with that id. */
  function UpdateWhere(rows: seq<Batch>, id: int, f: Batch -> Batch): (r: seq<Batch>)
    ensures |r| == |rows|
    ensures forall k :: 0 <= k < |rows| ==> r[k] == if rows[k].id == id then f(rows[k]) else rows[k]
  {
    seq(|rows|, k requires 0 <= k < |rows| => if rows[k].id == id then f(rows[k]) else rows[k])
  }

  /** The sum of `quantity` over a set of batch rows. */
  function TotalQuantity(rows: seq<Batch>): int
  {
    if |rows| == 0 then 0 else rows[0].quantity + TotalQuantity(rows[1..])
  }

  lemma {:induction false} TotalQuantityAppend(a: seq<Batch>, b: seq<Batch>)
    ensures TotalQuantity(a + b) == TotalQuantity(a) + TotalQuantity(b)
  {
    if |a| > 0 {
      assert (a + b)[1..] == a[1..] + b;
      TotalQuantityAppend(a[1..], b);
    } else {
      assert a + b == b;
    }
  }

  /** The inventory database: its batch and product tables. */
  class InventoryDb {
    var batches: seq<Batch>
    var products: seq<ProductRow>

    constructor(batches: seq<Batch>, products: seq<ProductRow>)
      ensures this.batches == batches && this.products == products
    {
      this.batches := batches;
      this.products := products;
    }
  }
}
