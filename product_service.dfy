/**
 * The product service: the current data of a product (prices, the batch
 * its costs come from, the landed cost), the defaults offered when costs
 * are entered, the creation of a stock batch, and the unit tree of a
 * multi-unit product. Product codes and sequence numbers are in
 * ProductCodes.
 */
module ProductService {
  import opened Wrappers
  import opened Inventory
  import opened ProductModels

  // ---------------------------------------------------------------------
  // Current product data
  // ---------------------------------------------------------------------

  /** The price row of a product in a store. */
  datatype PriceRow = PriceRow(retail: real, wholesale: real, wholesaleThreshold: int)

  /** The active batch with `id`, restricted to `productId` when it is given. */
  function FindActive(rows: seq<Batch>, id: int, productId: Option<int>): (r: Option<Batch>)
    ensures r.Some? ==> (r.value in rows && r.value.id == id && r.value.isActive
      && (productId.Some? ==> r.value.productId == productId.value))
    ensures r.None? ==> forall k :: 0 <= k < |rows| ==>
      !(rows[k].id == id && rows[k].isActive && (productId.Some? ==> rows[k].productId == productId.value))
  {
    if |rows| == 0 then None
    else if rows[0].id == id && rows[0].isActive && (productId.Some? ==> rows[0].productId == productId.value) then Some(rows[0])
    else FindActive(rows[1..], id, productId)
  }

  /**
   * `ORDER BY received_date DESC LIMIT 1` over the product's active batches;
   * among batches received at the same time the first in table order is
   * taken.
   */
  function LatestActive(rows: seq<Batch>, productId: int): (r: Option<Batch>)
    ensures r.Some? ==> r.value in rows && r.value.productId == productId && r.value.isActive
    ensures r.Some? ==> forall k :: 0 <= k < |rows| && rows[k].productId == productId && rows[k].isActive ==>
      rows[k].receivedDate <= r.value.receivedDate
    ensures r.None? <==> forall k :: 0 <= k < |rows| ==> !(rows[k].productId == productId && rows[k].isActive)
  {
    if |rows| == 0 then None
    else
      var rest := LatestActive(rows[1..], productId);
      assert forall k :: 1 <= k < |rows| ==> rows[k] == rows[1..][k - 1];
      if !(rows[0].productId == productId && rows[0].isActive) then rest
      else if rest.Some? && rest.value.receivedDate > rows[0].receivedDate then rest
      else Some(rows[0])
  }

  /** The batch the current data is read from, and whether it belongs to another product (`batch_from_parent`). */
  datatype BatchSource = BatchSource(batch: Option<Batch>, fromParent: bool)

  /**
   * A selected batch (a non-zero id) must be active; when it is not the
   * product's own, the id alone is looked up and the batch is marked as
   * coming from the parent. With no selection the latest active batch of
   * the product is used.
   */
  function SourceBatch(rows: seq<Batch>, productId: int, selected: Option<int>): (s: BatchSource)
  {
    if selected.Some? && selected.value != 0 then
      var own := FindActive(rows, selected.value, Some(productId));
      if own.Some? then BatchSource(own, false)
      else
        var any := FindActive(rows, selected.value, None);
        BatchSource(any, any.Some?)
  else BatchSource(LatestActive(rows, productId), false)
  }

  /** The source batch is always active, and it is a batch of another product only when marked so. */
  lemma SourceBatchRule(rows: seq<Batch>, productId: int, selected: Option<int>)
    requires UniqueIds(rows)
    ensures var s := SourceBatch(rows, productId, selected);
      (s.batch.Some? ==> s.batch.value in rows && s.batch.value.isActive)
      && (s.batch.Some? && s.batch.value.productId != productId ==> s.fromParent)
      && (s.fromParent ==> s.batch.Some? && selected.Some? && s.batch.value.id == selected.value)
      && (selected.None? ==> s.batch == LatestActive(rows, productId))
  {
  }

  /** What `get_current_product_data` returns, with the columns the cost entry uses. */
  datatype CurrentData = CurrentData(
    retail: real,
    wholesale: real,
    wholesaleThreshold: int,
    buying: real,
    shipping: Option<real>,
    handling: Option<real>,
    landed: real,
    batchQuantity: int,
    batchNumber: string,
    fromParent: bool)

  /**
   * `get_current_product_data`: None when the product is not found; a
   * missing price row gives prices (0, 0, 0), a missing batch zero costs
   * and "N/A"; the landed cost counts a NULL shipping or handling cost as 0.
   */
  function CurrentProductData(productFound: bool, prices: Option<PriceRow>, source: BatchSource): (d: Option<CurrentData>)
    ensures d.Some? <==> productFound
    ensures d.Some? ==> d.value.landed == d.value.buying + d.value.shipping.GetOr(0.0) + d.value.handling.GetOr(0.0)
    ensures d.Some? && prices.None? ==> d.value.retail == 0.0 && d.value.wholesale == 0.0 && d.value.wholesaleThreshold == 0
    ensures d.Some? && source.batch.None? ==>
      d.value.buying == 0.0 && d.value.landed == 0.0 && d.value.batchQuantity == 0 && d.value.batchNumber == "N/A"
    ensures d.Some? && source.batch.Some? ==> (d.value.buying == source.batch.value.buyingPrice
      && d.value.shipping == source.batch.value.shippingCost && d.value.handling == source.batch.value.handlingCost)
  {
    if !productFound then None
    else
      var p := prices.GetOr(PriceRow(0.0, 0.0, 0));
      var b := source.batch;
      var buying := if b.Some? then b.value.buyingPrice else 0.0;
      var shipping := if b.Some? then b.value.shippingCost else Some(0.0);
      var handling := if b.Some? then b.value.handlingCost else Some(0.0);
      Some(CurrentData(p.retail, p.wholesale, p.wholesaleThreshold, buying, shipping, handling,
                       buying + shipping.GetOr(0.0) + handling.GetOr(0.0),
                       if b.Some? then b.value.quantity else 0,
                       if b.Some? then b.value.batchNumber else "N/A",
                       source.fromParent))
  }

  /** When the batch has all its costs, the current landed cost is the batch's generated landed_cost column. */
  lemma CurrentLandedIsBatchLanded(prices: Option<PriceRow>, source: BatchSource)
    requires source.batch.Some? && LandedCost(source.batch.value).Some?
    ensures CurrentProductData(true, prices, source).value.landed == LandedCost(source.batch.value).value
  {
  }

  // ---------------------------------------------------------------------
  // Smart defaults
  // ---------------------------------------------------------------------

  /**
   * A value passed for a parent cost: a number, nothing, or a tuple (a
   * trailing comma in the caller builds `(x,)`).
   */
  datatype Passed = Missing | Number(x: real) | Tuple(items: seq<real>)

  /** `safe_value`: a tuple gives its first item (0 when empty), anything else its value, or 0 when missing or zero. */
  function SafeValue(v: Passed): (r: real)
    ensures v.Number? ==> r == v.x
    ensures v.Tuple? && |v.items| > 0 ==> r == v.items[0]
    ensures v.Missing? || (v.Tuple? && |v.items| == 0) ==> r == 0.0
  {
    match v
    case Missing => 0.0
    case Number(x) => x
    case Tuple(items) => if |items| == 0 then 0.0 else items[0]
  }

  /** A one-element tuple is read as its element: the trailing comma changes nothing. */
  lemma SafeValueUnwraps(x: real)
    ensures SafeValue(Tuple([x])) == SafeValue(Number(x)) == x
  {
  }

  /** What a child receives from its parent unit. */
  datatype ParentData = ParentData(relation: real, buying: Passed, shipping: Passed, handling: Passed)

  /** Costs taken from a root batch. */
  datatype BatchDefaults = BatchDefaults(buying: Option<real>, shipping: Option<real>, handling: Option<real>)

  /** The defaults offered when costs are entered. A cost may be NULL when it comes from a row. */
  datatype CostDefaults = CostDefaults(
    buying: Option<real>,
    shipping: Option<real>,
    handling: Option<real>,
    retail: real,
    wholesale: real,
    wholesaleThreshold: int)

  /** Where the cost fields come from. */
  datatype CostOrigin = FromBatch | FromCurrent | FromParent

  function Origin(batch: Option<BatchDefaults>, isLargest: bool, parent: Option<ParentData>): CostOrigin
  {
    if batch.Some? then FromBatch
    else if isLargest then FromCurrent
    else if parent.Some? && parent.value.relation > 0.0 then FromParent
    else FromCurrent
  }

  /**
   * The smart defaults of `get_comprehensive_product_costs`: the costs
   * from the batch defaults when given, else from the current data for the
   * largest unit, else the parent's costs divided by the relation when it
   * is positive, else the current data; prices and wholesale threshold
   * always from the current data (0, 0 and 1 without it).
   */
  function SmartDefaults(batch: Option<BatchDefaults>, isLargest: bool, parent: Option<ParentData>,
                         current: Option<CurrentData>): (d: CostDefaults)
    ensures d.retail == (if current.Some? then current.value.retail else 0.0)
    ensures d.wholesale == (if current.Some? then current.value.wholesale else 0.0)
    ensures d.wholesaleThreshold == (if current.Some? then current.value.wholesaleThreshold else 1)
  {
    var retail := if current.Some? then current.value.retail else 0.0;
    var wholesale := if current.Some? then current.value.wholesale else 0.0;
    var threshold := if current.Some? then current.value.wholesaleThreshold else 1;
    match Origin(batch, isLargest, parent)
    case FromBatch =>
      CostDefaults(batch.value.buying, batch.value.shipping, batch.value.handling, retail, wholesale, threshold)
    case FromParent =>
      var p := parent.value;
      CostDefaults(Some(SafeValue(p.buying) / p.relation), Some(SafeValue(p.shipping) / p.relation),
                   Some(SafeValue(p.handling) / p.relation), retail, wholesale, threshold)
    case FromCurrent =>
      if current.Some? then
        CostDefaults(Some(current.value.buying), current.value.shipping, current.value.handling, retail, wholesale, threshold)
      else CostDefaults(Some(0.0), Some(0.0), Some(0.0), retail, wholesale, threshold)
  }

  /** The priority: batch defaults win, then the largest unit's data, then the parent's costs per child unit. */
  lemma SmartDefaultsPriority(batch: Option<BatchDefaults>, isLargest: bool, parent: Option<ParentData>,
                              current: Option<CurrentData>)
    ensures var d := SmartDefaults(batch, isLargest, parent, current);
      (batch.Some? ==> d.buying == batch.value.buying && d.shipping == batch.value.shipping && d.handling == batch.value.handling)
      && (batch.None? && isLargest && current.Some? ==> (d.buying == Some(current.value.buying)
            && d.shipping == current.value.shipping && d.handling == current.value.handling))
      && (batch.None? && !isLargest && parent.Some? && parent.value.relation > 0.0 ==>
            (d.buying.Some? && d.buying.value * parent.value.relation == SafeValue(parent.value.buying)
            && d.shipping.Some? && d.shipping.value * parent.value.relation == SafeValue(parent.value.shipping)
            && d.handling.Some? && d.handling.value * parent.value.relation == SafeValue(parent.value.handling)))
  {
  }

  /** Prices and wholesale threshold do not depend on where the costs come from. */
  lemma PricesIgnoreCostSource(b1: Option<BatchDefaults>, l1: bool, p1: Option<ParentData>,
                               b2: Option<BatchDefaults>, l2: bool, p2: Option<ParentData>, current: Option<CurrentData>)
    ensures var d1 := SmartDefaults(b1, l1, p1, current); var d2 := SmartDefaults(b2, l2, p2, current);
      d1.retail == d2.retail && d1.wholesale == d2.wholesale && d1.wholesaleThreshold == d2.wholesaleThreshold
  {
  }

  /**
   * A child whose parent costs arrive as one-element tuples gets the
   * parent's costs divided by its relation, as if they were plain numbers.
   */
  lemma TupleParentCostsDivided(relation: real, buying: real, shipping: real, handling: real, current: Option<CurrentData>)
    requires relation > 0.0
    ensures SmartDefaults(None, false, Some(ParentData(relation, Tuple([buying]), Tuple([shipping]), Tuple([handling]))), current)
         == SmartDefaults(None, false, Some(ParentData(relation, Number(buying), Number(shipping), Number(handling))), current)
    ensures SmartDefaults(None, false, Some(ParentData(relation, Tuple([buying]), Tuple([shipping]), Tuple([handling]))), current).buying
         == Some(buying / relation)
  {
  }

  // ---------------------------------------------------------------------
  // Creating a stock batch
  // ---------------------------------------------------------------------

  /** The first product row with `id`, as `SELECT ... WHERE id = ?`. */
  function FindProduct(products: seq<ProductRow>, id: int): (r: Option<ProductRow>)
    ensures r.Some? ==> r.value in products && r.value.id == id
    ensures r.None? <==> forall k :: 0 <= k < |products| ==> products[k].id != id
  {
    if |products| == 0 then None
    else if products[0].id == id then Some(products[0])
    else FindProduct(products[1..], id)
  }

  /** The product code the batch is written with: the given one if it is the product's, else the product's own. */
  function BatchProductCode(products: seq<ProductRow>, productId: int, productCode: string): (r: Option<string>)
    ensures r.Some? <==> FindProduct(products, productId).Some?
    ensures r.Some? && r.value != productCode ==> r.value == FindProduct(products, productId).value.productCode
  {
    if exists k :: 0 <= k < |products| && products[k].productCode == productCode && products[k].id == productId then
      assert FindProduct(products, productId).Some?;
      Some(productCode)
    else match FindProduct(products, productId)
      case None => None
      case Some(p) => Some(p.productCode)
  }

  /**
   * The row `create_stock_batch` inserts: quantity and original quantity
   * the given quantity, the costs of `costs`, expected profit the expected
   * margin times the quantity. The insert leaves the actual margin and the
   * actual profit to the table's defaults, 0.
   */
  function NewStockBatch(id: int, productId: int, storeId: int, batchNumber: string, costs: ProductCosts,
                         quantity: int, receivedDate: int): (b: Batch)
    ensures b.quantity == quantity && b.originalQuantity == Some(quantity) && b.isActive
    ensures b.expectedMargin == Some(costs.expectedMargin)
    ensures b.totalExpectedProfit == Some(costs.expectedMargin * quantity as real)
    ensures b.totalActualProfit == Some(0.0) && b.actualMargin == Some(0.0)
  {
    Batch(id, productId, storeId, batchNumber, quantity, costs.buyingPrice, Some(costs.shippingCost),
          Some(costs.handlingCost), receivedDate, true, Some(costs.expectedMargin), Some(0.0),
          Some(costs.expectedMargin * quantity as real), Some(0.0), Some(quantity))
  }

  /**
   * `create_stock_batch`: None, with nothing written, when the product id
   * is unknown; otherwise one batch appended. `newId`, `batchNumber` and
   * `now` stand for the database's row id, the clock-based batch number
   * and `datetime('now')`.
   */
  method CreateStockBatch(db: InventoryDb, productId: int, productCode: string, storeId: int, costs: ProductCosts,
                          quantity: int, newId: int, batchNumber: string, now: int)
    returns (batchId: Option<int>, code: Option<string>)
    modifies db
    ensures code == BatchProductCode(old(db.products), productId, productCode)
    ensures batchId.Some? <==> code.Some?
    ensures batchId.Some? ==> (batchId.value == newId
      && db.batches == old(db.batches) + [NewStockBatch(newId, productId, storeId, batchNumber, costs, quantity, now)])
    ensures batchId.None? ==> db.batches == old(db.batches)
    ensures db.products == old(db.products)
  {
    code := BatchProductCode(db.products, productId, productCode);
    if code.None? {
      return None, None;
    }
    db.batches := db.batches + [NewStockBatch(newId, productId, storeId, batchNumber, costs, quantity, now)];
    batchId := Some(newId);
  }

  // ---------------------------------------------------------------------
  // The unit tree of a multi-unit product
  // ---------------------------------------------------------------------

  /** A unit row of the hierarchy query (the other columns are carried along unread). */
  datatype UnitRow = UnitRow(id: int, name: string, parentId: Option<int>, relation: Option<int>)

  /** A unit with the units attached below it. */
  datatype Node = Node(unit: UnitRow, children: seq<Node>)

  function IdsOf(units: seq<UnitRow>): set<int>
  {
    set u | u in units :: u.id
  }

  /**
   * The rows hold the values of a dict keyed by id (`units[unit_id] = …`),
   * so no two of them share an id.
   */
  predicate DistinctIds(units: seq<UnitRow>)
  {
    forall i, j :: 0 <= i < j < |units| ==> units[i].id != units[j].id
  }

  /** The units whose parent is `parentId`, in row order. */
  function ChildRows(units: seq<UnitRow>, parentId: int): (r: seq<UnitRow>)
    ensures forall c :: c in r <==> c in units && c.parentId == Some(parentId)
  {
    if |units| == 0 then []
    else
      var rest := ChildRows(units[1..], parentId);
      if units[0].parentId == Some(parentId) then [units[0]] + rest else rest
  }

  /** Two children of a unit never share an id. */
  lemma {:induction false} ChildRowsDistinct(units: seq<UnitRow>, parentId: int)
    requires DistinctIds(units)
    ensures DistinctIds(ChildRows(units, parentId))
  {
    if |units| > 0 {
      var rest := ChildRows(units[1..], parentId);
      ChildRowsDistinct(units[1..], parentId);
      if units[0].parentId == Some(parentId) {
        forall j | 0 <= j < |rest| ensures rest[j].id != units[0].id {
          assert rest[j] in units[1..];
          var k :| 0 <= k < |units[1..]| && units[1..][k] == rest[j];
          assert units[k + 1] == rest[j];
        }
        var r := [units[0]] + rest;
        forall i, j | 0 <= i < j < |r| ensures r[i].id != r[j].id {
          if i > 0 {
            assert r[i] == rest[i - 1] && r[j] == rest[j - 1];
          } else {
            assert r[j] == rest[j - 1];
          }
        }
      }
    }
  }

  // A chain is the walk down from a unit without a parent: every row is the
  // child of the row before it. The ancestors of a unit in the tree form one.

  ghost predicate IsChain(units: seq<UnitRow>, chain: seq<UnitRow>)
    decreases |chain|
  {
    && |chain| > 0
    && chain[|chain| - 1] in units
    && if |chain| == 1 then chain[0].parentId.None?
       else chain[|chain| - 1].parentId == Some(chain[|chain| - 2].id) && IsChain(units, chain[..|chain| - 1])
  }

  ghost function ChainIds(chain: seq<UnitRow>): set<int>
  {
    set c | c in chain :: c.id
  }

  lemma SameId(units: seq<UnitRow>, x: UnitRow, y: UnitRow)
    requires DistinctIds(units) && x in units && y in units && x.id == y.id
    ensures x == y
  {
    var i :| 0 <= i < |units| && units[i] == x;
    var j :| 0 <= j < |units| && units[j] == y;
  }

  /** With distinct ids a unit has one chain: its parent, its parent's parent, and so on. */
  lemma {:induction false} ChainsUnique(units: seq<UnitRow>, a: seq<UnitRow>, b: seq<UnitRow>)
    requires DistinctIds(units) && IsChain(units, a) && IsChain(units, b)
    requires a[|a| - 1].id == b[|b| - 1].id
    ensures a == b
    decreases |a|
  {
    SameId(units, a[|a| - 1], b[|b| - 1]);
    if |a| > 1 && |b| > 1 {
      var a', b' := a[..|a| - 1], b[..|b| - 1];
      ChainsUnique(units, a', b');
      assert a == a' + [a[|a| - 1]];
      assert b == b' + [b[|b| - 1]];
    }
  }

  lemma {:induction false} ChainPrefix(units: seq<UnitRow>, chain: seq<UnitRow>, m: int)
    requires IsChain(units, chain) && 0 < m <= |chain|
    ensures IsChain(units, chain[..m])
    decreases |chain|
  {
    if m < |chain| {
      ChainPrefix(units, chain[..|chain| - 1], m);
      assert chain[..|chain| - 1][..m] == chain[..m];
    } else {
      assert chain[..m] == chain;
    }
  }

  /** A child of the last unit of a chain is not already on it. */
  lemma ChildFresh(units: seq<UnitRow>, chain: seq<UnitRow>, c: UnitRow)
    requires DistinctIds(units) && IsChain(units, chain + [c])
    ensures c.id !in ChainIds(chain)
  {
    var longer := chain + [c];
    if k :| 0 <= k < |chain| && chain[k].id == c.id {
      assert longer[..|chain|] == chain;
      ChainPrefix(units, longer, k + 1);
      assert longer[..k + 1] == chain[..k + 1];
      ChainsUnique(units, chain[..k + 1], longer);
    }
  }

  lemma ChainIdsAppend(chain: seq<UnitRow>, c: UnitRow)
    ensures ChainIds(chain + [c]) == ChainIds(chain) + {c.id}
  {
    assert forall x :: x in chain + [c] <==> x in chain || x == c;
  }

  /** A child of the last unit of a chain extends it, and leaves fewer units off it. */
  lemma ChildExtends(units: seq<UnitRow>, chain: seq<UnitRow>, c: UnitRow)
    requires DistinctIds(units) && IsChain(units, chain)
    requires c in units && c.parentId == Some(chain[|chain| - 1].id)
    ensures IsChain(units, chain + [c])
    ensures |IdsOf(units) - ChainIds(chain + [c])| < |IdsOf(units) - ChainIds(chain)|
  {
    assert (chain + [c])[..|chain|] == chain;
    ChildFresh(units, chain, c);
    ChainIdsAppend(chain, c);
    Shrinks(IdsOf(units), ChainIds(chain), c.id);
  }

  lemma Shrinks(ids: set<int>, path: set<int>, id: int)
    requires id in ids && id !in path
    ensures |ids - (path + {id})| < |ids - path|
  {
    assert ids - path == (ids - (path + {id})) + {id};
  }

  /**
   * `attach_children`: every unit whose parent is this unit hangs below it,
   * in row order, recursively. The ghost `chain` holds the unit's ancestors
   * and the unit itself; it only shows that the recursion ends.
   */
  function Attach(u: UnitRow, units: seq<UnitRow>, ghost chain: seq<UnitRow>): (n: Node)
    requires DistinctIds(units) && IsChain(units, chain) && chain[|chain| - 1] == u
    ensures n.unit == u
    ensures var kids := ChildRows(units, u.id);
      |n.children| == |kids| && forall i :: 0 <= i < |kids| ==> n.children[i].unit == kids[i]
    ensures forall c :: c in n.children ==> c.unit in units && c.unit.parentId == Some(u.id)
    decreases |IdsOf(units) - ChainIds(chain)|
  {
    var kids := ChildRows(units, u.id);
    Node(u, seq(|kids|, i requires 0 <= i < |kids| =>
      assert kids[i] in kids;
      ChildExtends(units, chain, kids[i]);
      Attach(kids[i], units, chain + [kids[i]])))
  }

  /** The i-th child of a node is the tree below the i-th child row, one step further down the chain. */
  lemma AttachChild(u: UnitRow, units: seq<UnitRow>, chain: seq<UnitRow>, i: int)
    requires DistinctIds(units) && IsChain(units, chain) && chain[|chain| - 1] == u
    requires 0 <= i < |ChildRows(units, u.id)|
    ensures var k := ChildRows(units, u.id)[i];
      && IsChain(units, chain + [k]) && (chain + [k])[|chain|] == k
      && |IdsOf(units) - ChainIds(chain + [k])| < |IdsOf(units) - ChainIds(chain)|
      && Attach(u, units, chain).children[i] == Attach(k, units, chain + [k])
  {
    var kids := ChildRows(units, u.id);
    assert kids[i] in kids;
    ChildExtends(units, chain, kids[i]);
  }

  /**
   * `get_product_hierarchy`: None without units or without a unit that has
   * no parent; otherwise the tree below the first such unit.
   */
  function ProductHierarchy(units: seq<UnitRow>): (r: Option<Node>)
    requires DistinctIds(units)
    ensures r.Some? ==> r.value.unit in units && r.value.unit.parentId.None?
    ensures r.Some? ==> exists k :: (0 <= k < |units| && units[k] == r.value.unit &&
      forall j :: 0 <= j < k ==> units[j].parentId.Some?)
    ensures r.None? <==> forall k :: 0 <= k < |units| ==> units[k].parentId.Some?
    ensures r.Some? ==> var kids := ChildRows(units, r.value.unit.id);
      |r.value.children| == |kids| && forall i :: 0 <= i < |kids| ==> r.value.children[i].unit == kids[i]
  {
    var roots := FirstRoot(units);
    if roots.None? then None else Some(Attach(units[roots.value], units, [units[roots.value]]))
  }

  /** The position of the first unit without a parent. */
  function FirstRoot(units: seq<UnitRow>): (r: Option<nat>)
    ensures r.Some? ==> (r.value < |units| && units[r.value].parentId.None?
      && forall j :: 0 <= j < r.value ==> units[j].parentId.Some?)
    ensures r.None? <==> forall k :: 0 <= k < |units| ==> units[k].parentId.Some?
  {
    if |units| == 0 then None
    else if units[0].parentId.None? then Some(0)
    else match FirstRoot(units[1..])
      case None => None
      case Some(j) => Some(j + 1)
  }

  /** The ids of the units of a tree. */
  ghost function TreeIds(n: Node): set<int>
  {
    {n.unit.id} + set c, x | c in n.children && x in TreeIds(c) :: x
  }

  /**
   * Every unit appears once in the tree: no unit lies below itself, and the
   * subtrees of two children share no unit.
   */
  ghost predicate UnitsOnce(n: Node)
  {
    && (forall c :: c in n.children ==> n.unit.id !in TreeIds(c) && UnitsOnce(c))
    && (forall i, j :: 0 <= i < j < |n.children| ==> TreeIds(n.children[i]) !! TreeIds(n.children[j]))
  }

  /** Every unit of the tree below the end of a chain is reached by extending the chain. */
  /**
   * The shape `attach_children` leaves: every child is a row of the table
   * whose parent is the node, and no two children share an id.
   */
  ghost predicate WellBuilt(units: seq<UnitRow>, n: Node)
  {
    && n.unit in units
    && (forall c :: c in n.children ==> c.unit.parentId == Some(n.unit.id) && WellBuilt(units, c))
    && (forall i, j :: 0 <= i < j < |n.children| ==> n.children[i].unit.id != n.children[j].unit.id)
  }

  lemma {:induction false} AttachWellBuilt(u: UnitRow, units: seq<UnitRow>, chain: seq<UnitRow>)
    requires DistinctIds(units) && IsChain(units, chain) && chain[|chain| - 1] == u
    ensures WellBuilt(units, Attach(u, units, chain))
    decreases |IdsOf(units) - ChainIds(chain)|
  {
    var n := Attach(u, units, chain);
    var kids := ChildRows(units, u.id);
    ChildRowsDistinct(units, u.id);
    forall c | c in n.children ensures WellBuilt(units, c) {
      var i :| 0 <= i < |n.children| && n.children[i] == c;
      AttachChild(u, units, chain, i);
      AttachWellBuilt(kids[i], units, chain + [kids[i]]);
    }
  }

  /** A chain through `k` that reaches `x`, seen as the chain above `k` extended by `k` and the rest. */
  lemma ChainRegroup(units: seq<UnitRow>, chain: seq<UnitRow>, k: UnitRow, rest: seq<UnitRow>, x: int)
    requires IsChain(units, chain + [k] + rest) && (chain + [k] + rest)[|chain + [k] + rest| - 1].id == x
    ensures var s := [k] + rest; IsChain(units, chain + s) && (chain + s)[|chain + s| - 1].id == x
  {
    assert chain + ([k] + rest) == chain + [k] + rest;
  }

  /** Every unit of a well-built tree below the end of a chain is reached by extending the chain. */
  lemma {:induction false} Reach(units: seq<UnitRow>, chain: seq<UnitRow>, n: Node, x: int)
    returns (s: seq<UnitRow>)
    requires DistinctIds(units) && IsChain(units, chain) && chain[|chain| - 1] == n.unit
    requires WellBuilt(units, n) && x in TreeIds(n)
    ensures IsChain(units, chain + s) && (chain + s)[|chain + s| - 1].id == x
    decreases n
  {
    if x == n.unit.id {
      s := [];
      assert chain + s == chain;
    } else {
      var c :| c in n.children && x in TreeIds(c);
      ChildExtends(units, chain, c.unit);
      var rest := Reach(units, chain + [c.unit], c, x);
      s := [c.unit] + rest;
      ChainRegroup(units, chain, c.unit, rest, x);
    }
  }

  /** Two chains that reach the same unit branch off a common chain through the same row. */
  lemma ChainsBranch(units: seq<UnitRow>, chain: seq<UnitRow>, a: UnitRow, b: UnitRow, sa: seq<UnitRow>, sb: seq<UnitRow>)
    requires DistinctIds(units) && IsChain(units, chain + [a] + sa) && IsChain(units, chain + [b] + sb)
    requires (chain + [a] + sa)[|chain + [a] + sa| - 1].id == (chain + [b] + sb)[|chain + [b] + sb| - 1].id
    ensures a == b
  {
    ChainsUnique(units, chain + [a] + sa, chain + [b] + sb);
    assert (chain + [a] + sa)[|chain|] == a;
  }

  /** The subtrees below two children of the same unit share no unit. */
  lemma SiblingsDisjoint(units: seq<UnitRow>, chain: seq<UnitRow>, a: Node, b: Node)
    requires DistinctIds(units) && IsChain(units, chain + [a.unit]) && IsChain(units, chain + [b.unit])
    requires WellBuilt(units, a) && WellBuilt(units, b) && a.unit.id != b.unit.id
    ensures TreeIds(a) !! TreeIds(b)
  {
    var ca, cb := chain + [a.unit], chain + [b.unit];
    if x :| x in TreeIds(a) && x in TreeIds(b) {
      var sa := Reach(units, ca, a, x);
      var sb := Reach(units, cb, b, x);
      ChainsBranch(units, chain, a.unit, b.unit, sa, sb);
    }
  }

  lemma {:induction false} WellBuiltUnitsOnce(units: seq<UnitRow>, chain: seq<UnitRow>, n: Node)
    requires DistinctIds(units) && IsChain(units, chain) && chain[|chain| - 1] == n.unit
    requires WellBuilt(units, n)
    ensures UnitsOnce(n)
    decreases n
  {
    forall c | c in n.children ensures n.unit.id !in TreeIds(c) && UnitsOnce(c) {
      var below := chain + [c.unit];
      ChildExtends(units, chain, c.unit);
      WellBuiltUnitsOnce(units, below, c);
      if n.unit.id in TreeIds(c) {
        var s := Reach(units, below, c, n.unit.id);
        ChainsUnique(units, chain, below + s);
      }
    }
    forall i, j | 0 <= i < j < |n.children|
      ensures TreeIds(n.children[i]) !! TreeIds(n.children[j])
    {
      var a, b := n.children[i], n.children[j];
      assert a in n.children && b in n.children;
      ChildExtends(units, chain, a.unit);
      ChildExtends(units, chain, b.unit);
      SiblingsDisjoint(units, chain, a, b);
    }
  }

  /**
   * A product's tree is the table's parent links walked down from its root:
   * the root has no parent, every child records its parent, and every unit
   * appears in it at most once (so the tree is acyclic, and no unit's dict
   * entry is attached twice).
   */
  lemma HierarchyUnitsOnce(units: seq<UnitRow>)
    requires DistinctIds(units)
    ensures var r := ProductHierarchy(units); r.Some? ==> UnitsOnce(r.value)
  {
    var roots := FirstRoot(units);
    if roots.Some? {
      var root := units[roots.value];
      AttachWellBuilt(root, units, [root]);
      WellBuiltUnitsOnce(units, [root], Attach(root, units, [root]));
    }
  }
}
