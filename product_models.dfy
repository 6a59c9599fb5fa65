/**
 * The data classes of the inventory: products, their costs and margins,
 * stock batches, sales statistics and validation results, each with the
 * defaults its dataclass declares. Money is `real`.
 */
module ProductModels {
  import opened Wrappers

  datatype Product = Product(
    id: Option<int>,
    productCode: Option<string>,
    name: Option<string>,
    storeId: Option<int>,
    storeCode: Option<string>,
    sequenceNumber: Option<int>,
    stockQuantity: int,
    lowStockThreshold: int,
    image: Option<string>,
    parentProductId: Option<int>,
    relationToParent: Option<int>,
    unit: Option<string>,
    bigUnit: Option<string>)

  /** `Product()`: everything unset, no stock, a low-stock threshold of 5. */
  function DefaultProduct(): (p: Product)
    ensures p.stockQuantity == 0 && p.lowStockThreshold == 5
    ensures p.id.None? && p.productCode.None? && p.name.None? && p.storeId.None?
    ensures p.parentProductId.None? && p.relationToParent.None? && p.unit.None? && p.bigUnit.None?
  {
    Product(None, None, None, None, None, None, 0, 5, None, None, None, None, None)
  }

  datatype ProductCosts = ProductCosts(
    buyingPrice: real,
    retailPrice: real,
    wholesalePrice: real,
    wholesaleThreshold: int,
    shippingCost: real,
    handlingCost: real,
    landedCost: real,
    landedCostPerUnit: real,
    retailProfit: real,
    wholesaleProfit: real,
    expectedMargin: real,
    retailRatio: real,
    wholesaleRatio: real,
    usedActualData: bool)

  const DefaultRetailRatio: real := 0.7
  const DefaultWholesaleRatio: real := 0.3

  /** `ProductCosts()`: zero amounts, wholesale from one unit, the 70/30 split, no history. */
  function DefaultCosts(): (c: ProductCosts)
    ensures c.buyingPrice == 0.0 && c.retailPrice == 0.0 && c.wholesalePrice == 0.0
    ensures c.shippingCost == 0.0 && c.handlingCost == 0.0 && c.landedCost == 0.0
    ensures c.landedCostPerUnit == 0.0 && c.retailProfit == 0.0 && c.wholesaleProfit == 0.0
    ensures c.expectedMargin == 0.0 && c.wholesaleThreshold == 1
    ensures c.retailRatio == 0.7 && c.wholesaleRatio == 0.3 && !c.usedActualData
  {
    ProductCosts(0.0, 0.0, 0.0, 1, 0.0, 0.0, 0.0, 0.0, 0.0, 0.0, 0.0,
                 DefaultRetailRatio, DefaultWholesaleRatio, false)
  }

  datatype StockBatch = StockBatch(
    id: Option<int>,
    productId: Option<int>,
    productCode: Option<string>,
    storeId: Option<int>,
    storeCode: Option<string>,
    batchNumber: Option<string>,
    quantity: int,
    buyingPrice: real,
    shippingCost: real,
    handlingCost: real,
    expectedMargin: real,
    totalExpectedProfit: real,
    receivedDate: Option<string>,
    expiryDate: Option<string>,
    isActive: bool)

  /** `StockBatch()`: empty, zero amounts, active. */
  function DefaultStockBatch(): (b: StockBatch)
    ensures b.quantity == 0 && b.isActive
    ensures b.buyingPrice == 0.0 && b.shippingCost == 0.0 && b.handlingCost == 0.0
    ensures b.expectedMargin == 0.0 && b.totalExpectedProfit == 0.0
    ensures b.id.None? && b.batchNumber.None? && b.expiryDate.None?
  {
    StockBatch(None, None, None, None, None, None, 0, 0.0, 0.0, 0.0, 0.0, 0.0, None, None, true)
  }

  datatype SalesStats = SalesStats(
    totalSales: int,
    totalQuantity: real,
    retailRatio: real,
    wholesaleRatio: real,
    retailRevenue: real,
    wholesaleRevenue: real)

  /** `SalesStats()`: no sales and the 70/30 split. */
  function DefaultSalesStats(): (s: SalesStats)
    ensures s.totalSales == 0 && s.totalQuantity == 0.0
    ensures s.retailRatio == 0.7 && s.wholesaleRatio == 0.3
    ensures s.retailRevenue == 0.0 && s.wholesaleRevenue == 0.0
  {
    SalesStats(0, 0.0, DefaultRetailRatio, DefaultWholesaleRatio, 0.0, 0.0)
  }

  /** `ValidationResult(is_valid, value, message=None)`. */
  datatype ValidationResult<T> = ValidationResult(isValid: bool, value: T, message: Option<string>)

  /** The default 70/30 split covers all sales. */
  lemma DefaultRatiosSumToOne()
    ensures DefaultSalesStats().retailRatio + DefaultSalesStats().wholesaleRatio == 1.0
    ensures DefaultCosts().retailRatio + DefaultCosts().wholesaleRatio == 1.0
  {
  }
}
