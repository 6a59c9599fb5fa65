/**
 * Expected margin of a product: the retail and wholesale profits per unit
 * weighted by the share of units historically sold at each price, or by the
 * 70/30 default split. The sales-database read becomes an input: the
 * `sale_items` rows, or None when the database file or table is missing or
 * the query raises.
 */
module CostCalculation {
  import opened Wrappers
  import opened ProductModels

  /** One row of `sale_items`. */
  datatype SaleItemRow = SaleItemRow(productId: int, quantity: int, unitPrice: real, isWholesale: int)

  /** `COUNT(*) ... WHERE product_id = pid`. */
  function CountRows(rows: seq<SaleItemRow>, pid: int): (n: nat)
    ensures n <= |rows|
  {
    if |rows| == 0 then 0
    else (if rows[0].productId == pid then 1 else 0) + CountRows(rows[1..], pid)
  }

  /** `SUM(CASE WHEN cond THEN quantity ELSE 0 END)` over the product's rows; `flag` None means every row. */
  function QuantitySum(rows: seq<SaleItemRow>, pid: int, flag: Option<int>): real
  {
    if |rows| == 0 then 0.0
    else
      var r := rows[0];
      var counted := r.productId == pid && (flag.None? || r.isWholesale == flag.value);
      (if counted then r.quantity as real else 0.0) + QuantitySum(rows[1..], pid, flag)
  }

  /** `SUM(CASE WHEN is_wholesale = flag THEN quantity * unit_price ELSE 0 END)`. */
  function RevenueSum(rows: seq<SaleItemRow>, pid: int, flag: int): real
  {
    if |rows| == 0 then 0.0
    else
      var r := rows[0];
      (if r.productId == pid && r.isWholesale == flag then r.quantity as real * r.unitPrice else 0.0)
        + RevenueSum(rows[1..], pid, flag)
  }

  predicate ProductIdGiven(productId: Option<int>) {
    productId.Some? && productId.value > 0
  }

  /**
   * `get_sales_stats`: the historical retail and wholesale shares of the
   * quantity sold, or the defaults when there is no usable history.
   */
  function GetSalesStats(productId: Option<int>, db: Option<seq<SaleItemRow>>): (s: SalesStats)
    ensures !ProductIdGiven(productId) || db.None? ==> s == DefaultSalesStats()
    ensures ProductIdGiven(productId) && db.Some? ==>
      var total := QuantitySum(db.value, productId.value, None);
      if total == 0.0 then s == DefaultSalesStats()
      else
        s.totalQuantity == total
        && s.retailRatio * total == QuantitySum(db.value, productId.value, Some(0))
        && s.wholesaleRatio * total == QuantitySum(db.value, productId.value, Some(1))
  {
    if !ProductIdGiven(productId) || db.None? then DefaultSalesStats()
    else
      var rows, pid := db.value, productId.value;
      var total := QuantitySum(rows, pid, None);
      if total == 0.0 then DefaultSalesStats()
      else
        SalesStats(CountRows(rows, pid), total,
                   QuantitySum(rows, pid, Some(0)) / total,
                   QuantitySum(rows, pid, Some(1)) / total,
                   RevenueSum(rows, pid, 0), RevenueSum(rows, pid, 1))
  }

  /** Every row of the product is flagged retail (0) or wholesale (1). */
  predicate FlagsAreBoolean(rows: seq<SaleItemRow>, pid: int) {
    forall i :: 0 <= i < |rows| && rows[i].productId == pid ==> rows[i].isWholesale == 0 || rows[i].isWholesale == 1
  }

  /** With 0/1 flags, the retail and wholesale quantities add up to the total. */
  lemma {:induction false} QuantitiesPartitionTotal(rows: seq<SaleItemRow>, pid: int)
    requires FlagsAreBoolean(rows, pid)
    ensures QuantitySum(rows, pid, Some(0)) + QuantitySum(rows, pid, Some(1)) == QuantitySum(rows, pid, None)
  {
    if |rows| > 0 {
      assert FlagsAreBoolean(rows[1..], pid) by {
        forall i | 0 <= i < |rows[1..]| && rows[1..][i].productId == pid
          ensures rows[1..][i].isWholesale == 0 || rows[1..][i].isWholesale == 1
        {
          assert rows[1..][i] == rows[i + 1];
        }
      }
      QuantitiesPartitionTotal(rows[1..], pid);
    }
  }

  /** Two shares of a non-zero whole whose parts add up to the whole add up to one. */
  lemma SharesOfWhole(a: real, b: real, t: real)
    requires t != 0.0 && a + b == t
    ensures a / t + b / t == 1.0
  {
    assert a / t + b / t == (a + b) / t;
  }

  /** The two ratios always cover all of the sales when the flags are 0 or 1. */
  lemma RatiosSumToOne(productId: Option<int>, db: Option<seq<SaleItemRow>>)
    requires db.Some? && productId.Some? ==> FlagsAreBoolean(db.value, productId.value)
    ensures GetSalesStats(productId, db).retailRatio + GetSalesStats(productId, db).wholesaleRatio == 1.0
  {
    if ProductIdGiven(productId) && db.Some? {
      var rows, pid := db.value, productId.value;
      var total := QuantitySum(rows, pid, None);
      if total != 0.0 {
        var a, b := QuantitySum(rows, pid, Some(0)), QuantitySum(rows, pid, Some(1));
        QuantitiesPartitionTotal(rows, pid);
        SharesOfWhole(a, b, total);
        assert GetSalesStats(productId, db).retailRatio == a / total;
        assert GetSalesStats(productId, db).wholesaleRatio == b / total;
      }
    }
  }

  /**
   * `calculate_expected_margin`: profits per unit at each price and their
   * weighted sum. A negative margin is returned like any other; the result
   * echoes the prices and reports the landed cost as the buying price.
   */
  function CalculateExpectedMargin(retailPrice: real, wholesalePrice: real, landedCost: real,
                                   productId: Option<int>, db: Option<seq<SaleItemRow>>): (c: ProductCosts)
    ensures c.retailPrice == retailPrice && c.wholesalePrice == wholesalePrice
    ensures c.buyingPrice == landedCost && c.landedCost == landedCost
    ensures c.retailProfit == retailPrice - landedCost && c.wholesaleProfit == wholesalePrice - landedCost
    ensures c.expectedMargin == c.retailProfit * c.retailRatio + c.wholesaleProfit * c.wholesaleRatio
    ensures !ProductIdGiven(productId) ==> c.retailRatio == 0.7 && c.wholesaleRatio == 0.3
    ensures ProductIdGiven(productId) ==>
      c.retailRatio == GetSalesStats(productId, db).retailRatio
      && c.wholesaleRatio == GetSalesStats(productId, db).wholesaleRatio
    ensures c.usedActualData <==>
      ProductIdGiven(productId) && db.Some? && QuantitySum(db.value, productId.value, None) > 0.0
    ensures c.wholesaleThreshold == 1 && c.shippingCost == 0.0 && c.handlingCost == 0.0
  {
    var stats := GetSalesStats(productId, db);
    var rr := if ProductIdGiven(productId) then stats.retailRatio else DefaultRetailRatio;
    var wr := if ProductIdGiven(productId) then stats.wholesaleRatio else DefaultWholesaleRatio;
    var used := ProductIdGiven(productId) && stats.totalQuantity > 0.0;
    var rp := retailPrice - landedCost;
    var wp := wholesalePrice - landedCost;
    DefaultCosts().(retailPrice := retailPrice, wholesalePrice := wholesalePrice,
                    buyingPrice := landedCost, landedCost := landedCost,
                    retailProfit := rp, wholesaleProfit := wp,
                    expectedMargin := rp * rr + wp * wr,
                    retailRatio := rr, wholesaleRatio := wr, usedActualData := used)
  }

  /**
   * When the ratios cover all sales, the expected margin is the
   * ratio-weighted selling price minus the landed cost.
   */
  lemma MarginIsWeightedPriceMinusCost(retailPrice: real, wholesalePrice: real, landedCost: real,
                                       productId: Option<int>, db: Option<seq<SaleItemRow>>)
    requires db.Some? && productId.Some? ==> FlagsAreBoolean(db.value, productId.value)
    ensures var c := CalculateExpectedMargin(retailPrice, wholesalePrice, landedCost, productId, db);
      c.expectedMargin == c.retailRatio * retailPrice + c.wholesaleRatio * wholesalePrice - landedCost
  {
    RatiosSumToOne(productId, db);
    var c := CalculateExpectedMargin(retailPrice, wholesalePrice, landedCost, productId, db);
    calc {
      c.expectedMargin;
      (retailPrice - landedCost) * c.retailRatio + (wholesalePrice - landedCost) * c.wholesaleRatio;
      c.retailRatio * retailPrice + c.wholesaleRatio * wholesalePrice - (c.retailRatio + c.wholesaleRatio) * landedCost;
    }
  }

  /** A new product priced 1500 retail and 1200 wholesale with cost 900 expects a margin of 510. */
  lemma NewProductExample(db: Option<seq<SaleItemRow>>)
    ensures CalculateExpectedMargin(1500.0, 1200.0, 900.0, None, db).expectedMargin == 510.0
  {
  }
}
