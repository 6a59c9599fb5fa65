/**
 * The rows a sale leaves in the sales, debts and other-payments databases,
 * and the three databases as objects whose tables the sale and debt code
 * append to, update and delete from. Each database commits on its own.
 */
module SaleRecords {
  import opened Wrappers

  /** The `payment_method` values the `sales` table accepts. */
  datatype PaymentMethod = Cash | Mpesa | Bank | Debt | Other

  /** A row of `sales`. */
  datatype SaleRow = SaleRow(id: int, storeId: int, storeCode: string, userId: int,
                             totalPrice: real, paymentMethod: PaymentMethod)

  /** A row of `sale_items`; `cost_price` stays NULL until the sale is costed. */
  datatype SaleItemRecord = SaleItemRecord(saleId: int, productId: int, productCode: string,
                                           quantity: int, unitPrice: real, isWholesale: bool,
                                           costPrice: Option<real>)

  /** The generated column `profit = unit_price - cost_price`, NULL while the cost is. */
  function ItemProfit(r: SaleItemRecord): (p: Option<real>)
    ensures p.Some? <==> r.costPrice.Some?
    ensures p.Some? ==> p.value + r.costPrice.value == r.unitPrice
  {
    if r.costPrice.Some? then Some(r.unitPrice - r.costPrice.value) else None
  }

  /** A row of `sale_batch_allocations`: how much of one batch one sale line drew. */
  datatype AllocationRecord = AllocationRecord(saleId: int, productId: int, batchId: int, quantity: int)

  /** A row of `debts`; `createdAt` is an abstract, ordered timestamp. */
  datatype DebtRow = DebtRow(id: int, saleId: int, storeId: int, storeCode: string, userId: int,
                             debtorName: string, debtorPhone: string, amountOwed: real, createdAt: int)

  /** A row of `debt_payments`. */
  datatype DebtPaymentRow = DebtPaymentRow(debtId: int, amount: real, storeId: int, storeCode: string, userId: int)

  /** A row of `other_payments`: a description, and no amount. */
  datatype OtherPaymentRow = OtherPaymentRow(saleId: int, storeId: int, storeCode: string, description: string)

  class SalesDb {
    var sales: seq<SaleRow>
    var items: seq<SaleItemRecord>
    var allocations: seq<AllocationRecord>

    constructor(sales: seq<SaleRow>, items: seq<SaleItemRecord>, allocations: seq<AllocationRecord>)
      ensures this.sales == sales && this.items == items && this.allocations == allocations
    {
      this.sales := sales;
      this.items := items;
      this.allocations := allocations;
    }
  }

  class DebtsDb {
    var debts: seq<DebtRow>
    var payments: seq<DebtPaymentRow>

    constructor(debts: seq<DebtRow>, payments: seq<DebtPaymentRow>)
      ensures this.debts == debts && this.payments == payments
    {
      this.debts := debts;
      this.payments := payments;
    }
  }

  class OtherPaymentsDb {
    var payments: seq<OtherPaymentRow>

    constructor(payments: seq<OtherPaymentRow>)
      ensures this.payments == payments
    {
      this.payments := payments;
    }
  }
}
