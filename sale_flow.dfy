/**
 * `make_sale`: the cart a cashier builds (quantity prompt, wholesale rule,
 * FIFO selection per line), the payment choice, and the fixed order of the
 * steps that follow, each committed to its own database on its own:
 *
 *   1-3  the sale header, its items and one allocation row per drawn batch
 *        (sales database, one commit);
 *   4    each product's stock set to its cart snapshot less the quantity
 *        (inventory database);
 *   5-6  per line, the batch deduction and then the finalisation of every
 *        batch the line emptied;
 *   7    the cost prices of the sale's items;
 *   8    the debt row (DEBT) or the other-payment row (OTHER).
 *
 * A failed step 1-3 or 4 ends the sale; nothing already committed is undone.
 * Which commits succeed is an input (`Conditions`).
 */
module SaleFlow {
  import opened Wrappers
  import opened Text
  import opened InputRules
  import opened Inventory
  import opened SaleRetry
  import opened SaleRecords
  import opened SaleBatches
  import opened SaleCosting

  // ---------------------------------------------------------------------
  // Building the cart
  // ---------------------------------------------------------------------

  /** The product row the product search hands back, with the columns the sale reads. */
  datatype Listing = Listing(id: int, productCode: string, name: string, stockQuantity: int,
                             retailPrice: real, wholesalePrice: Option<real>, wholesaleThreshold: Option<int>)

  /** A quantity is taken when it is positive and within the listed stock. */
  predicate AcceptableQuantity(quantity: int, stock: int) {
    0 < quantity <= stock
  }

  /**
   * The quantity prompt: asks again after every entry that is not a number
   * (None) or not acceptable, and takes the first acceptable one.
   */
  method AskQuantity(entries: seq<Option<int>>, stock: int) returns (k: Option<nat>)
    ensures k.Some? ==> k.value < |entries| && entries[k.value].Some?
                        && AcceptableQuantity(entries[k.value].value, stock)
    ensures k.Some? ==> forall j :: 0 <= j < k.value ==>
                          !(entries[j].Some? && AcceptableQuantity(entries[j].value, stock))
    ensures k.None? ==> forall j :: 0 <= j < |entries| ==>
                          !(entries[j].Some? && AcceptableQuantity(entries[j].value, stock))
  {
    var i := 0;
    while i < |entries|
      invariant 0 <= i <= |entries|
      invariant forall j :: 0 <= j < i ==> !(entries[j].Some? && AcceptableQuantity(entries[j].value, stock))
    {
      if entries[i].Some? && AcceptableQuantity(entries[i].value, stock) {
        return Some(i);
      }
      i := i + 1;
    }
    return None;
  }

  /** Python truthiness of `wholesale_price and wholesale_threshold`: both set and non-zero. */
  predicate OffersWholesale(p: Listing) {
    p.wholesalePrice.Some? && p.wholesalePrice.value != 0.0
    && p.wholesaleThreshold.Some? && p.wholesaleThreshold.value != 0
  }

  /** The answer `input(...).strip().lower() == "yes"`. */
  predicate SaysYes(answer: string) {
    Lower(Strip(answer)) == "yes"
  }

  /** The question is asked only for a qualifying quantity; the line is wholesale on a yes. */
  predicate ChoosesWholesale(p: Listing, quantity: int, answer: string) {
    OffersWholesale(p) && quantity >= p.wholesaleThreshold.value && SaysYes(answer)
  }

  /** One entry of `cart`. */
  datatype CartLine = CartLine(productId: int, productCode: string, name: string, quantity: int,
                               unitPrice: real, isWholesale: bool, totalPrice: real, currentStock: int,
                               batches: seq<Allocation>)

  function MakeLine(p: Listing, quantity: int, answer: string, plan: seq<Allocation>): (l: CartLine)
    ensures l.productId == p.id && l.productCode == p.productCode && l.quantity == quantity
    ensures l.currentStock == p.stockQuantity && l.batches == plan
  {
    var wholesale := ChoosesWholesale(p, quantity, answer);
    var price := if wholesale then p.wholesalePrice.value else p.retailPrice;
    CartLine(p.id, p.productCode, p.name, quantity, price, wholesale, price * (quantity as real),
             p.stockQuantity, plan)
  }

  /**
   * The price rule: the wholesale price exactly when the product offers one,
   * the quantity reaches the threshold and the cashier says yes; the retail
   * price otherwise; the line total is price times quantity.
   */
  lemma PricingRule(p: Listing, quantity: int, answer: string, plan: seq<Allocation>)
    ensures var l := MakeLine(p, quantity, answer, plan);
      (l.isWholesale <==> OffersWholesale(p) && quantity >= p.wholesaleThreshold.value && SaysYes(answer))
      && (l.isWholesale ==> l.unitPrice == p.wholesalePrice.value)
      && (!l.isWholesale ==> l.unitPrice == p.retailPrice)
      && l.totalPrice == l.unitPrice * (quantity as real)
  {
  }

  /** A line whose plan is the FIFO plan for its quantity over the product's batches in the store. */
  predicate PlannedLine(rows: seq<Batch>, storeId: int, l: CartLine) {
    l.quantity > 0 && IsFifoPlan(SelectionQuery(rows, l.productId, storeId), l.quantity, l.batches)
  }

  /**
   * One round of the cart loop after the quantity was taken: select the
   * batches, and drop the product when the selection fails or is empty.
   */
  method AddToCart(env: nat -> DbStatus, rows: seq<Batch>, storeId: int, cart: seq<CartLine>,
                   p: Listing, quantity: int, answer: string) returns (r: seq<CartLine>)
    requires AcceptableQuantity(quantity, p.stockQuantity)
    ensures |cart| <= |r| <= |cart| + 1 && r[..|cart|] == cart
    ensures |r| == |cart| + 1 ==>
      (r[|cart|] == MakeLine(p, quantity, answer, r[|cart|].batches) && PlannedLine(rows, storeId, r[|cart|]))
    ensures Granted(env, DefaultRetries).Some? && TotalQuantity(SelectionQuery(rows, p.id, storeId)) >= quantity
            ==> |r| == |cart| + 1
  {
    var selection := GetStockBatchesForSale(env, rows, p.id, storeId, quantity);
    if selection.None? {
      return cart;
    }
    // The source also drops an empty selection; for a positive quantity a plan is never empty.
    NonEmptyPlan(SelectionQuery(rows, p.id, storeId), quantity, selection.value);
    r := cart + [MakeLine(p, quantity, answer, selection.value)];
    assert r[..|cart|] == cart;
  }

  /** A plan for a positive quantity draws on at least one batch, and the candidates are not empty. */
  lemma NonEmptyPlan(c: seq<Batch>, qty: int, plan: seq<Allocation>)
    requires qty > 0 && IsFifoPlan(c, qty, plan)
    ensures |plan| > 0 && |c| > 0
  {
  }

  /** The sum of the line totals. */
  function CartSum(cart: seq<CartLine>): real
  {
    if |cart| == 0 then 0.0 else CartSum(cart[..|cart| - 1]) + cart[|cart| - 1].totalPrice
  }

  lemma {:induction false} CartSumAppend(a: seq<CartLine>, b: seq<CartLine>)
    ensures CartSum(a + b) == CartSum(a) + CartSum(b)
    decreases |b|
  {
    if |b| == 0 {
      assert a + b == a;
    } else {
      assert (a + b)[..|a + b| - 1] == a + b[..|b| - 1];
      CartSumAppend(a, b[..|b| - 1]);
    }
  }

  /** The cart summary loop: `total_cart_value += item['total_price']`. */
  method CartTotal(cart: seq<CartLine>) returns (total: real)
    ensures total == CartSum(cart)
  {
    total := 0.0;
    for i := 0 to |cart|
      invariant total == CartSum(cart[..i])
    {
      assert cart[..i + 1][..i] == cart[..i];
      total := total + cart[i].totalPrice;
    }
    assert cart[..|cart|] == cart;
  }

  // ---------------------------------------------------------------------
  // Payment
  // ---------------------------------------------------------------------

  /** The menu `1`-`5`; anything else is an invalid choice. */
  function PaymentChoice(choice: string): (m: Option<PaymentMethod>)
  {
    if choice == "1" then Some(Cash)
    else if choice == "2" then Some(Mpesa)
    else if choice == "3" then Some(Bank)
    else if choice == "4" then Some(Debt)
    else if choice == "5" then Some(Other)
    else None
  }

  /**
   * The answer is stripped before the lookup: exactly the answers that
   * strip to one of the five menu entries name a method, and answers that
   * strip to different entries name different methods.
   */
  lemma PaymentChoiceExactly(a: string, b: string)
    ensures PaymentChoice(Strip(a)).Some? <==> Strip(a) in {"1", "2", "3", "4", "5"}
    ensures PaymentChoice(Strip(a)).Some? && PaymentChoice(Strip(a)) == PaymentChoice(Strip(b)) ==>
      Strip(a) == Strip(b)
  {
  }

  /** What the chosen method needs besides the total. */
  datatype PaymentDetails = NoDetails | Debtor(name: string, phone: string) | Description(text: string)

  /**
   * DEBT needs a debtor name that is not empty once sanitised and a valid
   * phone number; OTHER needs a description that is not empty once
   * sanitised; the other methods need nothing. None cancels the sale.
   */
  function DetailsFor(m: PaymentMethod, nameEntry: string, phoneEntry: string, descriptionEntry: string)
    : (d: Option<PaymentDetails>)
    ensures d.Some? && m == Debt ==> d.value.Debtor? && d.value.name != "" && ValidPhone(d.value.phone)
    ensures d.Some? && m == Other ==> d.value.Description? && d.value.text != ""
    ensures d.Some? && m != Debt && m != Other ==> d.value == NoDetails
    ensures d.None? ==> m == Debt || m == Other
  {
    match m
    case Debt =>
      var name := SanitizeInput(Strip(nameEntry));
      var phone := Strip(phoneEntry);
      if name == "" || !ValidPhone(phone) then None else Some(Debtor(name, phone))
    case Other =>
      var text := SanitizeInput(Strip(descriptionEntry));
      if text == "" then None else Some(Description(text))
    case _ => Some(NoDetails)
  }

  /** A debtor is refused exactly when the sanitised name is empty or the phone is not valid. */
  lemma DebtorRule(nameEntry: string, phoneEntry: string, descriptionEntry: string)
    ensures DetailsFor(Debt, nameEntry, phoneEntry, descriptionEntry).None? <==>
      SanitizeInput(Strip(nameEntry)) == "" || !PhoneBody(Strip(phoneEntry))
  {
    StrippedPhone(phoneEntry);
  }

  // ---------------------------------------------------------------------
  // Steps 1-3: the sale, its items and its allocations
  // ---------------------------------------------------------------------

  function ItemRecordOf(l: CartLine, saleId: int): SaleItemRecord {
    SaleItemRecord(saleId, l.productId, l.productCode, l.quantity, l.unitPrice, l.isWholesale, None)
  }

  /** One `sale_items` row per cart line, in cart order, not yet costed. */
  function ItemRecordsOf(cart: seq<CartLine>, saleId: int): (r: seq<SaleItemRecord>)
    ensures |r| == |cart|
    ensures forall k :: 0 <= k < |cart| ==> r[k] == ItemRecordOf(cart[k], saleId)
  {
    if |cart| == 0 then []
    else ItemRecordsOf(cart[..|cart| - 1], saleId) + [ItemRecordOf(cart[|cart| - 1], saleId)]
  }

  /** One `sale_batch_allocations` row per plan entry of a line. */
  function LineAllocations(l: CartLine, saleId: int): (r: seq<AllocationRecord>)
    ensures |r| == |l.batches|
    ensures forall j :: 0 <= j < |r| ==>
      r[j] == AllocationRecord(saleId, l.productId, l.batches[j].batchId, l.batches[j].deduct)
  {
    seq(|l.batches|, j requires 0 <= j < |l.batches| =>
      AllocationRecord(saleId, l.productId, l.batches[j].batchId, l.batches[j].deduct))
  }

  function AllocationRecordsOf(cart: seq<CartLine>, saleId: int): seq<AllocationRecord>
  {
    if |cart| == 0 then []
    else AllocationRecordsOf(cart[..|cart| - 1], saleId) + LineAllocations(cart[|cart| - 1], saleId)
  }

  /** The quantities of a sequence of allocation rows, summed. */
  function RecordedQuantity(rs: seq<AllocationRecord>): int
  {
    if |rs| == 0 then 0 else RecordedQuantity(rs[..|rs| - 1]) + rs[|rs| - 1].quantity
  }

  lemma {:induction false} RecordedQuantityOfLine(l: CartLine, saleId: int, n: nat)
    requires n <= |l.batches|
    ensures RecordedQuantity(LineAllocations(l, saleId)[..n]) == DeductedBefore(l.batches, n)
  {
    if n > 0 {
      var rs := LineAllocations(l, saleId);
      assert rs[..n][..n - 1] == rs[..n - 1];
      RecordedQuantityOfLine(l, saleId, n - 1);
    }
  }

  /** The allocation rows recorded for a planned line add up to its quantity. */
  lemma RecordedAllocationsCoverLine(rows: seq<Batch>, storeId: int, l: CartLine, saleId: int)
    requires PlannedLine(rows, storeId, l)
    ensures RecordedQuantity(LineAllocations(l, saleId)) == l.quantity
  {
    var rs := LineAllocations(l, saleId);
    RecordedQuantityOfLine(l, saleId, |l.batches|);
    assert rs[..|l.batches|] == rs;
  }

  /** `sale_data`: the header row of the sale. */
  function SaleRowOf(saleId: int, storeId: int, storeCode: string, userId: int, total: real, m: PaymentMethod)
    : SaleRow
  {
    SaleRow(saleId, storeId, storeCode, userId, total, m)
  }

  /**
   * Steps 1-3 in one transaction: the header, one item per line, then, once
   * the allocation table is there, one allocation per plan entry; one commit
   * at the end, so a failure anywhere writes nothing.
   */
  method RecordSale(db: SalesDb, cart: seq<CartLine>, header: SaleRow, recordsWrite: bool, allocationTable: bool)
    returns (ok: bool)
    modifies db
    ensures ok <==> recordsWrite && allocationTable
    ensures ok ==> db.sales == old(db.sales) + [header]
                   && db.items == old(db.items) + ItemRecordsOf(cart, header.id)
                   && db.allocations == old(db.allocations) + AllocationRecordsOf(cart, header.id)
    ensures !ok ==> db.sales == old(db.sales) && db.items == old(db.items) && db.allocations == old(db.allocations)
  {
    if !recordsWrite {
      return false;
    }
    var items := ItemsOfCart(cart, header.id);
    if !allocationTable {
      return false;
    }
    var allocations := AllocationsOfCart(cart, header.id);
    db.sales, db.items, db.allocations := db.sales + [header], db.items + items, db.allocations + allocations;
    return true;
  }

  /** Step 2: the item rows, line by line. */
  method ItemsOfCart(cart: seq<CartLine>, saleId: int) returns (items: seq<SaleItemRecord>)
    ensures items == ItemRecordsOf(cart, saleId)
  {
    items := [];
    for i := 0 to |cart|
      invariant items == ItemRecordsOf(cart[..i], saleId)
    {
      assert cart[..i + 1][..i] == cart[..i];
      items := items + [ItemRecordOf(cart[i], saleId)];
    }
    assert cart[..|cart|] == cart;
  }

  /** Step 3: the allocation rows, line by line and batch by batch. */
  method AllocationsOfCart(cart: seq<CartLine>, saleId: int) returns (allocations: seq<AllocationRecord>)
    ensures allocations == AllocationRecordsOf(cart, saleId)
  {
    allocations := [];
    for i := 0 to |cart|
      invariant allocations == AllocationRecordsOf(cart[..i], saleId)
    {
      assert cart[..i + 1][..i] == cart[..i];
      var rs := AllocationsOfLine(cart[i], saleId);
      allocations := allocations + rs;
    }
    assert cart[..|cart|] == cart;
  }

  method AllocationsOfLine(l: CartLine, saleId: int) returns (rs: seq<AllocationRecord>)
    ensures rs == LineAllocations(l, saleId)
  {
    rs := [];
    for j := 0 to |l.batches|
      invariant rs == LineAllocations(l, saleId)[..j]
    {
      assert LineAllocations(l, saleId)[..j + 1] == LineAllocations(l, saleId)[..j]
             + [AllocationRecord(saleId, l.productId, l.batches[j].batchId, l.batches[j].deduct)];
      rs := rs + [AllocationRecord(saleId, l.productId, l.batches[j].batchId, l.batches[j].deduct)];
    }
    assert LineAllocations(l, saleId)[..|l.batches|] == LineAllocations(l, saleId);
  }

  // ---------------------------------------------------------------------
  // Step 4: product stock from the cart snapshots
  // ---------------------------------------------------------------------

  /** `UPDATE products SET stock_quantity = ? WHERE id = ?`. */
  function SetProductStock(rows: seq<ProductRow>, id: int, stock: int): (r: seq<ProductRow>)
    ensures |r| == |rows|
    ensures forall k :: 0 <= k < |rows| ==>
      r[k] == if rows[k].id == id then rows[k].(stockQuantity := stock) else rows[k]
  {
    seq(|rows|, k requires 0 <= k < |rows| => if rows[k].id == id then rows[k].(stockQuantity := stock) else rows[k])
  }

  /** The product table after one update per line: `new_stock = current_stock - quantity`. */
  function StockAfter(rows: seq<ProductRow>, cart: seq<CartLine>): (r: seq<ProductRow>)
    ensures |r| == |rows|
  {
    if |cart| == 0 then rows
    else
      var l := cart[|cart| - 1];
      SetProductStock(StockAfter(rows, cart[..|cart| - 1]), l.productId, l.currentStock - l.quantity)
  }

  /** The last line of the cart for a product, if any. */
  function LastLineFor(cart: seq<CartLine>, productId: int): (l: Option<CartLine>)
    ensures l.Some? ==> l.value in cart && l.value.productId == productId
    ensures l.None? <==> forall i :: 0 <= i < |cart| ==> cart[i].productId != productId
  {
    if |cart| == 0 then None
    else if cart[|cart| - 1].productId == productId then Some(cart[|cart| - 1])
    else LastLineFor(cart[..|cart| - 1], productId)
  }

  /**
   * Each product's stock ends as the snapshot of the last line selling it
   * less that line's quantity; products not in the cart keep their stock.
   */
  lemma {:induction false} StockAfterEffect(rows: seq<ProductRow>, cart: seq<CartLine>, k: nat)
    requires k < |rows|
    ensures StockAfter(rows, cart)[k] ==
      match LastLineFor(cart, rows[k].id)
      case None => rows[k]
      case Some(l) => rows[k].(stockQuantity := l.currentStock - l.quantity)
  {
    if |cart| > 0 {
      StockAfterEffect(rows, cart[..|cart| - 1], k);
    }
  }

  /**
   * The same product twice in one cart: both lines carry the same stock
   * snapshot, so the second write replaces the first and only the second
   * quantity is taken off.
   */
  lemma RepeatedProductLosesFirstQuantity(rows: seq<ProductRow>, l1: CartLine, l2: CartLine, k: nat)
    requires k < |rows| && rows[k].id == l1.productId == l2.productId
    requires l1.currentStock == l2.currentStock == rows[k].stockQuantity
    ensures StockAfter(rows, [l1, l2])[k].stockQuantity == rows[k].stockQuantity - l2.quantity
  {
    StockAfterEffect(rows, [l1, l2], k);
  }

  /** Step 4: one update per line and one commit; a failure writes nothing. */
  method UpdateProductStock(db: InventoryDb, cart: seq<CartLine>, inventoryWrite: bool) returns (ok: bool)
    modifies db
    ensures ok == inventoryWrite
    ensures ok ==> db.products == StockAfter(old(db.products), cart)
    ensures !ok ==> db.products == old(db.products)
    ensures db.batches == old(db.batches)
  {
    if !inventoryWrite {
      return false;
    }
    var oldRows := db.products;
    var rows := oldRows;
    for i := 0 to |cart|
      invariant rows == StockAfter(oldRows, cart[..i])
    {
      assert cart[..i + 1][..i] == cart[..i];
      rows := SetProductStock(rows, cart[i].productId, cart[i].currentStock - cart[i].quantity);
    }
    assert cart[..|cart|] == cart;
    db.products := rows;
    return true;
  }

  // ---------------------------------------------------------------------
  // Steps 5-6: deduction and finalisation, line by line
  // ---------------------------------------------------------------------

  /** Which attempts of each later database touch meet the database, and which commits succeed. */
  datatype Conditions = Conditions(
    recordsWrite: bool,
    allocationTable: bool,
    inventoryWrite: bool,
    deduction: nat -> (nat -> DbStatus),
    finalising: nat -> (nat -> (nat -> DbStatus)),
    costing: nat -> DbStatus,
    paymentWrite: bool)

  /** Step 6 for one plan entry: only an entry that empties its batch triggers the finalisation. */
  function FinaliseEntry(rows: seq<Batch>, a: Allocation, env: nat -> DbStatus): seq<Batch>
  {
    if a.currentQuantity - a.deduct <= 0 && Granted(env, DefaultRetries).Some? && Finalise(rows, a.batchId).Some?
    then Finalise(rows, a.batchId).value
    else rows
  }

  /** Step 6 over the first `n` entries of a plan. */
  function FinaliseEntries(rows: seq<Batch>, plan: seq<Allocation>, envs: nat -> (nat -> DbStatus), n: nat)
    : seq<Batch>
    requires n <= |plan|
  {
    if n == 0 then rows
    else FinaliseEntry(FinaliseEntries(rows, plan, envs, n - 1), plan[n - 1], envs(n - 1))
  }

  /** Steps 5-6 for one line: a failed deduction skips the line's finalisation. */
  function LineEffect(rows: seq<Batch>, l: CartLine, deduction: nat -> DbStatus,
                      finalising: nat -> (nat -> DbStatus)): seq<Batch>
  {
    if Granted(deduction, DeductionRetries).Some? && AllPriced(l.batches)
    then FinaliseEntries(ApplyDeductions(rows, l.batches, l.unitPrice), l.batches, finalising, |l.batches|)
    else rows
  }

  /** The batch table after steps 5-6 for the first `n` lines. */
  function BatchesAfter(rows: seq<Batch>, cart: seq<CartLine>, cond: Conditions, n: nat): seq<Batch>
    requires n <= |cart|
  {
    if n == 0 then rows
    else LineEffect(BatchesAfter(rows, cart, cond, n - 1), cart[n - 1], cond.deduction(n - 1), cond.finalising(n - 1))
  }

  /** A line whose deduction fails leaves the batches as they were. */
  lemma FailedDeductionSkipsLine(rows: seq<Batch>, cart: seq<CartLine>, cond: Conditions, n: nat)
    requires n < |cart| && Granted(cond.deduction(n), DeductionRetries).None?
    ensures BatchesAfter(rows, cart, cond, n + 1) == BatchesAfter(rows, cart, cond, n)
  {
  }

  /** Step 6 for one line: finalise every batch the plan emptied. */
  method FinaliseLine(db: InventoryDb, plan: seq<Allocation>, envs: nat -> (nat -> DbStatus))
    modifies db
    ensures db.batches == FinaliseEntries(old(db.batches), plan, envs, |plan|)
    ensures db.products == old(db.products)
  {
    for j := 0 to |plan|
      invariant db.batches == FinaliseEntries(old(db.batches), plan, envs, j)
      invariant db.products == old(db.products)
    {
      var a := plan[j];
      if a.currentQuantity - a.deduct <= 0 {
        var _ := CalculateBatchProfit(db, envs(j), a.batchId);
      }
    }
  }

  /** Steps 5-6: every line's deduction, then that line's finalisations. */
  method DeductLines(db: InventoryDb, cart: seq<CartLine>, cond: Conditions)
    modifies db
    ensures db.batches == BatchesAfter(old(db.batches), cart, cond, |cart|)
    ensures db.products == old(db.products)
  {
    for i := 0 to |cart|
      invariant db.batches == BatchesAfter(old(db.batches), cart, cond, i)
      invariant db.products == old(db.products)
    {
      var l := cart[i];
      var profit := UpdateStockBatchesAfterSale(db, cond.deduction(i), l.batches, l.unitPrice, l.quantity);
      if profit.None? {
        continue;
      }
      FinaliseLine(db, l.batches, cond.finalising(i));
    }
  }

  // ---------------------------------------------------------------------
  // Step 8 and the whole sale
  // ---------------------------------------------------------------------

  /** The product ids of the cart, in cart order. */
  function ProductIds(cart: seq<CartLine>): (r: seq<int>)
    ensures |r| == |cart| && forall i :: 0 <= i < |cart| ==> r[i] == cart[i].productId
  {
    seq(|cart|, i requires 0 <= i < |cart| => cart[i].productId)
  }

  /** How far the sale got. */
  datatype SaleOutcome = Cancelled | NotRecorded | StockNotUpdated | Completed(costed: bool)

  /** Step 8: the debt row for DEBT, the other-payment row for OTHER; a failure is only a warning. */
  method RecordPayment(debts: DebtsDb, others: OtherPaymentsDb, details: PaymentDetails, header: SaleRow,
                       debtId: int, now: int, paymentWrite: bool)
    modifies debts, others
    ensures debts.debts == if paymentWrite && details.Debtor?
      then old(debts.debts) + [DebtRow(debtId, header.id, header.storeId, header.storeCode, header.userId,
                                       details.name, details.phone, header.totalPrice, now)]
      else old(debts.debts)
    ensures others.payments == if paymentWrite && details.Description?
      then old(others.payments) + [OtherPaymentRow(header.id, header.storeId, header.storeCode, details.text)]
      else old(others.payments)
    ensures debts.payments == old(debts.payments)
  {
    if !paymentWrite {
      return;
    }
    match details
    case Debtor(name, phone) =>
      debts.debts := debts.debts + [DebtRow(debtId, header.id, header.storeId, header.storeCode, header.userId,
                                            name, phone, header.totalPrice, now)];
    case Description(text) =>
      others.payments := others.payments + [OtherPaymentRow(header.id, header.storeId, header.storeCode, text)];
    case NoDetails =>
  }

  /** The payment row step 8 writes, if any. */
  function DebtRowOf(details: PaymentDetails, header: SaleRow, debtId: int, now: int): DebtRow
    requires details.Debtor?
  {
    DebtRow(debtId, header.id, header.storeId, header.storeCode, header.userId,
            details.name, details.phone, header.totalPrice, now)
  }

  /**
   * Steps 4-8 once the sale is recorded: a failed stock update ends the sale
   * with the sale rows in place; otherwise the deductions, the costing and
   * the payment row follow, each failing on its own.
   */
  method CompleteSale(inv: InventoryDb, sales: SalesDb, debts: DebtsDb, others: OtherPaymentsDb,
                      cart: seq<CartLine>, header: SaleRow, details: PaymentDetails, debtId: int, now: int,
                      cond: Conditions) returns (outcome: SaleOutcome)
    modifies inv, sales, debts, others
    ensures outcome.StockNotUpdated? <==> !cond.inventoryWrite
    ensures outcome.StockNotUpdated? || outcome.Completed?
    ensures sales.sales == old(sales.sales) && sales.allocations == old(sales.allocations)
    ensures outcome.StockNotUpdated? ==>
      inv.products == old(inv.products) && inv.batches == old(inv.batches) && sales.items == old(sales.items)
    ensures outcome.Completed? ==>
      inv.products == StockAfter(old(inv.products), cart)
      && inv.batches == BatchesAfter(old(inv.batches), cart, cond, |cart|)
      && (outcome.costed <==> cond.allocationTable && Granted(cond.costing, DefaultRetries).Some?)
      && sales.items == if outcome.costed
         then CostItems(old(sales.items), sales.allocations, inv.batches, header.id, ProductIds(cart))
         else old(sales.items)
    ensures debts.debts == if outcome.Completed? && cond.paymentWrite && details.Debtor?
      then old(debts.debts) + [DebtRowOf(details, header, debtId, now)]
      else old(debts.debts)
    ensures others.payments == if outcome.Completed? && cond.paymentWrite && details.Description?
      then old(others.payments) + [OtherPaymentRow(header.id, header.storeId, header.storeCode, details.text)]
      else old(others.payments)
    ensures debts.payments == old(debts.payments)
  {
    var stocked := UpdateProductStock(inv, cart, cond.inventoryWrite);
    if !stocked {
      return StockNotUpdated;
    }
    DeductLines(inv, cart, cond);
    var costed := CalculateSaleProfit(sales, inv.batches, cond.costing, cond.allocationTable, header.id,
                                      ProductIds(cart));
    RecordPayment(debts, others, details, header, debtId, now, cond.paymentWrite);
    return Completed(costed);
  }

  /** What the checkout settles before anything is written. */
  datatype Checkout = Checkout(payment: PaymentMethod, details: PaymentDetails)

  /**
   * The checkout: None (the sale is cancelled) when the cart is empty, the
   * confirmation is not a yes, the payment choice is invalid or the payment
   * details are refused.
   */
  function CheckoutOf(cart: seq<CartLine>, confirmation: string, choice: string,
                      nameEntry: string, phoneEntry: string, descriptionEntry: string): (r: Option<Checkout>)
    ensures r.Some? ==> |cart| > 0 && SaysYes(confirmation) && PaymentChoice(Strip(choice)) == Some(r.value.payment)
  {
    CheckoutFor(cart, confirmation, PaymentChoice(Strip(choice)), nameEntry, phoneEntry, descriptionEntry)
  }

  /** The checkout once the menu entry has been looked up. */
  function CheckoutFor(cart: seq<CartLine>, confirmation: string, pick: Option<PaymentMethod>,
                       nameEntry: string, phoneEntry: string, descriptionEntry: string): (r: Option<Checkout>)
    ensures r.Some? ==> |cart| > 0 && SaysYes(confirmation) && pick == Some(r.value.payment)
  {
    if |cart| == 0 || !SaysYes(confirmation) then None
    else match pick
      case None => None
      case Some(m) =>
        match DetailsFor(m, nameEntry, phoneEntry, descriptionEntry)
        case None => None
        case Some(d) => Some(Checkout(m, d))
  }

  /**
   * A checkout goes through exactly when the cart is not empty, the sale is
   * confirmed, the choice is on the menu and, for DEBT, the sanitised name is
   * not empty and the phone is valid, or, for OTHER, the sanitised
   * description is not empty.
   */
  lemma CheckoutRule(cart: seq<CartLine>, confirmation: string, choice: string,
                     nameEntry: string, phoneEntry: string, descriptionEntry: string)
    ensures CheckoutOf(cart, confirmation, choice, nameEntry, phoneEntry, descriptionEntry).Some? <==>
      |cart| > 0 && SaysYes(confirmation) && PaymentChoice(Strip(choice)).Some?
      && (PaymentChoice(Strip(choice)) == Some(Debt) ==>
            SanitizeInput(Strip(nameEntry)) != "" && PhoneBody(Strip(phoneEntry)))
      && (PaymentChoice(Strip(choice)) == Some(Other) ==> SanitizeInput(Strip(descriptionEntry)) != "")
  {
    CheckoutForRule(cart, confirmation, PaymentChoice(Strip(choice)), nameEntry, phoneEntry, descriptionEntry);
  }

  lemma CheckoutForRule(cart: seq<CartLine>, confirmation: string, pick: Option<PaymentMethod>,
                        nameEntry: string, phoneEntry: string, descriptionEntry: string)
    ensures CheckoutFor(cart, confirmation, pick, nameEntry, phoneEntry, descriptionEntry).Some? <==>
      |cart| > 0 && SaysYes(confirmation) && pick.Some?
      && (pick == Some(Debt) ==> SanitizeInput(Strip(nameEntry)) != "" && PhoneBody(Strip(phoneEntry)))
      && (pick == Some(Other) ==> SanitizeInput(Strip(descriptionEntry)) != "")
  {
    match pick
    case None =>
    case Some(m) =>
      if m == Debt {
        DebtorRule(nameEntry, phoneEntry, descriptionEntry);
      }
  }

  /** The details a checkout carries are the sanitised, stripped entries. */
  lemma CheckoutDetails(cart: seq<CartLine>, confirmation: string, choice: string,
                        nameEntry: string, phoneEntry: string, descriptionEntry: string)
    requires CheckoutOf(cart, confirmation, choice, nameEntry, phoneEntry, descriptionEntry).Some?
    ensures var co := CheckoutOf(cart, confirmation, choice, nameEntry, phoneEntry, descriptionEntry).value;
      (co.payment == Debt ==> co.details == Debtor(SanitizeInput(Strip(nameEntry)), Strip(phoneEntry)))
      && (co.payment == Other ==> co.details == Description(SanitizeInput(Strip(descriptionEntry))))
  {
    CheckoutForDetails(cart, confirmation, PaymentChoice(Strip(choice)), nameEntry, phoneEntry, descriptionEntry);
  }

  lemma CheckoutForDetails(cart: seq<CartLine>, confirmation: string, pick: Option<PaymentMethod>,
                           nameEntry: string, phoneEntry: string, descriptionEntry: string)
    requires CheckoutFor(cart, confirmation, pick, nameEntry, phoneEntry, descriptionEntry).Some?
    ensures var co := CheckoutFor(cart, confirmation, pick, nameEntry, phoneEntry, descriptionEntry).value;
      (co.payment == Debt ==> co.details == Debtor(SanitizeInput(Strip(nameEntry)), Strip(phoneEntry)))
      && (co.payment == Other ==> co.details == Description(SanitizeInput(Strip(descriptionEntry))))
  {
  }

  /**
   * `make_sale` from the finished cart on: cancelled before any write when
   * the checkout does not go through; then steps 1-3, and, once they are
   * committed, steps 4-8, none of which undoes them.
   */
  method MakeSale(inv: InventoryDb, sales: SalesDb, debts: DebtsDb, others: OtherPaymentsDb,
                  cart: seq<CartLine>, confirmation: string, choice: string,
                  nameEntry: string, phoneEntry: string, descriptionEntry: string,
                  storeId: int, storeCode: string, userId: int, saleId: int, debtId: int, now: int,
                  cond: Conditions) returns (outcome: SaleOutcome)
    modifies inv, sales, debts, others
    ensures var co := CheckoutOf(cart, confirmation, choice, nameEntry, phoneEntry, descriptionEntry);
      (outcome.Cancelled? <==> co.None?)
      && (outcome.NotRecorded? <==> co.Some? && !(cond.recordsWrite && cond.allocationTable))
      && (outcome.Cancelled? || outcome.NotRecorded? ==>
            sales.sales == old(sales.sales) && sales.items == old(sales.items)
            && sales.allocations == old(sales.allocations)
            && inv.products == old(inv.products) && inv.batches == old(inv.batches)
            && debts.debts == old(debts.debts) && others.payments == old(others.payments))
    ensures var co := CheckoutOf(cart, confirmation, choice, nameEntry, phoneEntry, descriptionEntry);
      co.Some? && cond.recordsWrite && cond.allocationTable ==>
        var header := SaleRowOf(saleId, storeId, storeCode, userId, CartSum(cart), co.value.payment);
        (outcome.StockNotUpdated? <==> !cond.inventoryWrite)
        && (outcome.StockNotUpdated? || outcome.Completed?)
        // Steps 1-3, once committed, stay whatever happens afterwards.
        && sales.sales == old(sales.sales) + [header]
        && sales.allocations == old(sales.allocations) + AllocationRecordsOf(cart, saleId)
        && (outcome.StockNotUpdated? ==>
              sales.items == old(sales.items) + ItemRecordsOf(cart, saleId)
              && inv.products == old(inv.products) && inv.batches == old(inv.batches))
        && (outcome.Completed? ==>
              inv.products == StockAfter(old(inv.products), cart)
              && inv.batches == BatchesAfter(old(inv.batches), cart, cond, |cart|)
              && (outcome.costed <==> Granted(cond.costing, DefaultRetries).Some?)
              && sales.items == if outcome.costed
                 then CostItems(old(sales.items) + ItemRecordsOf(cart, saleId), sales.allocations, inv.batches,
                                saleId, ProductIds(cart))
                 else old(sales.items) + ItemRecordsOf(cart, saleId))
        // Step 8: a debt row only for DEBT, an other-payment row only for OTHER.
        && debts.debts == (if outcome.Completed? && cond.paymentWrite && co.value.details.Debtor?
             then old(debts.debts) + [DebtRowOf(co.value.details, header, debtId, now)]
             else old(debts.debts))
        && others.payments == (if outcome.Completed? && cond.paymentWrite && co.value.details.Description?
             then old(others.payments) + [OtherPaymentRow(saleId, storeId, storeCode, co.value.details.text)]
             else old(others.payments))
    ensures debts.payments == old(debts.payments)
  {
    var co := CheckoutOf(cart, confirmation, choice, nameEntry, phoneEntry, descriptionEntry);
    if co.None? {
      return Cancelled;
    }
    var total := CartTotal(cart);
    var header := SaleRowOf(saleId, storeId, storeCode, userId, total, co.value.payment);
    var recorded := RecordSale(sales, cart, header, cond.recordsWrite, cond.allocationTable);
    if !recorded {
      return NotRecorded;
    }
    outcome := CompleteSale(inv, sales, debts, others, cart, header, co.value.details, debtId, now, cond);
  }
}
