# POS system core in Dafny

A verified model of the core of a point-of-sale and inventory system for
small shops. A shop's stock of each product is held in stock batches,
which are sold first in, first out. Each sale books the realised margin of
every batch it draws on. A product can come in several units (carton →
pack → piece), and costs and quantities are carried from one unit to the
next through the unit relations. Customers' debts are repaid oldest
first. Around this core sit the validators and string rules of the data
entry and user screens.

The model is one Dafny module per source file, with a few shared ones:

- **Batch ledger and sale** (`Core_busness_logic/sale_products.py`).
  - `SaleBatches`: FIFO selection, deduction and finalisation of batches.
  - `SaleCosting`: the cost price of a sold line.
  - `SaleRetry`: the bounded retry loop on "database is locked".
  - `SaleFlow`: the cart, the pricing and the order of the steps of `make_sale`.
  - `SaleRecords`: the sales, debts and other-payments databases as objects.
  - `InputRules`: the phone pattern and the sanitiser.
- **Margins** (`cost_calculation_service.py`): `CostCalculation`.
- **Unit hierarchies.**
  - `ExcelHierarchy` and `ExcelImport` model the Excel import.
  - `ManualEntry` and `ManualHierarchy` model manual entry.
  - `ProductService` and `ProductCodes` model the product service.
- **Data classes**: `ProductModels`, and the table rows in `Inventory`.
- **Debts** (`debts.py`): `Debts`.
- **Validators.**
  - `ValidationService`, `EmailRules` and `Registration`.
  - `Usernames`, with `Sellers`.
  - `BusinessCosts`, `Helpers` and `ImageNames`.
- **Shared modules.**
  - `Wrappers`: Option.
  - `Text`: ASCII character classes, strip, lower.
  - `Calendar`: Python's proleptic Gregorian `date`, `timedelta` and `strptime('%Y-%m-%d')`.
  - `PyNumbers`: `int()` and `float()` on prompt text, with NaN and the infinities.
  - `Rounding`: `round(x, 2)`.
  - `Sorting`: `ORDER BY` as a stable sort.
  - `Session`: the logged-in user record.

## How the model is built

- **Values.** Money is `real`, and integers are unbounded.
- **Tables.**
  - A database table is a sequence of rows. `UPDATE ... WHERE id = ?` maps over the rows.
  - The sale code's databases are objects whose methods append to, update and delete from their tables. Each database commits on its own.
- **Code that changes state step by step becomes a method.** Each method's loop invariants tie it to a specification function, and the properties are proved about that function. For example:
  - the FIFO selection and the deduction;
  - the debt repayment loop;
  - the retry loop;
  - the username loops and the image-name collision loop;
  - the stock cascades;
  - the default propagation and `build_order`.
- **Inputs that come from outside are parameters.** These are:
  - the clock (`now`, `today`);
  - what `input()` returns (a sequence of answers; running out of answers stands for EOFError);
  - the outcome of each database attempt (available, locked, or another error);
  - the database rows read;
  - the row ids SQLite assigns;
  - the file the image dialog returns, and the list of existing image files;
  - the location of the helpers file (`__file__`);
  - the SHA-256 hash function.

## Behaviour of the code worth knowing

- **Cumulative relation in the Excel import.**
  - `check_and_calculate_relation_values` takes its values from the nearest unit up the path that has them (`insert_data_by_using_excel.py:465-466`).
  - It divides them, though, by the relation from the unit to the base unit at the end of the path (`insert_data_by_using_excel.py:461-462`), whichever unit supplied the values.
  - `ExcelHierarchy.CalculateAsWritten` models that. The mismatch is a finding, below.
- **Relations at or below zero.**
  - Manual entry refuses them: `validate_relation` asks again until the relation is a positive integer (`validation_service.py:139-148`).
  - The Excel hierarchy map instead replaces a blank, unreadable or non-positive relation with 1.0 (`insert_data_by_using_excel.py:563-571`). See `ExcelHierarchy.RelationOf`.
- **A parent missing from the Excel map.**
  - This is not a second root. It is appended to the path with relation 1, and the path ends there (`insert_data_by_using_excel.py:529-536`).
- **Finalising a batch created with the stock-batch service.**
  - The insert of `create_stock_batch` leaves `actual_margin` and `total_actual_profit` to the table's defaults, 0 (`Databases/database_setup.py:137-139`). See `ProductService.NewStockBatch`.
  - `calculate_batch_profit` writes the final profit only while `total_actual_profit` is NULL (`Core_busness_logic/sale_products.py:356`).
  - So a batch created this way is never finalised when a sale empties it, and its profit stays whatever the per-sale updates added (`SaleBatches.FinaliseRule`).
- **Child cost defaults in `add_multi_unit_batch`.**
  - At `insert_data_manual.py:406-408` the parent costs are built with trailing commas, so they are one-element tuples, and the division by the relation is commented out.
  - `safe_value` (`product_service.py:285-289`) unwraps the tuples.
  - `get_comprehensive_product_costs` (`product_service.py:329-339`) then divides them by the unit's own relation.
  - So every unit below the largest is offered the largest unit's costs divided by its own relation, not by the cumulative one. This holds for a grandchild too (`ManualHierarchy.PlansFromLargest`, `ProductService.TupleParentCostsDivided`).
  - Without a largest unit, the loop divides the unit's own current costs by the relation, and the service divides them again (`ManualHierarchy.FallbackDividesTwice`).

## Model

| member | source | states |
|---|---|---|
| ProductModels.DefaultProduct | Data_ingestion/models/product.py:13-28 | a fresh product has no stock, a low-stock threshold of 5 and every identifying field unset |
| ProductModels.DefaultCosts | Data_ingestion/models/product.py:30-46 | fresh costs are all zero, wholesale starts at one unit, the split is 70/30 and no history was used |
| ProductModels.DefaultStockBatch | Data_ingestion/models/product.py:48-65 | a fresh batch holds nothing, costs nothing and is active |
| ProductModels.DefaultSalesStats | Data_ingestion/models/product.py:67-75 | fresh statistics have no sales, no quantity and the 70/30 split |
| ProductModels.DefaultRatiosSumToOne | Data_ingestion/models/product.py:72-73 | both default splits cover all sales (0.7 + 0.3 = 1) |
| CostCalculation.CountRows | Data_ingestion/services/cost_calculation_service.py:48-58 | `COUNT(*)` over the product's rows is at most the number of rows |
| CostCalculation.GetSalesStats | Data_ingestion/services/cost_calculation_service.py:26-95 | defaults without a positive product id or a readable database and when nothing was sold; otherwise total quantity, and each ratio times the total equals that price's quantity |
| CostCalculation.QuantitiesPartitionTotal | Data_ingestion/services/cost_calculation_service.py:51-53 | with 0/1 wholesale flags the retail and wholesale quantities add up to the total quantity |
| CostCalculation.RatiosSumToOne | Data_ingestion/services/cost_calculation_service.py:73-77 | the retail and wholesale ratios always add up to 1 when the flags are 0 or 1 |
| CostCalculation.CalculateExpectedMargin | Data_ingestion/services/cost_calculation_service.py:98-154 | profits are price minus landed cost, the margin is their ratio-weighted sum, ratios default to 0.7/0.3 without a product id, `used_actual_data` exactly when history has a positive quantity, prices echoed and buying price = landed cost |
| CostCalculation.MarginIsWeightedPriceMinusCost | Data_ingestion/services/cost_calculation_service.py:131-135 | the expected margin equals the ratio-weighted selling price minus the landed cost |
| CostCalculation.NewProductExample | Data_ingestion/services/cost_calculation_service.py:106-135 | a new product at 1500/1200 with cost 900 expects 510 |
| Inventory.LandedCost | Databases/database_setup.py:131 | the generated landed cost is defined exactly when shipping and handling are, and exceeds the buying price by their sum |
| SaleRecords.ItemProfit | Databases/database_setup.py:206 | the generated profit is defined exactly when the cost price is, and profit + cost price = unit price |
| SaleRetry.GrantedFrom | Core_busness_logic/sale_products.py:51-83 | an attempt that gets through lies within the retry budget and met an available database |
| SaleRetry.GrantedFromExactly | Core_busness_logic/sale_products.py:51-83 | attempt k gets through exactly when k is within the budget, the database is available then, and every earlier attempt met a lock |
| SaleRetry.GrantedExactly | Core_busness_logic/sale_products.py:51-83 | the same rule from the first attempt: success on attempt k iff all of attempts 0..k-1 were locked |
| SaleRetry.NoRetryAfterOtherError | Core_busness_logic/sale_products.py:79-83 | an error other than a lock, reached before success, ends the loop in failure with no further retry |
| SaleRetry.AwaitDatabase | Core_busness_logic/sale_products.py:52-83 | the loop grants the first attempt that meets the database within the budget with only locks before it, makes at most max_retries attempts and stops right after the granted one |
| SaleBatches.FifoLeIsTotalPreorder | Core_busness_logic/sale_products.py:220 | ordering by received date and then id is a total preorder, so the sorted selection is well defined |
| SaleBatches.EligibleRows | Core_busness_logic/sale_products.py:219 | exactly the active rows of the product and store with stock left, and no row invented |
| SaleBatches.SelectionQuery | Core_busness_logic/sale_products.py:212-221 | the query returns exactly the eligible rows, as a permutation of them, oldest received first and then by id |
| SaleBatches.AllocationOf | Core_busness_logic/sale_products.py:237-248 | an allocation entry copies the batch's id, current quantity, landed cost and original quantity and records the amount to deduct |
| SaleBatches.FifoPlanDrawsMinimum | Core_busness_logic/sale_products.py:232-250 | every entry of a FIFO plan draws min(batch quantity, still needed) from its batch |
| SaleBatches.PlanOutcome | Core_busness_logic/sale_products.py:229-255 | when the loop stops, something is still needed exactly when the candidates hold less than the quantity, and otherwise the entries form a FIFO plan |
| SaleBatches.PlanFifo | Core_busness_logic/sale_products.py:229-255 | the distribution loop reports a shortfall exactly when the candidates hold less than needed, and otherwise returns a FIFO plan: oldest first, each entry but the last emptying its batch, the total drawn equal to the quantity |
| SaleBatches.GetStockBatchesForSale | Core_busness_logic/sale_products.py:204-270 | None when the retries give up, when no batch qualifies or when the qualifying batches hold too little; otherwise the FIFO plan over the selection |
| SaleBatches.ApplyDeductions | Core_busness_logic/sale_products.py:282-304 | the updates leave the table with the same number of rows |
| SaleBatches.DeductionEffect | Core_busness_logic/sale_products.py:282-304 | a row the plan draws on is updated from its entry's snapshot: quantity less the amount drawn, active only while stock remains, margin replaced, profit accumulated; every other row is unchanged |
| SaleBatches.RepeatedDeduction | Core_busness_logic/sale_products.py:289-302 | over two sales the margin is the last sale's, the profit is the sum of both, and the quantity comes from the second snapshot alone |
| SaleBatches.UpdateStockBatchesAfterSale | Core_busness_logic/sale_products.py:272-324 | the table is changed exactly when the retries get through and every entry has a landed cost, and then it is the table with all the plan's updates; otherwise nothing is written |
| SaleBatches.FinaliseWritesOnlyEmptyUnprofitedBatch | Core_busness_logic/sale_products.py:351-366 | finalisation writes only an empty batch whose profit is NULL, setting the margin to the realised (else expected) margin and the profit to that margin times the original quantity, and touches no other row |
| SaleBatches.FinaliseNeverOverwritesProfit | Core_busness_logic/sale_products.py:356 | a batch that already has a profit is left as it is |
| SaleBatches.FinaliseIdempotent | Core_busness_logic/sale_products.py:351-366 | finalising a batch twice has the effect of finalising it once |
| SaleBatches.FinaliseAfterDeductionWritesNothing | Core_busness_logic/sale_products.py:294-302 | after a sale has drawn on a batch, finalising it writes nothing, since the deduction already set its profit |
| SaleBatches.CalculateBatchProfit | Core_busness_logic/sale_products.py:326-384 | returns True exactly when the retries get through and the batch exists with defined data, and the table then becomes the finalised table; otherwise nothing changes |
| SaleCosting.AllocationsFor | Core_busness_logic/sale_products.py:430-436 | exactly the allocation records of this sale and product, in table order |
| SaleCosting.SumAllocatedCosts | Core_busness_logic/sale_products.py:447-466 | the loop's totals are the landed cost times quantity and the quantity, summed over the allocations whose batch has a known landed cost |
| SaleCosting.FallbackCosts | Core_busness_logic/sale_products.py:509-513 | at most one landed cost per stock row is averaged by the fallback |
| SaleCosting.CostPriceWithinAllocatedCosts | Core_busness_logic/sale_products.py:447-471 | with a positive allocated quantity of known cost, the booked cost price lies between the cheapest and the dearest allocated landed cost |
| SaleCosting.UniformCostIsCostPrice | Core_busness_logic/sale_products.py:467-471 | when every allocated batch of known cost has the same landed cost, that is the booked cost price |
| SaleCosting.CostPriceFallsBack | Core_busness_logic/sale_products.py:472-476 | with no positive quantity of known cost the fallback average is booked |
| SaleCosting.FallbackCostBounds | Core_busness_logic/sale_products.py:504-523 | the fallback is 0 when no active batch of the product has a known landed cost, and otherwise lies between the cheapest and dearest of them |
| SaleCosting.FallbackIgnoresStore | Core_busness_logic/sale_products.py:509-513 | the fallback average is the same whichever store the batches belong to |
| SaleCosting.SetCost | Core_busness_logic/sale_products.py:479-484 | the update sets the cost price of exactly the sale's lines of that product and changes nothing else |
| SaleCosting.CostItemsEffect | Core_busness_logic/sale_products.py:419-486 | after costing, each line of the sale whose product is in the cart carries that product's cost price and every other line is unchanged |
| SaleCosting.CostedLineProfit | Core_busness_logic/sale_products.py:419-486 | after costing, a costed line's generated profit is its unit price less the booked cost price |
| SaleCosting.LineCostPrice | Core_busness_logic/sale_products.py:426-476 | the loop over the allocation rows returns the line's cost price: the allocation-weighted landed cost, or the fallback average |
| SaleCosting.CalculateSaleProfit | Core_busness_logic/sale_products.py:408-502 | returns True exactly when the allocation table is ready and the retries get through, and then the sale items carry the booked cost prices; otherwise nothing is written; sales and allocations are never touched |
| SaleFlow.AskQuantity | Core_busness_logic/sale_products.py:568-581 | the prompt takes the first entry that is a number, positive and within the listed stock, and only gives up when no entry is |
| SaleFlow.MakeLine | Core_busness_logic/sale_products.py:606-616 | the cart line carries the product's id, code, listed stock, the quantity taken and the FIFO plan |
| SaleFlow.PricingRule | Core_busness_logic/sale_products.py:589-601 | the line is wholesale exactly when the product has a non-zero wholesale price and threshold, the quantity reaches the threshold and the answer is yes; the unit price is then the wholesale price, otherwise the retail price; the total is price times quantity |
| SaleFlow.AddToCart | Core_busness_logic/sale_products.py:584-616 | the cart grows by at most one line, which is then the priced line with the FIFO plan, and it does grow whenever the retries get through and the selected batches hold enough |
| SaleFlow.NonEmptyPlan | Core_busness_logic/sale_products.py:584-587 | a plan for a positive quantity draws on at least one batch, so the emptiness test in the cart loop never drops a product the plan serves |
| SaleFlow.CartSumAppend | Core_busness_logic/sale_products.py:632-637 | the cart value of two carts joined is the sum of their values |
| SaleFlow.CartTotal | Core_busness_logic/sale_products.py:632-637 | the summary loop's total is the sum of the line totals |
| SaleFlow.PaymentChoiceExactly | Core_busness_logic/sale_products.py:655-667 | exactly the entries that read 1 to 5 once surrounding whitespace is stripped name a payment method, and entries that strip differently name different methods |
| SaleFlow.DetailsFor | Core_busness_logic/sale_products.py:669-684 | a debt carries a non-empty name and a valid phone, another payment a non-empty description, the other methods nothing; only debt and other can be refused |
| SaleFlow.DebtorRule | Core_busness_logic/sale_products.py:672-677 | a debtor is refused exactly when the sanitised stripped name is empty or the stripped phone is not a valid number |
| SaleFlow.ItemRecordsOf | Core_busness_logic/sale_products.py:713-727 | one item row per cart line, in cart order, each built from its line |
| SaleFlow.LineAllocations | Core_busness_logic/sale_products.py:735-747 | one allocation row per plan entry of the line, naming the entry's batch and quantity |
| SaleFlow.RecordedQuantityOfLine | Core_busness_logic/sale_products.py:735-747 | the first n allocation rows of a line record as much as the first n plan entries draw |
| SaleFlow.RecordedAllocationsCoverLine | Core_busness_logic/sale_products.py:734-747 | the allocation rows recorded for a planned line add up to the line's quantity |
| SaleFlow.RecordSale | Core_busness_logic/sale_products.py:689-755 | steps 1-3 write the header, the item rows and the allocation rows together when the writes and the allocation table succeed, and nothing at all otherwise |
| SaleFlow.ItemsOfCart | Core_busness_logic/sale_products.py:713-727 | the loop gives one item row per cart line, in cart order, before costing |
| SaleFlow.AllocationsOfCart | Core_busness_logic/sale_products.py:734-747 | the loop gives one allocation row per drawn batch of each line, line after line in cart order |
| SaleFlow.AllocationsOfLine | Core_busness_logic/sale_products.py:735-747 | the inner loop produces the line's allocation rows |
| SaleFlow.SetProductStock | Core_busness_logic/sale_products.py:764-767 | the update sets the stock of exactly the rows with that product id and changes nothing else |
| SaleFlow.StockAfter | Core_busness_logic/sale_products.py:761-767 | the product table keeps its rows |
| SaleFlow.StockAfterEffect | Core_busness_logic/sale_products.py:761-767 | each product's stock ends as the snapshot of the last cart line selling it less that line's quantity; products not in the cart keep their stock |
| SaleFlow.RepeatedProductLosesFirstQuantity | Core_busness_logic/sale_products.py:761-767 | with the same product on two lines from one snapshot, only the second quantity is taken off the stock |
| SaleFlow.UpdateProductStock | Core_busness_logic/sale_products.py:759-771 | when the write succeeds each line's product stock becomes its cart snapshot less its quantity, in cart order; otherwise nothing changes; the batches are untouched |
| SaleFlow.FailedDeductionSkipsLine | Core_busness_logic/sale_products.py:782-785 | a line whose batch deduction fails leaves the batches as they were, skipping its finalisation |
| SaleFlow.FinaliseLine | Core_busness_logic/sale_products.py:789-792 | step 6 finalises, in order, every batch the line's plan empties |
| SaleFlow.DeductLines | Core_busness_logic/sale_products.py:775-792 | steps 5-6 leave the batch table as each line's deduction followed by that line's finalisations, and never touch the products |
| SaleFlow.RecordPayment | Core_busness_logic/sale_products.py:805-852 | step 8 appends the debt row for a debt sale or the other-payment row for an other sale when the write succeeds, and nothing otherwise |
| SaleFlow.CompleteSale | Core_busness_logic/sale_products.py:757-852 | a failed stock update ends the sale with stock, batches and items untouched; otherwise stock, batches, costed items and the payment row are exactly those of steps 4-8, and the sale rows are never changed |
| SaleFlow.CheckoutOf | Core_busness_logic/sale_products.py:626-684 | a checkout that goes through has a non-empty cart, a yes confirmation and the payment method of the stripped menu entry |
| SaleFlow.CheckoutRule | Core_busness_logic/sale_products.py:626-684 | a checkout goes through exactly when the cart is non-empty, the sale is confirmed, the stripped entry is on the menu, and a debt has a non-empty sanitised name and a valid phone, an other payment a non-empty sanitised description |
| SaleFlow.CheckoutDetails | Core_busness_logic/sale_products.py:672-684 | the details carried are the sanitised stripped name with the stripped phone, or the sanitised stripped description |
| SaleFlow.MakeSale | Core_busness_logic/sale_products.py:626-852 | nothing is written when the checkout is refused or steps 1-3 fail; otherwise the sale rows are written once and kept, and the rest of the state is that of steps 4-8 |
| InputRules.SanitizeInput | Core_busness_logic/register_user_for_login.py:42-44 | the result is a subsequence-sized text of allowed characters only, keeping every allowed character of the input |
| InputRules.SanitizeIdempotent | Core_busness_logic/register_user_for_login.py:42-44 | sanitising twice gives the result of sanitising once |
| InputRules.SanitizeKeepsClean | Core_busness_logic/register_user_for_login.py:42-44 | a text of allowed characters only is left unchanged |
| InputRules.PhoneForms | Core_busness_logic/register_user_for_login.py:46-49 | +255, 255 or 0 followed by nine digits is accepted |
| InputRules.PhoneShape | Core_busness_logic/register_user_for_login.py:46-49 | conversely every accepted number is digits, possibly after one +, of length 10, 12 or 13 |
| InputRules.StrippedPhone | Core_busness_logic/sale_products.py:23-27 | on a stripped entry the pattern's end anchor matches only at the very end |
| Rounding.Round2Bounds | Data_ingestion/insert_data_manual.py:2107-2108 | rounding to two places stays within half a cent of the exact value |
| Rounding.Round2Cents | Data_ingestion/insert_data_manual.py:2107-2108 | a whole number of cents is left unchanged by rounding |
| Debts.DebtsOf | Core_busness_logic/debts.py:117-122 | exactly the debts of that store, name and phone |
| Debts.DebtorKeys | Core_busness_logic/debts.py:55-60 | the distinct (name, phone) pairs of the store's debts, each once and every one present |
| Debts.Summaries | Core_busness_logic/debts.py:55-60 | one summary per distinct debtor of the store, each with at least one debt and the total of that debtor's debts, and every store debt belongs to a summary |
| Debts.Matching | Core_busness_logic/debts.py:85-88 | exactly the summaries whose lower-cased name contains the query |
| Debts.SelectDebtor | Core_busness_logic/debts.py:74-96 | a chosen debtor is always one of the listed summaries |
| Debts.ByName | Core_busness_logic/debts.py:84-96 | a name search chooses, is ambiguous, or finds none |
| Debts.ChosenByNameIsUnique | Core_busness_logic/debts.py:84-96 | when some debtor's name contains the query, the search is either ambiguous or chooses exactly that debtor |
| Debts.SelectByName | Core_busness_logic/debts.py:79-84 | an entry that is not q and not a digit string is looked up by its lower-cased stripped text |
| Debts.ChosenByPosition | Core_busness_logic/debts.py:79-82 | the entry k picks the k-th debtor of the list |
| Debts.EmptyEntryPicksOnlyDebtor | Core_busness_logic/debts.py:84-90 | an empty entry selects a store's only debtor, since it is contained in every name |
| Debts.PaymentAmount | Core_busness_logic/debts.py:103-114 | an amount is accepted exactly when it is not negative and either 0 or within the total, and 0 stands for the whole total |
| Debts.OrderedDebts | Core_busness_logic/debts.py:117-122 | the debtor's debts, as a permutation of them, oldest first |
| Debts.Distribution | Core_busness_logic/debts.py:126-141 | the loop takes at most one step per debt, in the order of the debts |
| Debts.DeletesBeforeLast | Core_busness_logic/debts.py:126-141 | every debt before the last one touched is deleted for its whole amount |
| Debts.LastStep | Core_busness_logic/debts.py:126-141 | the last debt touched is deleted for its whole amount or reduced by strictly less than it owes, after which nothing is left over |
| Debts.AppliedPlusLeftover | Core_busness_logic/debts.py:126-141 | the remaining payment drops by exactly what the steps apply, and ends at or below zero unless every debt was deleted |
| Debts.DistributionPlacesPayment | Core_busness_logic/debts.py:126-141 | a payment within what non-negative debts owe is placed in full, nothing left over |
| Debts.SumOwedSorted | Core_busness_logic/debts.py:117-122 | ordering the debts by date changes no total |
| Debts.Without | Core_busness_logic/debts.py:135 | the delete removes exactly the rows with that id |
| Debts.ReduceWhere | Core_busness_logic/debts.py:138-139 | the update reduces exactly the rows with that id by the amount and changes nothing else |
| Debts.StepFor | Core_busness_logic/debts.py:129-141 | the step found for a debt is one of the steps and names that debt |
| Debts.ApplyStepsRows | Core_busness_logic/debts.py:126-141 | after the loop's writes each row is deleted or reduced by the step for its id, and a row no step names is kept |
| Debts.DistributionIdsDistinct | Core_busness_logic/debts.py:126-141 | distinct debt ids give distinct steps, so no row is written twice |
| Debts.DistributePayment | Core_busness_logic/debts.py:126-141 | oldest first, the loop deletes each debt the remaining payment covers and reduces the first one it does not, then returns what is left of the payment |
| Debts.PaymentRecord | Core_busness_logic/debts.py:143-153 | a payment row is written only for a positive amount and a debtor with debts, and names the oldest debt and the whole amount |
| Debts.PaymentRequest | Core_busness_logic/debts.py:35-114 | the checks in source order: not a boss, no store, store not found, no debts, no debtor chosen, not a number, amount refused; a request that passes has a chosen debtor and an accepted amount |
| Debts.SettleDebtor | Core_busness_logic/debts.py:126-155 | the writes are the distribution's deletes and reductions plus the payment row, if any |
| Debts.PayDebt | Core_busness_logic/debts.py:31-171 | nothing is written unless every check passes and the commit succeeds; then the debtor's debts absorb the amount oldest first and the payment row is added |
| Debts.OrderedDebtsOfSummary | Core_busness_logic/debts.py:55-122 | the ordered debts fetched for a chosen summary total exactly the summary's amount |
| Debts.PaidAmountPlacedInFull | Core_busness_logic/debts.py:103-141 | any accepted payment on non-negative debts is placed in full: nothing left over, exactly the amount applied |
| ExcelHierarchy.SafeFloat | Data_ingestion/insert_data_by_using_excel.py:736-743 | a cell gives a number exactly when it holds one, and then that number |
| ExcelHierarchy.Str | Data_ingestion/insert_data_by_using_excel.py:556-557 | a text cell reads as its text, and an empty cell as "nan" |
| ExcelHierarchy.RelationOf | Data_ingestion/insert_data_by_using_excel.py:563-571 | the relation is always positive: the cell's number when positive, 1 otherwise |
| ExcelHierarchy.Keyed | Data_ingestion/insert_data_by_using_excel.py:553-561 | a row defines a unit exactly when its name and unit are both filled after stripping |
| ExcelHierarchy.KeyedRows | Data_ingestion/insert_data_by_using_excel.py:550-604 | every row is read on its own, in order |
| ExcelHierarchy.BuildProductHierarchy | Data_ingestion/insert_data_by_using_excel.py:540-611 | the loop's map holds the unit of every keyed row, each unit defined by its last row |
| ExcelHierarchy.LastDefining | Data_ingestion/insert_data_by_using_excel.py:588-598 | the last listed row defining a unit, or none when no row defines it |
| ExcelHierarchy.HierarchyEntries | Data_ingestion/insert_data_by_using_excel.py:550-598 | the map holds exactly the units of listed rows, and a unit's entry comes from the last listed row for it |
| ExcelHierarchy.BuiltHierarchyWellFormed | Data_ingestion/insert_data_by_using_excel.py:540-611 | every built map has non-empty units, positive relations, and no empty big unit |
| ExcelHierarchy.BuildHierarchyPath | Data_ingestion/insert_data_by_using_excel.py:496-538 | the loop's path is the unit followed by its chain of big units, ending at a repeat, at a unit missing from the map (added with relation 1) or where there is no big unit |
| ExcelHierarchy.PathShape | Data_ingestion/insert_data_by_using_excel.py:496-538 | the path starts at the unit when it is in the map, climbs one big unit per step, never repeats a unit, carries the map's relations, and only its last step may lie outside the map, with relation 1 |
| ExcelHierarchy.CalculateCumulativeRelation | Data_ingestion/insert_data_by_using_excel.py:639-661 | the loop yields the product of the relations from the target's first position up to the last step, and 1 for an empty path or an absent target |
| ExcelHierarchy.CumulativeSteps | Data_ingestion/insert_data_by_using_excel.py:657-659 | a unit's cumulative relation is its own relation times that of its big unit |
| ExcelHierarchy.PathRelationsPositive | Data_ingestion/insert_data_by_using_excel.py:507-535 | every relation on a path read from a built map is positive |
| ExcelHierarchy.CumulativeOfStart | Data_ingestion/insert_data_by_using_excel.py:639-661 | for a unit of the map, the cumulative relation is the product along its whole path but the last step, and positive |
| ExcelHierarchy.Supplier | Data_ingestion/insert_data_by_using_excel.py:663-686 | the first step of the path that carries values, and none when none does |
| ExcelHierarchy.FindIsPathSupplier | Data_ingestion/insert_data_by_using_excel.py:663-686 | the recursive search finds exactly the first unit on the unit's path that carries values, and nothing when none does |
| ExcelHierarchy.MissingFields | Data_ingestion/insert_data_by_using_excel.py:703-708 | exactly the fields the row leaves empty |
| ExcelHierarchy.CalculateChildValues | Data_ingestion/insert_data_by_using_excel.py:719-730 | the loop keeps every given field and fills each missing one from the parent: a cost divided by the relation and rounded to cents, a quantity multiplied by it |
| ExcelHierarchy.ChildValuesRule | Data_ingestion/insert_data_by_using_excel.py:688-734 | a given value is kept; a missing quantity is the parent's times the relation; a missing cost times the relation is within half a cent per unit of the parent's cost |
| ExcelHierarchy.CostScaling | Data_ingestion/insert_data_by_using_excel.py:724 | a cost divided by n and rounded to cents, times n, lies within half a cent per unit of the cost |
| ExcelHierarchy.CalculateRule | Data_ingestion/insert_data_by_using_excel.py:438-482 | on a built map, values are derived exactly when the unit is in the map and some unit on its path carries values; otherwise the row's own values are used, with 0 for the empty ones |
| ExcelHierarchy.SupplierRelationPositive | Data_ingestion/insert_data_by_using_excel.py:462-480 | the corrected divisor is positive |
| ExcelHierarchy.CalculateScaling | Data_ingestion/insert_data_by_using_excel.py:458-482 | derived values come from the first unit on the path that carries values, each missing field scaled by the number of the row's unit in one supplying unit |
| ExcelHierarchy.AsWrittenDivisor | Data_ingestion/insert_data_by_using_excel.py:458-480 | for a path that starts at the unit, the divisor the code uses is the corrected divisor times the relations above the supplying unit, so the two agree only when those multiply to 1 |
| ExcelHierarchy.PathStartsAtUnit | Data_ingestion/insert_data_by_using_excel.py:505-512 | the path built for a unit that is in the hierarchy finds that unit at index 0 |
| ExcelHierarchy.SoapPieceBuyingPrice | Data_ingestion/insert_data_by_using_excel.py:458-480 | a piece row under a pack with price 12, in a carton of 6 packs of 10 pieces, is priced 0.2 as written and 1.2 as intended |
| ProductCodes.MaxSequence | Data_ingestion/services/product_service.py:26-29 | the largest non-NULL sequence number among the store's rows, and none when the store has none |
| ProductCodes.NextSequence | Data_ingestion/services/product_service.py:22-34 | the next number is above every sequence number of the store, and 1 when the store has none or the query fails |
| ProductCodes.NextSequenceForStore | Data_ingestion/insert_data_by_using_excel.py:356-375 | the import's variant is 1 without a store code and otherwise the service's next number |
| ProductCodes.ProductCodeParts | Data_ingestion/services/product_service.py:36-38 | a code is the store code, an underscore and at least four digits (exactly four below 10000) that read back as the sequence number |
| ProductCodes.ProductCodeInjective | Data_ingestion/services/product_service.py:36-38 | within a store, different sequence numbers give different codes |
| ProductCodes.NextCodeIsNew | Data_ingestion/services/product_service.py:22-38 | the next code differs from the code of every numbered product of the store |
| ExcelImport.PositionOf | Data_ingestion/insert_data_by_using_excel.py:319 | the first position of the batch name in the list |
| ExcelImport.FilterNumberOf | Data_ingestion/insert_data_by_using_excel.py:301-319 | the filter number is at least 1, and for a named batch in the list it is that batch's 1-based position |
| ExcelImport.GetExistingBatchesForProduct | Data_ingestion/insert_data_by_using_excel.py:237-331 | None without a store, without a name, when the product is not found or the join is empty; otherwise the sample |
| ExcelImport.MaxFilter | Data_ingestion/insert_data_by_using_excel.py:1248-1250 | the largest filter number of the sample, and 0 for an empty sample |
| ExcelImport.FirstWithFilter | Data_ingestion/insert_data_by_using_excel.py:1257-1259 | the first sample entry with that filter number, if any |
| ExcelImport.FindBatchName | Data_ingestion/insert_data_by_using_excel.py:1255-1260 | the loop finds the batch name of the first entry with that filter number |
| ExcelImport.BatchChoiceFor | Data_ingestion/insert_data_by_using_excel.py:1237-1271 | over the product's real batches, filter k updates the k-th batch exactly when it is a digit string with 1 <= k <= their number; anything else creates a batch |
| ExcelImport.SampleFilter | Data_ingestion/insert_data_by_using_excel.py:298-322 | when the join lists the product's batches with proper names, every sample entry carries its own batch's position |
| ExcelImport.MaxFilterIsBatchCount | Data_ingestion/insert_data_by_using_excel.py:1248-1250 | for such a join the largest filter number is the number of the product's batches |
| ExcelImport.AsWrittenMatchesRealBatches | Data_ingestion/insert_data_by_using_excel.py:1237-1271 | for such a join the decision as written is the decision over the real batches |
| ExcelImport.FirstBatchOfProductWithoutBatches | Data_ingestion/insert_data_by_using_excel.py:270-322 | for a product with no batch the join yields one NULL-batch row with filter 1, so filter "1" is taken as an update of a NULL batch although no batch exists |
| ExcelImport.UpdatedRows | Data_ingestion/insert_data_by_using_excel.py:1584 | no row is touched exactly when no row matches product, batch name and store |
| ExcelImport.NullBatchUpdateFails | Data_ingestion/insert_data_by_using_excel.py:1584-1640 | an update aimed at the NULL batch name touches no row and fails |
| ExcelImport.PriceOf | Data_ingestion/insert_data_by_using_excel.py:1286-1299 | a price cell gives its number, and 0 when empty or unreadable |
| ExcelImport.Truncate | Data_ingestion/insert_data_by_using_excel.py:1305 | int() truncates toward zero on both signs |
| ExcelImport.WholesaleThresholdOf | Data_ingestion/insert_data_by_using_excel.py:1301-1309 | the threshold is always at least 1: the truncated number when positive, 1 otherwise |
| ExcelImport.ValidRowRule | Data_ingestion/insert_data_by_using_excel.py:1154-1178 | a row is accepted exactly when it has a name, a unit and a non-negative retail price; loss-making prices do not reject it |
| ExcelImport.FixedRatioIsDefaultWeighting | Data_ingestion/insert_data_by_using_excel.py:1588-1595 | the update's margin is the margin calculator's formula with the default 0.7/0.3 ratios |
| ExcelImport.ImportMarginsDiffer | Data_ingestion/insert_data_by_using_excel.py:1588-1595 | the update margin and the create margin differ by 0.3 of (wholesale - retail), agreeing only when the two prices are equal |
| ExcelImport.UpdateWrite | Data_ingestion/insert_data_by_using_excel.py:1576-1638 | the update writes the fixed-ratio margin and margin times stock, and resets the original quantity to the stock exactly when the stock changed |
| ExcelImport.CreateWrite | Data_ingestion/insert_data_by_using_excel.py:1879-1912 | a batch is inserted exactly when the product exists, with the retail-only margin, margin times stock, and the stock as original quantity |
| ManualEntry.Cascade | Data_ingestion/insert_data_manual.py:1653-1658 | the chain has one value per unit, each the largest unit's value times the product of the relations above it |
| ManualEntry.CascadeStep | Data_ingestion/insert_data_manual.py:1653-1658 | each unit's value is its parent's value times the relation between them |
| ManualEntry.ChainFactorPositive | Data_ingestion/insert_data_manual.py:1537 | with only positive relations (the only ones accepted) every unit count per largest unit is positive |
| ManualEntry.CascadeOrder | Data_ingestion/insert_data_manual.py:1653-1718 | with positive relations a positive stock stays positive on every unit, and a threshold not above the stock stays not above it on every unit |
| ManualEntry.CascadeNext | Data_ingestion/insert_data_manual.py:1653-1658 | one unit further down, the value is multiplied by the next relation |
| ManualEntry.CascadeStock | Data_ingestion/insert_data_manual.py:1653-1658 | the stock loop produces exactly the cascade of the largest unit's stock |
| ManualEntry.CascadeThresholds | Data_ingestion/insert_data_manual.py:1660-1718 | the threshold loop, which multiplies after every unit but the last, produces exactly the cascade of the threshold |
| ManualEntry.CheckSmallerUnit | Data_ingestion/insert_data_manual.py:1536-1562 | a smaller unit is accepted exactly when its relation, prices and wholesale threshold are positive and retail is not below wholesale; a non-positive relation is the first rejection |
| ManualEntry.StockAfterAddedBatch | Data_ingestion/insert_data_manual.py:224-238 | a new stock is written exactly when the batch was created, and it is the old stock plus the added quantity |
| ManualEntry.ActiveOfMembers | Data_ingestion/insert_data_manual.py:1263 | the selection holds exactly the product's active rows |
| ManualEntry.SumExceptIsEditedTotal | Data_ingestion/insert_data_manual.py:1261-1269 | the other rows' sum plus the new quantity equals the total of all rows once the edited row holds the new quantity |
| ManualEntry.TotalWithSelectedBatchIsStock | Data_ingestion/insert_data_manual.py:1254-1277 | for an active batch of the product, the total is the product's active stock after the edit |
| ManualEntry.EditedBatch | Data_ingestion/insert_data_manual.py:970-980 | the edit keeps the batch's identity, product and active flag, sets quantity and original quantity to the new quantity, and the total profit to margin times quantity |
| ManualEntry.SetProductStock | Data_ingestion/insert_data_manual.py:994-1000 | exactly the named product's stock changes, to the given value |
| ManualEntry.UpdateSelectedBatch | Data_ingestion/insert_data_manual.py:957-1000 | the batch is rewritten with the margin the calculator gives for the new buying price, and the product's stock becomes the other listed batches' sum plus the new quantity; nothing else in the database changes |
| ManualEntry.EditOverwritesOriginal | Data_ingestion/insert_data_manual.py:976 | a batch received as 100 and sold down to 40, edited to 40, records 40 as its original quantity |
| ManualEntry.UpdatedStockIsSelectionTotal | Data_ingestion/insert_data_manual.py:993 | the stock written after the edit is the total of the listed batches with the edit applied |
| ManualEntry.NewUnitBatch | Data_ingestion/insert_data_manual.py:2106-2125 | a batch is created exactly for a positive stock; it holds the stock as quantity and original quantity, the landed cost and margin rounded to cents, and the margin times the stock as profit |
| ManualEntry.NewUnitMarginBounds | Data_ingestion/insert_data_manual.py:2107-2108 | the stored margin is within a cent of retail minus the exact landed cost |
| ManualEntry.AddUnitLinks | Data_ingestion/insert_data_manual.py:2062-2095 | a smaller unit is linked under the related unit; a larger one has no parent and the related unit is re-parented under it; every other unit's link is unchanged |
| ManualEntry.LargerUnitBecomesRoot | Data_ingestion/insert_data_manual.py:2090-2095 | adding a larger unit above the only root makes the new unit the only unit without a parent |
| ProductService.FindActive | Data_ingestion/services/product_service.py:94-120 | a found batch carries the id, is active and belongs to the product when one is named; nothing is found exactly when no row matches |
| ProductService.LatestActive | Data_ingestion/services/product_service.py:121-133 | the product's active batch received last; none exactly when the product has no active batch |
| ProductService.SourceBatchRule | Data_ingestion/services/product_service.py:94-133 | the source batch is always active; a batch of another product is marked as coming from the parent, and only the selected one can be so marked; with no selection it is the latest active batch |
| ProductService.CurrentProductData | Data_ingestion/services/product_service.py:65-165 | data exactly when the product exists; prices 0, 0, 0 without a price row; zero costs and "N/A" without a batch; the batch's costs otherwise; landed cost is buying plus shipping and handling, a NULL counted as 0 |
| ProductService.CurrentLandedIsBatchLanded | Data_ingestion/services/product_service.py:141 | for a batch with all its costs, the current landed cost equals the table's generated landed_cost |
| ProductService.SafeValue | Data_ingestion/services/product_service.py:285-289 | a number is itself, a tuple its first item, an empty tuple or a missing value 0 |
| ProductService.SafeValueUnwraps | Data_ingestion/services/product_service.py:285-289 | a one-element tuple reads the same as its element |
| ProductService.SmartDefaults | Data_ingestion/services/product_service.py:302-355 | prices come from the current data, or 0, 0 and threshold 1 without it, whatever the cost source |
| ProductService.SmartDefaultsPriority | Data_ingestion/services/product_service.py:305-355 | batch defaults win; then, for the largest unit, the current data; then, for a child with a positive relation, the parent's costs divided by the relation |
| ProductService.PricesIgnoreCostSource | Data_ingestion/services/product_service.py:305-355 | two calls with the same current data give the same prices and threshold whichever cost branch each takes |
| ProductService.TupleParentCostsDivided | Data_ingestion/services/product_service.py:329-339 | parent costs passed as one-element tuples give the same defaults as plain numbers, the buying price divided by the relation |
| ProductService.FindProduct | Data_ingestion/services/product_service.py:579-587 | a found product carries the id; none exactly when no row has it |
| ProductService.BatchProductCode | Data_ingestion/services/product_service.py:567-591 | a code exactly when the product exists; a code other than the given one is the product's own |
| ProductService.NewStockBatch | Data_ingestion/services/product_service.py:594-604 | the inserted batch is active with the quantity as quantity and original quantity, the expected margin of the costs and that margin times the quantity as expected profit, and actual margin and actual profit 0 (the table's defaults for the columns the insert leaves out) |
| ProductService.CreateStockBatch | Data_ingestion/services/product_service.py:529-621 | for an unknown product nothing is written and no code returned; otherwise the returned code is the corrected product code and exactly one batch is appended, the new batch of the insert; the products are unchanged |
| ProductService.ChildRows | Data_ingestion/services/product_service.py:765-769 | exactly the units whose parent is the given unit, in the order the units are listed |
| ProductService.ChildRowsDistinct | Data_ingestion/services/product_service.py:765-769 | the child rows of a unit keep the units' distinct ids |
| ProductService.Attach | Data_ingestion/services/product_service.py:765-769 | the node is the unit itself, its children are exactly its child rows in order, each attached in turn, and every child hangs under its own parent |
| ProductService.ChainsUnique | Data_ingestion/services/product_service.py:765-769 | with distinct ids, two walks down the parent links that end at the same id are the same walk |
| ProductService.ProductHierarchy | Data_ingestion/services/product_service.py:724-783 | none exactly when every unit has a parent; otherwise the tree below the first unit without one, whose children are exactly that unit's child rows in order |
| ProductService.FirstRoot | Data_ingestion/services/product_service.py:772-777 | the position of the first unit without a parent; none exactly when there is none |
| ProductService.AttachWellBuilt | Data_ingestion/services/product_service.py:765-769 | every node of an attached tree is a listed unit, with children recording it as their parent and distinct ids among siblings |
| ProductService.WellBuiltUnitsOnce | Data_ingestion/services/product_service.py:765-769 | below the end of a walk, a well-built tree never shows a unit twice: no unit under itself, and no unit under two siblings |
| ProductService.HierarchyUnitsOnce | Data_ingestion/services/product_service.py:724-783 | every unit appears at most once in the product's tree, so the tree is acyclic and no unit is attached twice |
| ManualHierarchy.Flatten | Data_ingestion/insert_data_manual.py:2172-2185 | the order starts with the unit itself, followed by its children's orders (preorder) |
| ManualHierarchy.FlattenParentsFirst | Data_ingestion/insert_data_manual.py:2172-2187 | in the order of a linked tree every unit after the first has its parent earlier |
| ManualHierarchy.HeadThenParentBefore | Data_ingestion/insert_data_manual.py:2172-2185 | a head followed by units whose parents are the head or earlier has every parent first |
| ManualHierarchy.AttachLinked | Data_ingestion/services/product_service.py:765-769 | in the tree built for a product every child records its parent's id |
| ManualHierarchy.ChildDefaults | Data_ingestion/insert_data_manual.py:2266-2276 | a child's costs times its relation are the parent's costs, its quantity is the parent's times the relation, its landed cost the sum of its costs, the expiry inherited and the margin 0 |
| ManualHierarchy.PropagateDefaults | Data_ingestion/insert_data_manual.py:2256-2276 | in flattened order the loop gives the root the root batch's defaults and each unit whose parent already has defaults the child defaults of that parent, or fails at the first such unit whose relation is NULL or zero |
| ManualHierarchy.PropagateStopped | Data_ingestion/insert_data_manual.py:2437-2439 | once a division has failed, the whole update has failed |
| ManualHierarchy.PropagateGrows | Data_ingestion/insert_data_manual.py:2258-2276 | a unit given defaults keeps them as later units are processed |
| ManualHierarchy.PropagateCovers | Data_ingestion/insert_data_manual.py:2258-2276 | with parents first and usable relations every unit of the order receives defaults |
| ManualHierarchy.HierarchyDefaultsCoverTree | Data_ingestion/insert_data_manual.py:2165-2276 | every unit of a product's tree, in the flattened order, receives defaults from the root batch |
| ManualHierarchy.DirectKids | Data_ingestion/insert_data_manual.py:331 | exactly the child rows whose parent is the given unit |
| ManualHierarchy.SortedKidsRule | Data_ingestion/insert_data_manual.py:331-332 | the children come largest relation first and are a permutation of the direct children |
| ManualHierarchy.BuildOrder | Data_ingestion/insert_data_manual.py:329-334 | the order starts with the parent unit |
| ManualHierarchy.BuildOrderMembers | Data_ingestion/insert_data_manual.py:329-334 | every unit of the order is the parent unit or one of the child rows |
| ManualHierarchy.BuildOrderAllMembers | Data_ingestion/insert_data_manual.py:333-334 | everything ordered below a list of kids is one of them or a child row |
| ManualHierarchy.LastRoot | Data_ingestion/insert_data_manual.py:298-317 | the last row without a parent (later rows overwrite earlier ones); none exactly when every row has a parent |
| ManualHierarchy.BatchUnitOrder | Data_ingestion/insert_data_manual.py:292-341 | with a root, the order starts with it as the only largest unit; without one, the rows as given, none of them the largest |
| ManualHierarchy.OrderChainFits | Data_ingestion/insert_data_manual.py:329-334 | with distinct ids, a walk `build_order` takes down the child rows passes each at most once, so it is at most one longer than the child rows |
| ManualHierarchy.BuildOrderSettles | Data_ingestion/insert_data_manual.py:329-334 | below the end of such a walk, once the depth left covers the child rows not yet passed, one more level of depth changes nothing |
| ManualHierarchy.BuildOrderDepthSuffices | Data_ingestion/insert_data_manual.py:329-339 | with distinct ids, the order bounded by the number of child rows equals the order under any deeper bound, so the bound never cuts the unbounded recursion |
| ManualHierarchy.WithParentApart | Data_ingestion/insert_data_manual.py:298-323 | with distinct row ids the collected child rows keep distinct ids, none the root's |
| ManualHierarchy.PlanMultiUnitBatch | Data_ingestion/insert_data_manual.py:354-446 | unit by unit in build order the loop offers the defaults of the plan rule, and stops right after the first unit whose fallback division raises |
| ManualHierarchy.FallbackDividesTwice | Data_ingestion/insert_data_manual.py:427-443 | with no largest unit, a unit with a positive relation is offered its own current buying price divided by the relation twice |
| ManualHierarchy.FallbackRaises | Data_ingestion/insert_data_manual.py:427-434 | with no largest unit, a zero relation or a NULL cost of the unit's current data makes the division raise |
| ManualHierarchy.PlansFromLargest | Data_ingestion/insert_data_manual.py:366-443 | no division raises, and every unit after the largest is offered the largest unit's entered quantity times its own relation and the largest unit's buying price divided by that relation, even a grandchild |
| PyNumbers.ParseInt | Data_ingestion/services/validation_service.py:21 | a run of decimal digits, after stripping, reads as its decimal value; a blank text never parses |
| PyNumbers.ParseFloat | Data_ingestion/services/validation_service.py:42 | the word `nan` (in any case, with surrounding whitespace) reads as NaN; a blank text never parses |
| PyNumbers.DecimalValue | Data_ingestion/services/validation_service.py:42 | a decimal without sign is never negative, and a digit string reads as its integer value |
| PyNumbers.NotLessThan | Data_ingestion/services/validation_service.py:44-46 | a float that is not below a finite bound is NaN, the positive infinity or a finite value at least the bound |
| PyNumbers.ParseNanExample | Data_ingestion/services/validation_service.py:42 | `float("nan")` is NaN |
| ValidationService.IntStepTakes | Data_ingestion/services/validation_service.py:12-30 | an answer the integer prompt takes is the current value (an empty answer) or the typed number, which then parses and is at least the minimum |
| ValidationService.PromptInt | Data_ingestion/services/validation_service.py:150-164 | the prompt returns at the first answer it takes, every earlier answer was asked again, and the value is the current one or a typed number at least the minimum; with no answer taken, all were consumed |
| ValidationService.FloatStepTakes | Data_ingestion/services/validation_service.py:33-51 | a value the float prompt takes is the current one or not below the minimum |
| ValidationService.PromptFloat | Data_ingestion/services/validation_service.py:166-180 | the float prompt returns at its first taken answer, the value being the current one or not below the minimum |
| ValidationService.FloatStepParsed | Data_ingestion/services/validation_service.py:42-48 | a typed number that the minimum does not reject is taken as it is |
| ValidationService.FloatPromptTakesNan | Data_ingestion/services/validation_service.py:42-48 | an answer that strips to `nan` is taken as NaN whatever the minimum, since NaN is not below anything |
| ValidationService.PromptRelation | Data_ingestion/services/validation_service.py:138-148 | a returned relation is at least 1 and is an answer the integer prompt took; when none is returned no answer yields a positive relation |
| ValidationService.ReplaceYear | Data_ingestion/services/validation_service.py:126 | the date with the year replaced exists exactly when the year is in range and the date is not 29 February of a common year |
| ValidationService.ValidateExpiryDate | Data_ingestion/services/validation_service.py:96-136 | empty input keeps the current expiry; unparsable input is invalid with the format message; a valid date lies from this year to ten years ahead; a warning returns the raw input; without one the date is not past and is returned formatted; an invalid result has no value |
| ValidationService.PastExpiryWarns | Data_ingestion/services/validation_service.py:122-124 | a parsed date in the year range but before today is accepted with the past-date warning |
| ValidationService.ExpiryRejectedOnLeapDay | Data_ingestion/services/validation_service.py:126-134 | on 29 February 2028 every date from today to the end of 2038 is rejected |
| ValidationService.LeapDayRejectsTypedDates | Data_ingestion/services/validation_service.py:105-134 | on 29 February 2028, every date from that day to the end of 2038 typed as `YYYY-MM-DD` (2030-01-01 among them) is rejected |
| ValidationService.ClampYear | Data_ingestion/services/validation_service.py:126 | the same month and day in the given year, 28 February standing in for 29 February in a common year |
| ValidationService.ValidateExpiryDateClamped | Data_ingestion/services/validation_service.py:96-136 | a non-empty input is valid exactly when it parses with a year from this year to ten years ahead; without a warning the date is not past and is returned formatted |
| ValidationService.ClampedExpiryAgrees | Data_ingestion/services/validation_service.py:126-128 | where the ten-year date exists, the clamped check gives the same result as the code |
| EmailRules.FirstBadLabel | Core_busness_logic/valid_email.py:74-80 | labels that all pass the pattern's label rule give no message |
| EmailRules.CheckAddressAccepts | Core_busness_logic/valid_email.py:28-82 | the checks pass exactly on well-formed addresses: one `@`, a local part of 1 to 64 allowed characters without a dot at either end, no `..`, at least two domain labels of 1 to 63 letters, digits and inner hyphens, a top-level label of at least two characters, and at most 254 characters |
| EmailRules.ValidateAccepts | Core_busness_logic/valid_email.py:14-96 | the validator accepts exactly blank input and addresses that are well-formed once stripped and lowercased |
| EmailRules.ValidateMessages | Core_busness_logic/valid_email.py:31-80 | a rejection carries one of eight messages; those for an empty local part, an empty domain, an empty label and a hyphen at a label's end are never reported |
| EmailRules.NormalizeEmailRule | Core_busness_logic/valid_email.py:99-123 | normalising keeps the non-whitespace characters, lowercased, and leaves single spaces with none at either end and none next to an `@` |
| Usernames.BaseUsername | Core_busness_logic/register_user_for_login.py:142 | the base is one character longer than the last name and has no uppercase letter |
| Usernames.CandidateInjective | Core_busness_logic/register_user_for_login.py:153-155 | different attempts try different names |
| Usernames.TriedBeforeSize | Core_busness_logic/register_user_for_login.py:153-155 | k attempts try k distinct names |
| Usernames.FirstFreeUnique | Core_busness_logic/register_user_for_login.py:150-157 | the first free name is unique |
| Usernames.FindFree | Core_busness_logic/register_user_for_login.py:150-157 | the search ends on a name that is not taken, every earlier attempt was taken, the base is kept when free, and at most as many attempts fail as names are taken |
| Registration.FailuresAreFailedRules | Core_busness_logic/register_user_for_login.py:51-86 | a rule is listed among the failures exactly when the password breaks it |
| Registration.NoFailuresIffStrong | Core_busness_logic/register_user_for_login.py:51-86 | no failure is listed exactly when the password meets every strength rule |
| Registration.FailuresInOrder | Core_busness_logic/register_user_for_login.py:60-83 | the failures are listed once each, in the order of the checks |
| Registration.ValidatePassword | Core_busness_logic/register_user_for_login.py:51-86 | an empty password is refused with its own message; otherwise it is valid exactly when strong, with the strong message, or refused with the message listing all failures |
| Registration.CollectFailures | Core_busness_logic/register_user_for_login.py:60-83 | the list built by the checks is the list of failed rules |
| Registration.VerifyOwnHash | Core_busness_logic/register_user_for_login.py:88-90 | a password verifies against its own hash |
| Registration.VerifyOnlyOwnHash | Core_busness_logic/register_user_for_login.py:88-90 | with a collision-free hash only the hashed password verifies |
| Registration.NamesOf | Core_busness_logic/register_user_for_login.py:147-148 | the set holds exactly the listed usernames |
| Registration.GenerateUsername | Core_busness_logic/register_user_for_login.py:140-159 | the name is no existing user's, it is the first free candidate, and the base itself when free |
| Sellers.StoreNames | Core_busness_logic/sellers.py:64 | exactly the usernames listed with this store |
| Sellers.OtherStoresDoNotBlock | Core_busness_logic/sellers.py:64 | a username used in another store changes nothing for this one |
| Sellers.GenerateUniqueUsername | Core_busness_logic/sellers.py:55-68 | the name is used by no user of the same store, it is the first candidate free in that store, and the base when free |
| Sellers.AcceptOneTimeIsLater | Core_busness_logic/sellers.py:208-211 | a typed one-time expiry is accepted exactly when it is after now |
| Sellers.AfterDays | Core_busness_logic/sellers.py:220-224 | the result keeps the time of day and lies n days later, so after now for n > 0 |
| Sellers.NextMonth | Core_busness_logic/sellers.py:226-249 | defined unless it would be year 10000; the next month (January of the next year after December), the day cut to that month's length, the time kept, and after now |
| Sellers.NextYear | Core_busness_logic/sellers.py:251-259 | defined exactly before year 9999; the same month next year, the day cut to that month's length, the time kept, and after now |
| Sellers.NextYearAsWrittenFails | Core_busness_logic/sellers.py:251-259 | before year 9999 the code's yearly expiry fails exactly on 29 February |
| Sellers.NextYearAgrees | Core_busness_logic/sellers.py:251-259 | wherever the code gives a yearly expiry, the corrected one is the same |
| Sellers.LeapDayCommission | Core_busness_logic/sellers.py:251-259 | on 29 February 2028 the code has no yearly expiry, and the corrected one is 28 February 2029 |
| Sellers.AutoExpiry | Core_busness_logic/sellers.py:179-259 | every computed expiry is valid and after now; daily is one day later, weekly seven; monthly and yearly exist before year 9999 |
| Sellers.AutoExpiryAgrees | Core_busness_logic/sellers.py:179-259 | wherever the code computes an expiry, the corrected version computes the same |
| Sellers.AutoExpiryLater | Core_busness_logic/sellers.py:208-259 | every computed expiry would pass the rule the one-time prompt applies |
| ValidationService.StockConfirmStep | Data_ingestion/services/validation_service.py:54-65 | a stock quantity is returned unchanged unless it is zero and not confirmed with yes, in which case the prompt starts over |
| ValidationService.ThresholdStepRule | Data_ingestion/services/validation_service.py:68-93 | the threshold prompt starts over exactly when a threshold above the stock is not confirmed; otherwise it returns the typed threshold, or half the stock when stock is on hand and the suggestion is taken |
| ValidationService.OddStockSuggestsHalf | Data_ingestion/services/validation_service.py:81-89 | an accepted suggestion on an odd stock is a fraction: with a stock of 5 and a threshold of 1, an answer that reads yes gives the threshold 2.5 |
| BusinessCosts.PermissionRefusal | Core_busness_logic/business_costs_manager.py:46-60 | the refusal is "no user" exactly without a user, "not a boss" exactly for a user of another role, and "no store" exactly for a boss missing the store id or the store code |
| BusinessCosts.PermittedIffBossWithStore | Core_busness_logic/business_costs_manager.py:46-60 | costs may be managed exactly by a logged-in boss with a store id and a store code |
| BusinessCosts.ValidateAmountAsWritten | Core_busness_logic/business_costs_manager.py:92-111 | an accepted amount is the parsed float, and a finite one is above zero |
| BusinessCosts.NanAmountAccepted | Core_busness_logic/business_costs_manager.py:106-109 | the text `nan` passes the amount check as written |
| BusinessCosts.ValidateAmount | Core_busness_logic/business_costs_manager.py:92-111 | an amount is accepted exactly when the text is non-empty and parses to a finite float, which is then above zero |
| BusinessCosts.AmountChecksAgree | Core_busness_logic/business_costs_manager.py:92-111 | the intended and the written check agree on every finite amount |
| BusinessCosts.ShapeParse | Core_busness_logic/business_costs_manager.py:82-90 | on text of the pattern's shape, `strptime` succeeds exactly when the fields form a calendar date, and reads that date |
| BusinessCosts.LongParse | Core_busness_logic/business_costs_manager.py:83-90 | text longer than ten characters, the pattern's final-newline case included, fails `strptime` |
| BusinessCosts.ValidateDateTextAccepts | Core_busness_logic/business_costs_manager.py:69-90 | a date text is accepted exactly when it is ten characters `YYYY-MM-DD` whose fields form a calendar date |
| BusinessCosts.ValidateDate | Core_busness_logic/business_costs_manager.py:578-586 | empty input gives no date when that is allowed and today's date otherwise; other input is passed on with the verdict of the date check |
| BusinessCosts.FormatShape | Core_busness_logic/business_costs_manager.py:582-583 | today's date written as `YYYY-MM-DD` has the pattern's shape, for four-digit years |
| BusinessCosts.ValidateDateGivesValidText | Core_busness_logic/business_costs_manager.py:578-586 | whatever date text is handed on as valid passes the date check |
| BusinessCosts.ValidateFrequency | Core_busness_logic/business_costs_manager.py:558-565 | valid exactly for empty input or one of the five names; a valid answer is a listed name, the given one unless empty; an invalid one has no value |
| BusinessCosts.ValidateSystemCostFrequency | Core_busness_logic/business_costs_manager.py:568-575 | valid exactly for empty input or one of the five names, with the same value rules |
| BusinessCosts.FrequencyValidatorsAgree | Core_busness_logic/business_costs_manager.py:558-575 | the two validators agree on every non-empty input; empty input means one-time for costs and monthly for system costs |
| BusinessCosts.AddTo | Core_busness_logic/business_costs_manager.py:377-383 | adding a row raises the grand total by its amount and only its own key's total |
| BusinessCosts.AddToKeys | Core_busness_logic/business_costs_manager.py:377-383 | adding a row opens at most its own key and keeps the keys distinct |
| BusinessCosts.GroupTotals | Core_busness_logic/business_costs_manager.py:377-383 | the groups have distinct keys, exactly the keys of the selected rows |
| BusinessCosts.GroupTotalsSum | Core_busness_logic/business_costs_manager.py:377-409 | the group totals add up to the sum of all selected amounts |
| BusinessCosts.GroupTotalsByKey | Core_busness_logic/business_costs_manager.py:377-383 | each group's total is the sum of the amounts of its rows |
| BusinessCosts.Totals | Core_busness_logic/business_costs_manager.py:405-410 | the grand total is the sum of all selected amounts of the three tables, and the sum of the group totals |
| BusinessCosts.TotalCostsAsWritten | Core_busness_logic/business_costs_manager.py:342-414 | a result exactly when the user is permitted and no date bound is given |
| BusinessCosts.TotalCosts | Core_busness_logic/business_costs_manager.py:342-414 | a result exactly when the user is permitted, its grand total the sum of its group totals |
| BusinessCosts.TotalCostsAgree | Core_busness_logic/business_costs_manager.py:363-414 | without date bounds both versions agree; with a bound the code gives no result while the intended version does |
| BusinessCosts.StoreSumOfSelect | Core_busness_logic/business_costs_manager.py:386-401 | without bounds the selection sums to all the store's rows of the table |
| BusinessCosts.BusinessSumOfSelect | Core_busness_logic/business_costs_manager.py:377-383 | without bounds the selection sums to all the store's business cost rows |
| BusinessCosts.TotalWithoutBounds | Core_busness_logic/business_costs_manager.py:342-414 | with no date bounds a permitted user gets a result whose grand total is the sum of every cost row of the store |
| Helpers.RemoveChar | Data_ingestion/utils/helpers.py:10 | the character is gone, the text is no longer, and every other character present is kept |
| Helpers.SanitizeInput | Data_ingestion/utils/helpers.py:7-11 | None and the empty text are returned as they are; any other text gives a text |
| Helpers.SanitizeClean | Data_ingestion/utils/helpers.py:7-11 | the sanitised text holds no quote or semicolon, only characters of the input, and no whitespace at either end |
| Helpers.SanitizeIdempotent | Data_ingestion/utils/helpers.py:7-11 | sanitising twice is sanitising once |
| Helpers.LastIndex | Data_ingestion/utils/helpers.py:15 | the last position holding the character, or -1 when none does |
| Helpers.Dirname | Data_ingestion/utils/helpers.py:15 | as posixpath.dirname: a prefix of the path; empty exactly when the path has no slash; otherwise the path up to its last slash with that run of trailing slashes removed, unless everything up to there is slashes, which is then kept whole |
| Helpers.PathJoin | Data_ingestion/utils/helpers.py:15 | an absolute second part replaces the first; otherwise the result starts with the first part and ends with the second |
| Helpers.DatabasePathShape | Data_ingestion/utils/helpers.py:13-15 | the database directory is the helpers directory followed by `..`, `..` and `Databases`, one `/` apart |
| Helpers.SalesDbInDatabases | Data_ingestion/utils/helpers.py:17-19 | the sales database is `sales.db` inside the `Databases` directory |
| ImageNames.Basename | Data_ingestion/ask_for_image.py:47 | the base name is a suffix of the path with no `/` |
| ImageNames.BasenameDropsDirectory | Data_ingestion/ask_for_image.py:47 | a directory before the name does not change the base name |
| ImageNames.SplitExt | Data_ingestion/ask_for_image.py:98 | root and extension make up the path, the extension empty or a dot followed by other characters |
| ImageNames.SafeBasename | Data_ingestion/ask_for_image.py:45-50 | the safe name is never empty and is made only of word characters, `-`, `.` and `_` |
| ImageNames.SafeBasenameIdempotent | Data_ingestion/ask_for_image.py:45-50 | making a safe name safe again changes nothing |
| ImageNames.SafeBasenameDropsDirectory | Data_ingestion/ask_for_image.py:47 | only the name's last path component matters |
| ImageNames.TargetExtension | Data_ingestion/ask_for_image.py:103-109 | a name whose own extension is allowed is kept; otherwise its root gets the chosen file's extension |
| ImageNames.CollisionGrows | Data_ingestion/ask_for_image.py:114-117 | from the first suffix on, each turn makes the name longer |
| ImageNames.CollisionSuffixes | Data_ingestion/ask_for_image.py:114-117 | the suffixes compound rather than replace each other: after k turns on a root with an allowed extension the name is the root, `_1` up to `_k`, and the extension |
| ImageNames.CollisionsCompound | Data_ingestion/ask_for_image.py:114-117 | `x.jpg` becomes `x_1_2.jpg` after two turns, for any such root and extension |
| ImageNames.FirstFreeCollisionUnique | Data_ingestion/ask_for_image.py:114-117 | there is only one first free name |
| ImageNames.AvoidOverwrite | Data_ingestion/ask_for_image.py:111-117 | the loop ends on a name not in the directory, the first such in turn order, and keeps the name when it is free |
| ImageNames.EmptyNameGuardAsWritten | Data_ingestion/ask_for_image.py:59-62 | the guard stops exactly the empty name |
| ImageNames.EmptyNameGuard | Data_ingestion/ask_for_image.py:56-62 | the guard stops exactly the empty name, returning no image |
| ImageNames.EmptyNameRaises | Data_ingestion/ask_for_image.py:16-20 | on the empty name the code raises where the documented guard returns no image; on every other name they agree |
| ImageNames.AskImageFile | Data_ingestion/ask_for_image.py:53-126 | no image without a name or a picked file; never the raise; a file is saved exactly when its extension is allowed, under the first free name derived from the safe name |
| BusinessCosts.ValidateCategoryChoice | Core_busness_logic/business_costs_manager.py:551-555 | a choice is accepted exactly when it is a key of the category menu, and then gives one of the menu's categories |
| Calendar.DaysInMonth | Core_busness_logic/sellers.py:239 | a month has 28 to 31 days, and February has 29 exactly in a leap year |
| Calendar.NextDay | Core_busness_logic/sellers.py:220-221 | the following day is a valid date one ordinal later; there is none only after 31 December 9999 |
| Calendar.AddDays | Core_busness_logic/sellers.py:220-224 | a valid date exactly n ordinals later, after the start for n > 0; a date exactly when the result is not past 9999-12-31, and the overflow otherwise |
| Calendar.ParseYmd | Data_ingestion/services/validation_service.py:105 | a parsed date is valid and its year is the four leading digits |
| Calendar.ParseFormatRoundTrip | Data_ingestion/services/validation_service.py:105-131 | a date with a four-digit year, formatted as `YYYY-MM-DD` and parsed back, is the same date |
| Sorting.SortBy | Data_ingestion/insert_data_manual.py:332 | the sort returns a permutation of its input |
| Sorting.SortBySorted | Data_ingestion/insert_data_manual.py:332 | the sort's result is ordered by the given total preorder |
| Debts.SettleCompose | Core_busness_logic/debts.py:126-141 | applying the first write and then the rest settles a row as the whole sequence of writes does |

## Left out

- **SQLite.**
  - Left out: connections, SQL text, commits and `sqlite3.Error` handlers. Tables are sequences of rows, and a failed statement is an input (`SaleRetry`) or the None of an Option.
  - `ORDER BY` on several columns becomes a stable sort (`Sorting`). `GROUP BY` totals are folds and are compared as maps, so the order of the grouped rows is not modelled.
- **Retry loop.** The `time.sleep` between attempts is left out. A failed attempt is taken to write nothing, because its connection is discarded before commit.
- **Concurrency.** Two sales racing for the same batch, and atomicity across the four databases, are out of scope: the sale is a sequential step machine.
- **Floating point.**
  - Money is exact `real`, and `round(x, 2)` is cents rounding with halves up (`Rounding.Round2Bounds`, `Rounding.Round2Cents`). Python rounds the nearest binary float, half to even.
  - NaN and the two infinities are modelled only where `float()` of typed text can produce them (`PyNumbers`).
  - `int()` and `float()` do not model underscores between digits, or exponents.
- **Text.**
  - The character classes are ASCII: `\w`, `\s`, `str.isupper` and the like. Python's are Unicode-aware.
  - Paths are POSIX paths; Windows separators are not modelled.
- **Console.**
  - Printed messages, colours and menus are left out, and so is `input()` beyond the answers it returns.
  - The frequency menu of `add_user_by_boss` is left out.
  - The `strptime` formats the one-time commission prompt accepts are left out. Its "strictly after now" rule is modelled (`Sellers.AcceptOneTimeIsLater`).
  - The threshold and confirmation warnings that manual entry prints around `insert_data_manual.py:1599-1651` are left out.
- **Interactive flows around the modelled steps.**
  - `view_debts` and the other listing screens.
  - The add-cost and add-seller dialogues.
  - The tkinter file dialog, and the fallback search for an image file in known folders (`ask_for_image.py:78-92`): the file that is found is a parameter.
  - The `shutil.copy2` of the image.
- **Randomness and the clock.**
  - Store codes from `secrets`, and batch names from `time.time_ns()`: the name is a parameter.
  - `datetime.now()` and `date.today()`: these are `now` and `today`.
- **Expiry dates in manual entry.** These are opaque values: they are carried over and inherited, never parsed.
- **Hashing and passwords.**
  - SHA-256 is a function parameter. `Registration.VerifyOnlyOwnHash` assumes it is collision-free.
  - Seller creation's password prompt loop is left out, including the new username generated when that username already exists with the same password.
  - Also left out is the length-only `validate_password` that `sellers.py:47-52` defines for when the registration module cannot be imported.
- `ManualHierarchy.BuildOrder`: the recursion is bounded by a `depth` parameter, the number of child rows. `ManualHierarchy.BuildOrderDepthSuffices` proves that, when ids are distinct, no deeper bound changes the order. `ManualHierarchy.WithParentApart` shows that one product's rows meet that condition. So on those rows the bound never cuts. The `except` branch at `Data_ingestion/insert_data_manual.py:341-343` is not modelled: it falls back to the rows as given when the parent lookup or the recursion raises.
- `ProductService.ProductHierarchy`: the units are taken as the values of the id-keyed dict built at `Data_ingestion/services/product_service.py:749-761`. The ids are the table's primary key, hence the `DistinctIds` precondition. The loop that builds the dict, the query's `LIKE` match on the name and the caught exception are not modelled.
- `ProductService.Attach`: its `chain` parameter is ghost. It is the walk from the root down to the unit being attached, and serves only to prove that the recursion ends; the source carries nothing like it.
- The `except` branch of `calculate_expected_margin`, which returns None, is left out. With real inputs nothing in its body can raise. A failing read of the sales history is the None input of `CostCalculation`.
- The currency formatter (`currency_formalt.py`) is left out: float `{:,.2f}` formatting and a store-symbol lookup.
- `ValidationService.StockConfirmStep`, `ValidationService.ThresholdStep`: these model one pass of their confirmation loops, not the whole `while True`, and take the integer prompt's value as given.

## Findings

| source | as written | input that shows it | evidently intended | confidence | as-written member | corrected member |
|---|---|---|---|---|---|---|
| Data_ingestion/insert_data_by_using_excel.py:270-322 | the LEFT JOIN lists a product without batches as one row with a NULL batch, which gets filter number 1 | a product with no batch and BATCH_NUMBER "1": the row is taken as an update of the NULL batch, which matches no row, so the import of the row fails | filter numbers count only real batches, so "1" creates the first batch | not executed | ExcelImport.BatchChoiceAsWritten (shown by ExcelImport.FirstBatchOfProductWithoutBatches and ExcelImport.NullBatchUpdateFails) | ExcelImport.BatchChoiceFor (with ExcelImport.AsWrittenMatchesRealBatches) |
| Core_busness_logic/sellers.py:251-259 | the yearly commission expiry is `datetime(year + 1, month, day)` | now = 29 February 2028: 29 February 2029 does not exist, and the ValueError is not caught by `except sqlite3.Error` | the day cut to the month's length, as the monthly branch does, giving 28 February 2029 | not executed | Sellers.NextYearAsWritten (shown by Sellers.NextYearAsWrittenFails and Sellers.LeapDayCommission) | Sellers.NextYear (with Sellers.NextYearAgrees and Sellers.AutoExpiryAgrees) |
| Data_ingestion/ask_for_image.py:59-62 | the empty-name warning prints `Colors.YELLOW`, which the file's own `Colors` class (lines 16-20) does not define | an empty image name: AttributeError instead of returning None | return None without opening the dialog | not executed | ImageNames.EmptyNameGuardAsWritten (shown by ImageNames.EmptyNameRaises) | ImageNames.EmptyNameGuard |
| Core_busness_logic/business_costs_manager.py:102-111 | an amount is rejected only when `float(s) <= 0` | the text `nan`: NaN <= 0 is false, so NaN (and `inf`) is accepted as an amount | only finite amounts above zero | not executed | BusinessCosts.ValidateAmountAsWritten (shown by BusinessCosts.NanAmountAccepted) | BusinessCosts.ValidateAmount |
| Data_ingestion/insert_data_by_using_excel.py:462-466 | a missing cost is divided by the relation from the unit to the end of the hierarchy path | 10 pieces make a pack and 6 packs a carton, and only the row for packs gives a buying price, 12: the piece is priced 12 / 60 = 0.2 | divide by the relation from the unit to the unit that supplied the values: 12 / 10 = 1.2 | not executed | ExcelHierarchy.CalculateAsWritten (shown by ExcelHierarchy.SoapPieceBuyingPrice and ExcelHierarchy.AsWrittenDivisor) | ExcelHierarchy.Calculate (with ExcelHierarchy.CalculateScaling) |
| Core_busness_logic/business_costs_manager.py:363-401 | the date filter on `cost_date` is applied to the system-cost and other-payment tables too, which have no such column | any start or end date: the query raises `sqlite3.Error` and the totals are empty | filter those tables by their own date column, totals per category within the range | not executed | BusinessCosts.TotalCostsAsWritten (shown by BusinessCosts.TotalCostsAgree) | BusinessCosts.TotalCosts |
| Data_ingestion/services/validation_service.py:126-128 | the ten-year limit is `today.replace(year=today.year + 10)` | today = 29 February 2028, input 2030-01-01: 29 February 2038 does not exist, the ValueError is caught, and a valid date is rejected | the last day of February standing in for 29 February | not executed | ValidationService.ValidateExpiryDate (shown by ValidationService.ExpiryRejectedOnLeapDay and ValidationService.LeapDayRejectsTypedDates) | ValidationService.ValidateExpiryDateClamped (with ValidationService.ClampedExpiryAgrees) |
