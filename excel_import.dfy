/**
 * The per-row decisions of the Excel import: which stock batch a row's
 * BATCH_NUMBER ("filter number") refers to, whether the row is accepted,
 * how a few cells are read, and the margins written on the batch.
 *
 * A filter number k means the k-th batch of the product in
 * (received_date, id) order, counted from 1.
 */
module ExcelImport {
  import opened Wrappers
  import opened Text
  import opened ExcelHierarchy
  import opened CostCalculation
  import opened Inventory

  // ---------------------------------------------------------------------
  // Filter numbers
  // ---------------------------------------------------------------------

  /** A row of the LEFT JOIN of the product with its batches, in `sb.id` order (batch NULL when it has none). */
  datatype JoinedRow = JoinedRow(productId: int, batchNumber: Option<string>)

  /** An element of the sample: (filter_number, batch_number). */
  datatype SampleEntry = SampleEntry(filter: nat, batchNumber: Option<string>)

  /** The first position of `b` in `names`. */
  function PositionOf(names: seq<Option<string>>, b: Option<string>): (i: nat)
    requires b in names
    ensures i < |names| && names[i] == b
    ensures forall j :: 0 <= j < i ==> names[j] != b
  {
    if names[0] == b then 0 else 1 + PositionOf(names[1..], b)
  }

  /**
   * The filter number of a joined row: its batch's position, from 1, in the
   * product's batches ordered by (received_date, id); 1 when the row has no
   * batch name or the name is not among them.
   */
  function FilterNumberOf(batchName: Option<string>, ordered: seq<Option<string>>): (f: nat)
    ensures f >= 1
    ensures batchName.Some? && batchName.value != "" && batchName in ordered ==>
      f <= |ordered| && ordered[f - 1] == batchName
  {
    if batchName.Some? && batchName.value != "" && batchName in ordered then PositionOf(ordered, batchName) + 1
    else 1
  }

  function SampleOf(joined: seq<JoinedRow>, batchesOf: int -> seq<Option<string>>): (s: seq<SampleEntry>)
    ensures |s| == |joined|
    ensures forall i :: 0 <= i < |joined| ==>
      s[i] == SampleEntry(FilterNumberOf(joined[i].batchNumber, batchesOf(joined[i].productId)), joined[i].batchNumber)
  {
    seq(|joined|, i requires 0 <= i < |joined| =>
      SampleEntry(FilterNumberOf(joined[i].batchNumber, batchesOf(joined[i].productId)), joined[i].batchNumber))
  }

  /**
   * `get_existing_batches_for_product`: None without a store, without a
   * product name, when the product is not found (case-insensitively) or
   * when the join gives no row; otherwise one sample entry per joined row.
   * `batchesOf(p)` is the batch-number query for product p.
   */
  function ExistingBatches(storeSelected: bool, productName: string, productFound: bool,
                           joined: seq<JoinedRow>, batchesOf: int -> seq<Option<string>>): Option<seq<SampleEntry>>
  {
    if !storeSelected || productName == "" || !productFound || |joined| == 0 then None
    else Some(SampleOf(joined, batchesOf))
  }

  method GetExistingBatchesForProduct(storeSelected: bool, productName: string, productFound: bool,
                                      joined: seq<JoinedRow>, batchesOf: int -> seq<Option<string>>)
    returns (sample: Option<seq<SampleEntry>>)
    ensures sample == ExistingBatches(storeSelected, productName, productFound, joined, batchesOf)
  {
    if !storeSelected || productName == "" || !productFound || |joined| == 0 {
      return None;
    }
    var entries: seq<SampleEntry> := [];
    var cache: map<int, seq<Option<string>>> := map[];
    for i := 0 to |joined|
      invariant forall p :: p in cache ==> cache[p] == batchesOf(p)
      invariant entries == SampleOf(joined[..i], batchesOf)
    {
      var pid := joined[i].productId;
      var batchName := joined[i].batchNumber;
      var filterNumber := 1;
      if pid !in cache {
        cache := cache[pid := batchesOf(pid)];
      }
      if batchName.Some? && batchName.value != "" && batchName in cache[pid] {
        filterNumber := PositionOf(cache[pid], batchName) + 1;
      }
      entries := entries + [SampleEntry(filterNumber, batchName)];
      assert joined[..i + 1][..i] == joined[..i];
    }
    assert joined[..|joined|] == joined;
    sample := Some(entries);
  }

  /** `max(row[0] for row in sample)`, 0 for an empty sample. */
  function MaxFilter(sample: seq<SampleEntry>): (m: nat)
    ensures forall i :: 0 <= i < |sample| ==> sample[i].filter <= m
    ensures |sample| > 0 ==> exists i :: 0 <= i < |sample| && sample[i].filter == m
    ensures |sample| == 0 ==> m == 0
  {
    if |sample| == 0 then 0
    else
      var rest := MaxFilter(sample[1..]);
      assert forall i :: 1 <= i < |sample| ==> sample[i] == sample[1..][i - 1];
      if sample[0].filter >= rest then sample[0].filter else rest
  }

  /** `total_existing_batches`: 0 when there is no sample. */
  function TotalExisting(sample: Option<seq<SampleEntry>>): nat
  {
    if sample.None? then 0 else MaxFilter(sample.value)
  }

  /** The position of the first sample entry with filter `k`. */
  function FirstWithFilter(sample: seq<SampleEntry>, k: nat): (r: Option<nat>)
    ensures r.Some? ==> (r.value < |sample| && sample[r.value].filter == k
      && forall j :: 0 <= j < r.value ==> sample[j].filter != k)
    ensures r.None? ==> forall j :: 0 <= j < |sample| ==> sample[j].filter != k
  {
    if |sample| == 0 then None
    else if sample[0].filter == k then Some(0)
    else match FirstWithFilter(sample[1..], k)
      case None => None
      case Some(j) => Some(j + 1)
  }

  /** The batch name of the first entry with filter `k`; None (the initial `actual_batch_name`) if there is none. */
  function BatchNameFor(sample: seq<SampleEntry>, k: nat): Option<string>
  {
    match FirstWithFilter(sample, k)
    case None => None
    case Some(i) => sample[i].batchNumber
  }

  /** The loop over the sample that stops at the first matching filter number. */
  method FindBatchName(sample: seq<SampleEntry>, k: nat) returns (actual: Option<string>)
    ensures actual == BatchNameFor(sample, k)
  {
    actual := None;
    var i := 0;
    while i < |sample|
      invariant 0 <= i <= |sample|
      invariant forall j :: 0 <= j < i ==> sample[j].filter != k
    {
      if sample[i].filter == k {
        actual := sample[i].batchNumber;
        assert FirstWithFilter(sample, k) == Some(i);
        return;
      }
      i := i + 1;
    }
  }

  /** What the row does to the batches: update the named batch, or create a new one. */
  datatype BatchChoice = Update(batchName: Option<string>) | New

  /**
   * The filter decision AS WRITTEN: a digit string k with
   * 1 <= k <= the largest filter number of the sample updates the batch of
   * the first entry with filter k; anything else creates a new batch.
   * `filter` is the stripped text of the BATCH_NUMBER cell.
   */
  function BatchChoiceAsWritten(filter: string, sample: Option<seq<SampleEntry>>): BatchChoice
  {
    if IsDigitString(filter) then
      var k := DigitsValue(filter);
      if 1 <= k <= TotalExisting(sample) then Update(BatchNameFor(sample.value, k)) else New
    else New
  }

  /**
   * The decision counted over the product's real batches (in
   * (received_date, id) order): filter k with 1 <= k <= their number
   * updates the k-th, anything else creates a new batch.
   */
  function BatchChoiceFor(filter: string, ordered: seq<Option<string>>): (c: BatchChoice)
    ensures c.Update? <==> IsDigitString(filter) && 1 <= DigitsValue(filter) <= |ordered|
    ensures c.Update? ==> c.batchName == ordered[DigitsValue(filter) - 1]
  {
    if IsDigitString(filter) && 1 <= DigitsValue(filter) <= |ordered| then Update(ordered[DigitsValue(filter) - 1])
    else New
  }

  /** Batch names that are set, non-empty and pairwise different. */
  predicate ProperNames(ordered: seq<Option<string>>) {
    (forall i :: 0 <= i < |ordered| ==> ordered[i].Some? && ordered[i].value != "")
    && forall i, j :: 0 <= i < j < |ordered| ==> ordered[i] != ordered[j]
  }

  /** The batch names of the joined rows, in order. */
  function NamesOf(joined: seq<JoinedRow>): (names: seq<Option<string>>)
    ensures |names| == |joined|
    ensures forall i :: 0 <= i < |joined| ==> names[i] == joined[i].batchNumber
  {
    seq(|joined|, i requires 0 <= i < |joined| => joined[i].batchNumber)
  }

  /** The join of a product with its batches, as `batchesOf(pid)` lists them by name. */
  ghost predicate JoinsBatches(joined: seq<JoinedRow>, ordered: seq<Option<string>>, pid: int) {
    (forall i :: 0 <= i < |joined| ==> joined[i].productId == pid)
    && (forall b :: b in NamesOf(joined) <==> b in ordered)
  }

  /** Every entry of the sample carries the position of its own batch. */
  lemma SampleFilter(joined: seq<JoinedRow>, batchesOf: int -> seq<Option<string>>, pid: int, i: nat)
    requires JoinsBatches(joined, batchesOf(pid), pid) && ProperNames(batchesOf(pid))
    requires i < |joined|
    ensures var f := SampleOf(joined, batchesOf)[i].filter;
      1 <= f <= |batchesOf(pid)| && batchesOf(pid)[f - 1] == joined[i].batchNumber
  {
    var ordered := batchesOf(pid);
    assert NamesOf(joined)[i] in NamesOf(joined);
    var p := PositionOf(ordered, joined[i].batchNumber);
    assert ordered[p] == joined[i].batchNumber;
  }

  /** Every position of the product's batches is the filter number of some entry. */
  lemma EntryForPosition(joined: seq<JoinedRow>, batchesOf: int -> seq<Option<string>>, pid: int, k: nat)
    returns (i: nat)
    requires JoinsBatches(joined, batchesOf(pid), pid) && ProperNames(batchesOf(pid))
    requires 1 <= k <= |batchesOf(pid)|
    ensures i < |joined| && SampleOf(joined, batchesOf)[i].filter == k
  {
    var ordered := batchesOf(pid);
    var names := NamesOf(joined);
    assert ordered[k - 1] in ordered;
    i :| 0 <= i < |names| && names[i] == ordered[k - 1];
    SampleFilter(joined, batchesOf, pid, i);
    var f := SampleOf(joined, batchesOf)[i].filter;
    assert ordered[f - 1] == ordered[k - 1];
  }

  /** The largest filter number is the number of the product's batches. */
  lemma MaxFilterIsBatchCount(joined: seq<JoinedRow>, batchesOf: int -> seq<Option<string>>, pid: int)
    requires JoinsBatches(joined, batchesOf(pid), pid) && ProperNames(batchesOf(pid)) && |joined| > 0
    ensures MaxFilter(SampleOf(joined, batchesOf)) == |batchesOf(pid)|
  {
    var s := SampleOf(joined, batchesOf);
    var m := MaxFilter(s);
    var w :| 0 <= w < |s| && s[w].filter == m;
    SampleFilter(joined, batchesOf, pid, w);
    assert NamesOf(joined)[0] in NamesOf(joined);
    var top := EntryForPosition(joined, batchesOf, pid, |batchesOf(pid)|);
  }

  /**
   * When the join lists exactly the product's batches and their names are
   * set and distinct, the decision as written is the decision over the real
   * batches: filter k updates the k-th batch.
   */
  lemma AsWrittenMatchesRealBatches(filter: string, joined: seq<JoinedRow>, batchesOf: int -> seq<Option<string>>, pid: int)
    requires JoinsBatches(joined, batchesOf(pid), pid) && ProperNames(batchesOf(pid)) && |joined| > 0
    ensures BatchChoiceAsWritten(filter, Some(SampleOf(joined, batchesOf))) == BatchChoiceFor(filter, batchesOf(pid))
  {
    MaxFilterIsBatchCount(joined, batchesOf, pid);
    ChosenNameIsPosition(filter, joined, batchesOf, pid);
    ChoiceAgrees(filter, SampleOf(joined, batchesOf), batchesOf(pid));
  }

  /** The name the filter picks from the sample is the batch at the filter's position. */
  lemma ChosenNameIsPosition(filter: string, joined: seq<JoinedRow>, batchesOf: int -> seq<Option<string>>, pid: int)
    requires JoinsBatches(joined, batchesOf(pid), pid) && ProperNames(batchesOf(pid))
    ensures var k := if IsDigitString(filter) then DigitsValue(filter) else 0;
      1 <= k <= |batchesOf(pid)| ==> BatchNameFor(SampleOf(joined, batchesOf), k) == batchesOf(pid)[k - 1]
  {
    var k := if IsDigitString(filter) then DigitsValue(filter) else 0;
    if 1 <= k <= |batchesOf(pid)| {
      FirstNameIsPosition(joined, batchesOf, pid, k);
    }
  }

  /** The two decisions agree once the sample counts the batches and names the chosen one. */
  lemma ChoiceAgrees(filter: string, sample: seq<SampleEntry>, ordered: seq<Option<string>>)
    requires MaxFilter(sample) == |ordered|
    requires var k := if IsDigitString(filter) then DigitsValue(filter) else 0;
      1 <= k <= |ordered| ==> BatchNameFor(sample, k) == ordered[k - 1]
    ensures BatchChoiceAsWritten(filter, Some(sample)) == BatchChoiceFor(filter, ordered)
  {
  }

  /** The first entry with filter k names the k-th batch. */
  lemma FirstNameIsPosition(joined: seq<JoinedRow>, batchesOf: int -> seq<Option<string>>, pid: int, k: nat)
    requires JoinsBatches(joined, batchesOf(pid), pid) && ProperNames(batchesOf(pid))
    requires 1 <= k <= |batchesOf(pid)|
    ensures BatchNameFor(SampleOf(joined, batchesOf), k) == batchesOf(pid)[k - 1]
  {
    var s := SampleOf(joined, batchesOf);
    var i := EntryForPosition(joined, batchesOf, pid, k);
    assert FirstWithFilter(s, k).Some?;
    var first := FirstWithFilter(s, k).value;
    SampleFilter(joined, batchesOf, pid, first);
  }

  /** The batch-number query of a product that has no batch. */
  function NoBatches(productId: int): seq<Option<string>> { [] }

  /**
   * A product with no batch: the LEFT JOIN still gives one row, with a NULL
   * batch, whose filter number is 1. Filter "1" is then taken as an update
   * of the batch named NULL, while over the real batches it creates one.
   */
  lemma FirstBatchOfProductWithoutBatches(pid: int)
    ensures var sample := ExistingBatches(true, "Soap(piece)", true, [JoinedRow(pid, None)], NoBatches);
      sample == Some([SampleEntry(1, None)])
      && BatchChoiceAsWritten("1", sample) == Update(None)
      && BatchChoiceFor("1", NoBatches(pid)) == New
  {
    var joined := [JoinedRow(pid, None)];
    var s := SampleOf(joined, NoBatches);
    assert s[0] == SampleEntry(1, None);
    assert s == [SampleEntry(1, None)];
    assert IsDigitString("1") && DigitsValue("1") == 1;
    assert FirstWithFilter(s, 1) == Some(0);
    assert MaxFilter(s) == 1;
  }

  // ---------------------------------------------------------------------
  // Updating the chosen batch
  // ---------------------------------------------------------------------

  /** `WHERE product_id = ? AND batch_number = ? AND store_id = ?`: never true for a NULL batch name. */
  predicate MatchesBatch(b: Batch, productId: int, batchName: Option<string>, storeId: int) {
    batchName.Some? && b.productId == productId && b.batchNumber == batchName.value && b.storeId == storeId
  }

  /** The number of rows the batch UPDATE touches. */
  function UpdatedRows(rows: seq<Batch>, productId: int, batchName: Option<string>, storeId: int): (n: nat)
    ensures n == 0 <==> forall i :: 0 <= i < |rows| ==> !MatchesBatch(rows[i], productId, batchName, storeId)
  {
    if |rows| == 0 then 0
    else
      var rest := UpdatedRows(rows[1..], productId, batchName, storeId);
      assert forall i :: 1 <= i < |rows| ==> rows[i] == rows[1..][i - 1];
      (if MatchesBatch(rows[0], productId, batchName, storeId) then 1 else 0) + rest
  }

  /** `update_existing_batch_transactional` succeeds only when its UPDATE touched a row. */
  function UpdateSucceeds(rows: seq<Batch>, productId: int, batchName: Option<string>, storeId: int): bool
  {
    UpdatedRows(rows, productId, batchName, storeId) > 0
  }

  /** An update of the batch named NULL changes nothing and fails, so its row is counted as an error. */
  lemma NullBatchUpdateFails(rows: seq<Batch>, productId: int, storeId: int)
    ensures !UpdateSucceeds(rows, productId, None, storeId)
  {
  }

  // ---------------------------------------------------------------------
  // Cells and row validation
  // ---------------------------------------------------------------------

  /** WHOLESALE_PRICE and RETAIL_PRICE: the number, or 0.0 for an empty or unreadable cell. */
  function PriceOf(c: Cell): (p: real)
    ensures c.Value? ==> p == c.x
    ensures !c.Value? ==> p == 0.0
  {
    if c.Value? then c.x else 0.0
  }

  /** Python's `int()` of a number: truncation toward zero. */
  function Truncate(x: real): (t: int)
    ensures x >= 0.0 ==> t == x.Floor
    ensures x < 0.0 ==> t == -((-x).Floor)
  {
    if x >= 0.0 then x.Floor else -((-x).Floor)
  }

  /** WHOLESALE_THRESHOLD: the truncated number, 1 when it is not positive, empty or unreadable. */
  function WholesaleThresholdOf(c: Cell): (t: int)
    ensures t >= 1
    ensures c.Value? && Truncate(c.x) > 0 ==> t == Truncate(c.x)
    ensures !(c.Value? && Truncate(c.x) > 0) ==> t == 1
  {
    match c
    case Value(x) => if Truncate(x) <= 0 then 1 else Truncate(x)
    case _ => 1
  }

  /**
   * `validate_product_row`: a row needs a name and a unit, and a retail
   * price that is not negative. The loss checks (wholesale or retail below
   * buying, retail below wholesale) only print.
   */
  function ValidateProductRow(name: string, unit: string, stock: real, buying: real,
                              retail: real, wholesale: real): bool
  {
    name != "" && unit != "" && retail >= 0.0
  }

  /** Exactly the three conditions decide; a loss-making row is accepted. */
  lemma ValidRowRule(name: string, unit: string, stock: real, buying: real, retail: real, wholesale: real)
    ensures ValidateProductRow(name, unit, stock, buying, retail, wholesale) <==> name != "" && unit != "" && retail >= 0.0
    ensures name != "" && unit != "" && retail >= 0.0 && (wholesale < buying || retail < wholesale || retail < buying) ==>
      ValidateProductRow(name, unit, stock, buying, retail, wholesale)
  {
  }

  // ---------------------------------------------------------------------
  // Margins written on a batch
  // ---------------------------------------------------------------------

  /** The values of a row that reach the batch. */
  datatype RowValues = RowValues(stock: real, buying: real, shipping: real, handling: real, retail: real, wholesale: real)

  function Landed(v: RowValues): real
  {
    v.buying + v.shipping + v.handling
  }

  /** The margin of `update_existing_batch_transactional`: fixed 0.7 / 0.3 weights. */
  function FixedRatioMargin(v: RowValues): real
  {
    (v.retail - Landed(v)) * 0.7 + (v.wholesale - Landed(v)) * 0.3
  }

  /** The margin of `create_stock_batch_transactional`: the retail profit alone. */
  function RetailOnlyMargin(v: RowValues): real
  {
    v.retail - Landed(v)
  }

  /** The fixed weights are the margin calculator's formula with its default ratios. */
  lemma FixedRatioIsDefaultWeighting(v: RowValues)
    ensures FixedRatioMargin(v) == CalculateExpectedMargin(v.retail, v.wholesale, Landed(v), None, None).expectedMargin
  {
  }

  /** The two import margins differ by 0.3 of (wholesale - retail): they agree only when the prices are equal. */
  lemma ImportMarginsDiffer(v: RowValues)
    ensures FixedRatioMargin(v) - RetailOnlyMargin(v) == 0.3 * (v.wholesale - v.retail)
    ensures FixedRatioMargin(v) == RetailOnlyMargin(v) <==> v.wholesale == v.retail
  {
  }

  /** The columns a batch write sets (original_quantity only when it is written). */
  datatype BatchWrite = BatchWrite(quantity: real, buying: real, shipping: real, handling: real,
                                   expectedMargin: real, totalExpectedProfit: real, originalQuantity: Option<real>)

  /**
   * The UPDATE of an existing batch: fixed-ratio margin, expected profit
   * margin times stock, and original_quantity reset to the stock when the
   * stock changed (`quantityChanged`).
   */
  function UpdateWrite(v: RowValues, quantityChanged: bool): (w: BatchWrite)
    ensures w.totalExpectedProfit == w.expectedMargin * v.stock
    ensures w.expectedMargin == FixedRatioMargin(v)
    ensures w.originalQuantity.Some? <==> quantityChanged
    ensures w.originalQuantity.Some? ==> w.originalQuantity.value == v.stock
  {
    var m := FixedRatioMargin(v);
    BatchWrite(v.stock, v.buying, v.shipping, v.handling, m, m * v.stock,
               if quantityChanged then Some(v.stock) else None)
  }

  /**
   * The INSERT of a new batch: retail-only margin, expected profit margin
   * times stock, original_quantity the stock; None when the product id is
   * not found.
   */
  function CreateWrite(v: RowValues, productFound: bool): (w: Option<BatchWrite>)
    ensures w.Some? <==> productFound
    ensures w.Some? ==> (w.value.expectedMargin == RetailOnlyMargin(v)
      && w.value.totalExpectedProfit == w.value.expectedMargin * v.stock
      && w.value.originalQuantity == Some(v.stock) && w.value.quantity == v.stock)
  {
    if !productFound then None
    else
      var m := RetailOnlyMargin(v);
      Some(BatchWrite(v.stock, v.buying, v.shipping, v.handling, m, m * v.stock, Some(v.stock)))
  }
}
