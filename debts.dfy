/**
 * `pay_debt`: a boss picks a debtor of the current store (debts grouped by
 * name and phone), enters an amount, and the amount is spread over that
 * debtor's debts oldest first: a debt the remaining amount covers is
 * deleted, the first one it does not cover is reduced, and the loop stops
 * once nothing remains. One `debt_payments` row records the payment. All
 * writes are one transaction; a database error rolls them back.
 */
module Debts {
  import opened Wrappers
  import opened Text
  import opened Sorting
  import opened SaleRecords
  import opened Session

  // ---------------------------------------------------------------------
  // Debtors of a store
  // ---------------------------------------------------------------------

  /** The sum of `amount_owed` over some debt rows. */
  function SumOwed(rows: seq<DebtRow>): real
  {
    if |rows| == 0 then 0.0 else rows[0].amountOwed + SumOwed(rows[1..])
  }

  /** `WHERE store_id = ? AND debtor_name = ? AND debtor_phone = ?`. */
  function DebtsOf(rows: seq<DebtRow>, storeId: int, name: string, phone: string): (r: seq<DebtRow>)
    ensures |r| <= |rows|
    ensures forall d :: d in r <==> d in rows && d.storeId == storeId && d.debtorName == name && d.debtorPhone == phone
  {
    if |rows| == 0 then []
    else
      var d := rows[0];
      var rest := DebtsOf(rows[1..], storeId, name, phone);
      if d.storeId == storeId && d.debtorName == name && d.debtorPhone == phone then [d] + rest else rest
  }

  /** The distinct (name, phone) pairs of a store's debts, in order of first appearance. */
  function DebtorKeys(rows: seq<DebtRow>, storeId: int): (r: seq<(string, string)>)
    ensures forall i, j :: 0 <= i < j < |r| ==> r[i] != r[j]
    ensures forall k :: k in r <==>
      exists i :: 0 <= i < |rows| && rows[i].storeId == storeId && (rows[i].debtorName, rows[i].debtorPhone) == k
  {
    if |rows| == 0 then []
    else
      var before := DebtorKeys(rows[..|rows| - 1], storeId);
      var d := rows[|rows| - 1];
      assert forall i :: 0 <= i < |rows| - 1 ==> rows[..|rows| - 1][i] == rows[i];
      if d.storeId != storeId || (d.debtorName, d.debtorPhone) in before then before
      else before + [(d.debtorName, d.debtorPhone)]
  }

  /** One line of the debtor list: `SUM(amount_owed)` per (name, phone). */
  datatype DebtorSummary = DebtorSummary(name: string, phone: string, totalOwed: real)

  /**
   * The `GROUP BY debtor_name, debtor_phone` query: one summary per debtor
   * of the store, with the total of that debtor's debts there.
   */
  function Summaries(rows: seq<DebtRow>, storeId: int): (r: seq<DebtorSummary>)
    ensures forall i :: 0 <= i < |r| ==> r[i].totalOwed == SumOwed(DebtsOf(rows, storeId, r[i].name, r[i].phone))
    ensures forall i, j :: 0 <= i < j < |r| ==> (r[i].name, r[i].phone) != (r[j].name, r[j].phone)
    ensures forall k :: 0 <= k < |rows| && rows[k].storeId == storeId ==>
      exists i :: 0 <= i < |r| && r[i].name == rows[k].debtorName && r[i].phone == rows[k].debtorPhone
    ensures forall i :: 0 <= i < |r| ==> |DebtsOf(rows, storeId, r[i].name, r[i].phone)| > 0
  {
    var keys := DebtorKeys(rows, storeId);
    var r := seq(|keys|, i requires 0 <= i < |keys| =>
      DebtorSummary(keys[i].0, keys[i].1, SumOwed(DebtsOf(rows, storeId, keys[i].0, keys[i].1))));
    assert forall i :: 0 <= i < |r| ==> (r[i].name, r[i].phone) == keys[i];
    forall k | 0 <= k < |rows| && rows[k].storeId == storeId
      ensures exists i :: 0 <= i < |r| && r[i].name == rows[k].debtorName && r[i].phone == rows[k].debtorPhone
    {
      var i := RowKeyListed(rows, storeId, k);
      assert r[i].name == keys[i].0 && r[i].phone == keys[i].1;
    }
    forall i | 0 <= i < |r|
      ensures |DebtsOf(rows, storeId, r[i].name, r[i].phone)| > 0
    {
      KeyHasDebts(rows, storeId, keys[i]);
    }
    r
  }

  /** The key of each of the store's rows is listed. */
  lemma RowKeyListed(rows: seq<DebtRow>, storeId: int, k: nat) returns (i: nat)
    requires k < |rows| && rows[k].storeId == storeId
    ensures i < |DebtorKeys(rows, storeId)| && DebtorKeys(rows, storeId)[i] == (rows[k].debtorName, rows[k].debtorPhone)
  {
    var keys := DebtorKeys(rows, storeId);
    assert (rows[k].debtorName, rows[k].debtorPhone) in keys;
    i :| 0 <= i < |keys| && keys[i] == (rows[k].debtorName, rows[k].debtorPhone);
  }

  /** Each listed key has at least one debt. */
  lemma KeyHasDebts(rows: seq<DebtRow>, storeId: int, key: (string, string))
    requires key in DebtorKeys(rows, storeId)
    ensures |DebtsOf(rows, storeId, key.0, key.1)| > 0
  {
    var k :| 0 <= k < |rows| && rows[k].storeId == storeId && (rows[k].debtorName, rows[k].debtorPhone) == key;
    assert rows[k] in DebtsOf(rows, storeId, key.0, key.1);
  }

  // ---------------------------------------------------------------------
  // Choosing the debtor
  // ---------------------------------------------------------------------

  predicate StartsWith(s: string, prefix: string) {
    |prefix| <= |s| && s[..|prefix|] == prefix
  }

  /** Python's `needle in haystack` on strings. */
  predicate Contains(haystack: string, needle: string)
    decreases |haystack|
  {
    StartsWith(haystack, needle) || (|haystack| > 0 && Contains(haystack[1..], needle))
  }

  /** The debtors whose lower-cased name contains the query. */
  function Matching(summaries: seq<DebtorSummary>, query: string): (r: seq<DebtorSummary>)
    ensures |r| <= |summaries|
    ensures forall s :: s in r <==> s in summaries && Contains(Lower(s.name), query)
  {
    if |summaries| == 0 then []
    else
      var rest := Matching(summaries[1..], query);
      if Contains(Lower(summaries[0].name), query) then [summaries[0]] + rest else rest
  }

  datatype Selection = Quit | Chosen(debtor: DebtorSummary) | OutOfRange | Ambiguous | NoMatch

  /**
   * The debtor prompt, on the stripped entry: `q` (any case) quits; a digit
   * string is a 1-based position in the list (outside it, nothing is
   * chosen); anything else must be contained, case-insensitively, in
   * exactly one debtor's name.
   */
  function SelectDebtor(summaries: seq<DebtorSummary>, entry: string): (r: Selection)
    ensures r.Chosen? ==> r.debtor in summaries
  {
    var choice := Strip(entry);
    if Lower(choice) == "q" then Quit
    else if IsDigitString(choice) then
      var k := DigitsValue(choice) - 1;
      if 0 <= k < |summaries| then Chosen(summaries[k]) else OutOfRange
    else ByName(summaries, Lower(choice))
  }

  /** The search by name: exactly one match is chosen. */
  function ByName(summaries: seq<DebtorSummary>, query: string): (r: Selection)
    ensures r.Chosen? || r.Ambiguous? || r.NoMatch?
  {
    var m := Matching(summaries, query);
    if |m| == 1 then Chosen(m[0]) else if |m| > 1 then Ambiguous else NoMatch
  }

  /**
   * Choosing by name: the chosen debtor's name contains the query and no
   * other debtor's does; a query no name contains chooses nobody.
   */
  lemma ChosenByNameIsUnique(summaries: seq<DebtorSummary>, query: string, other: DebtorSummary)
    requires other in summaries && Contains(Lower(other.name), query)
    ensures ByName(summaries, query).Chosen? ==> other == ByName(summaries, query).debtor
    ensures ByName(summaries, query).Chosen? || ByName(summaries, query).Ambiguous?
  {
    var m := Matching(summaries, query);
    assert other in m;
    if |m| == 1 {
      assert m[0] == other;
    }
  }

  /** A non-numeric entry is looked up by name, lower-cased. */
  lemma SelectByName(summaries: seq<DebtorSummary>, entry: string)
    requires Lower(Strip(entry)) != "q" && !IsDigitString(Strip(entry))
    ensures SelectDebtor(summaries, entry) == ByName(summaries, Lower(Strip(entry)))
  {
  }

  /** Choosing by position: entry `k` picks the k-th debtor of the list. */
  lemma {:induction false} ChosenByPosition(summaries: seq<DebtorSummary>, k: nat)
    requires 1 <= k <= |summaries|
    ensures SelectDebtor(summaries, NatToString(k)) == Chosen(summaries[k - 1])
  {
    var s := NatToString(k);
    DigitsValueOfNatToString(k);
    assert |s| > 0 && !IsSpace(s[0]) && !IsSpace(s[|s| - 1]);
    StripUnpadded(s);
    assert Lower(s) != "q" by {
      assert IsDigit(s[0]);
    }
  }

  /** A string with no space at either end is its own strip. */
  lemma StripUnpadded(s: string)
    requires |s| > 0 && !IsSpace(s[0]) && !IsSpace(s[|s| - 1])
    ensures Strip(s) == s
  {
  }

  /** An empty entry is contained in every name: it selects a store's only debtor. */
  lemma EmptyEntryPicksOnlyDebtor(summaries: seq<DebtorSummary>)
    requires |summaries| == 1
    ensures SelectDebtor(summaries, "") == Chosen(summaries[0])
  {
    assert Matching(summaries, "") == [summaries[0]] by {
      assert StartsWith(Lower(summaries[0].name), "");
    }
  }

  // ---------------------------------------------------------------------
  // The amount and its distribution
  // ---------------------------------------------------------------------

  /**
   * The amount check: a negative amount is refused, 0 means the whole total,
   * and an amount above the total is refused.
   */
  function PaymentAmount(entered: real, totalOwed: real): (r: Option<real>)
    ensures r.Some? <==> 0.0 <= entered && (entered == 0.0 || entered <= totalOwed)
    ensures r.Some? ==> r.value <= totalOwed && (r.value == entered || (entered == 0.0 && r.value == totalOwed))
  {
    if entered < 0.0 then None
    else
      var amount := if entered == 0.0 then totalOwed else entered;
      if amount > totalOwed then None else Some(amount)
  }

  /** `ORDER BY created_at`. */
  predicate CreatedNoLater(a: DebtRow, b: DebtRow) {
    a.createdAt <= b.createdAt
  }

  /** The debtor's debts in the store, oldest first. */
  function OrderedDebts(rows: seq<DebtRow>, storeId: int, name: string, phone: string): (r: seq<DebtRow>)
    ensures multiset(r) == multiset(DebtsOf(rows, storeId, name, phone))
    ensures SortedBy(r, CreatedNoLater)
  {
    SortBySorted(DebtsOf(rows, storeId, name, phone), CreatedNoLater);
    SortBy(DebtsOf(rows, storeId, name, phone), CreatedNoLater)
  }

  /** What the loop does to one debt. */
  datatype Step = Delete(id: int, amount: real) | Reduce(id: int, amount: real)

  /** The steps the loop takes over `ordered` with `remaining` still to place. */
  function Distribution(ordered: seq<DebtRow>, remaining: real): (r: seq<Step>)
    ensures |r| <= |ordered|
    ensures forall i :: 0 <= i < |r| ==> r[i].id == ordered[i].id
  {
    if |ordered| == 0 || remaining <= 0.0 then []
    else if remaining >= ordered[0].amountOwed then
      [Delete(ordered[0].id, ordered[0].amountOwed)] + Distribution(ordered[1..], remaining - ordered[0].amountOwed)
    else [Reduce(ordered[0].id, remaining)] + Distribution(ordered[1..], 0.0)
  }

  /** `remaining_payment` once the loop ends. */
  function Leftover(ordered: seq<DebtRow>, remaining: real): real
  {
    if |ordered| == 0 || remaining <= 0.0 then remaining
    else if remaining >= ordered[0].amountOwed then Leftover(ordered[1..], remaining - ordered[0].amountOwed)
    else 0.0
  }

  /** The amounts the steps apply. */
  function Applied(steps: seq<Step>): real
  {
    if |steps| == 0 then 0.0 else steps[0].amount + Applied(steps[1..])
  }

  /** Every debt but the last one touched is deleted for its whole amount. */
  lemma {:induction false} DeletesBeforeLast(ordered: seq<DebtRow>, remaining: real)
    ensures var r := Distribution(ordered, remaining);
      forall i :: 0 <= i < |r| - 1 ==> r[i] == Delete(ordered[i].id, ordered[i].amountOwed)
  {
    if |ordered| > 0 && remaining > 0.0 {
      if remaining >= ordered[0].amountOwed {
        var left := remaining - ordered[0].amountOwed;
        DeleteFirst(ordered, remaining);
        DeletesBeforeLast(ordered[1..], left);
        var r, rest := Distribution(ordered, remaining), Distribution(ordered[1..], left);
        forall i | 0 <= i < |r| - 1 ensures r[i] == Delete(ordered[i].id, ordered[i].amountOwed) {
          if i > 0 {
            assert r[i] == rest[i - 1] && ordered[i] == ordered[1..][i - 1];
          }
        }
      } else {
        ReduceOnly(ordered, remaining);
      }
    }
  }

  /** A payment that covers the first debt deletes it and goes on with the rest. */
  lemma DeleteFirst(ordered: seq<DebtRow>, remaining: real)
    requires |ordered| > 0 && remaining > 0.0 && remaining >= ordered[0].amountOwed
    ensures Distribution(ordered, remaining)
      == [Delete(ordered[0].id, ordered[0].amountOwed)] + Distribution(ordered[1..], remaining - ordered[0].amountOwed)
  {
  }

  /**
   * The last debt touched is deleted for its whole amount, or reduced by
   * strictly less than it owes, after which nothing is left over.
   */
  lemma LastStep(ordered: seq<DebtRow>, remaining: real)
    ensures var r := Distribution(ordered, remaining);
      (|r| > 0 && r[|r| - 1].Reduce? ==>
         0.0 < r[|r| - 1].amount < ordered[|r| - 1].amountOwed && Leftover(ordered, remaining) == 0.0)
      && (|r| > 0 && r[|r| - 1].Delete? ==> r[|r| - 1].amount == ordered[|r| - 1].amountOwed)
  {
    LastReduce(ordered, remaining);
    LastDelete(ordered, remaining);
  }

  lemma {:induction false} LastReduce(ordered: seq<DebtRow>, remaining: real)
    ensures var r := Distribution(ordered, remaining);
      |r| > 0 && r[|r| - 1].Reduce? ==>
         0.0 < r[|r| - 1].amount < ordered[|r| - 1].amountOwed && Leftover(ordered, remaining) == 0.0
  {
    if |ordered| > 0 && remaining > 0.0 {
      if remaining >= ordered[0].amountOwed {
        ShiftLast(ordered, remaining);
        LastReduce(ordered[1..], remaining - ordered[0].amountOwed);
      } else {
        ReduceOnly(ordered, remaining);
      }
    }
  }

  lemma {:induction false} LastDelete(ordered: seq<DebtRow>, remaining: real)
    ensures var r := Distribution(ordered, remaining);
      |r| > 0 && r[|r| - 1].Delete? ==> r[|r| - 1].amount == ordered[|r| - 1].amountOwed
  {
    if |ordered| > 0 && remaining > 0.0 {
      if remaining >= ordered[0].amountOwed {
        ShiftLast(ordered, remaining);
        LastDelete(ordered[1..], remaining - ordered[0].amountOwed);
      } else {
        ReduceOnly(ordered, remaining);
      }
    }
  }

  /** A debt deleted in full passes the rest of the payment on: the last step is the last step over the other debts. */
  lemma ShiftLast(ordered: seq<DebtRow>, remaining: real)
    requires |ordered| > 0 && remaining > 0.0 && remaining >= ordered[0].amountOwed
    ensures var r := Distribution(ordered, remaining);
      var rest := Distribution(ordered[1..], remaining - ordered[0].amountOwed);
      && Leftover(ordered, remaining) == Leftover(ordered[1..], remaining - ordered[0].amountOwed)
      && (|rest| == 0 ==> r == [Delete(ordered[0].id, ordered[0].amountOwed)])
      && (|rest| > 0 ==> |r| == |rest| + 1 && r[|r| - 1] == rest[|rest| - 1] && ordered[|r| - 1] == ordered[1..][|rest| - 1])
  {
    DeleteFirst(ordered, remaining);
  }

  /** A payment smaller than the first debt reduces that debt and stops. */
  lemma ReduceOnly(ordered: seq<DebtRow>, remaining: real)
    requires |ordered| > 0 && 0.0 < remaining < ordered[0].amountOwed
    ensures Distribution(ordered, remaining) == [Reduce(ordered[0].id, remaining)]
    ensures Leftover(ordered, remaining) == 0.0
  {
    assert Distribution(ordered[1..], 0.0) == [];
  }

  /** `remaining` drops by exactly what the steps apply, and ends at or below 0 unless every debt was cleared. */
  lemma {:induction false} AppliedPlusLeftover(ordered: seq<DebtRow>, remaining: real)
    ensures Applied(Distribution(ordered, remaining)) + Leftover(ordered, remaining) == remaining
    ensures |Distribution(ordered, remaining)| < |ordered| ==> Leftover(ordered, remaining) <= 0.0
  {
    if |ordered| > 0 && remaining > 0.0 {
      if remaining >= ordered[0].amountOwed {
        AppliedPlusLeftover(ordered[1..], remaining - ordered[0].amountOwed);
      } else {
        assert Distribution(ordered[1..], 0.0) == [];
      }
    }
  }

  /**
   * A payment within what the debts owe (all non-negative) is placed in
   * full: nothing is left over and the steps apply exactly the payment.
   */
  lemma {:induction false} DistributionPlacesPayment(ordered: seq<DebtRow>, payment: real)
    requires forall i :: 0 <= i < |ordered| ==> ordered[i].amountOwed >= 0.0
    requires 0.0 <= payment <= SumOwed(ordered)
    ensures Leftover(ordered, payment) == 0.0
    ensures Applied(Distribution(ordered, payment)) == payment
  {
    AppliedPlusLeftover(ordered, payment);
    if |ordered| > 0 && payment > 0.0 && payment >= ordered[0].amountOwed {
      DistributionPlacesPayment(ordered[1..], payment - ordered[0].amountOwed);
    }
  }

  lemma {:induction false} SumOwedInsert(x: DebtRow, s: seq<DebtRow>)
    ensures SumOwed(Insert(x, s, CreatedNoLater)) == x.amountOwed + SumOwed(s)
  {
    if |s| > 0 && !CreatedNoLater(x, s[0]) {
      SumOwedInsert(x, s[1..]);
    }
  }

  /** Sorting changes no total. */
  lemma {:induction false} SumOwedSorted(s: seq<DebtRow>)
    ensures SumOwed(SortBy(s, CreatedNoLater)) == SumOwed(s)
  {
    if |s| > 0 {
      SumOwedSorted(s[1..]);
      SumOwedInsert(s[0], SortBy(s[1..], CreatedNoLater));
    }
  }

  // ---------------------------------------------------------------------
  // The table after the distribution
  // ---------------------------------------------------------------------

  /** `DELETE FROM debts WHERE id = ?`. */
  function Without(rows: seq<DebtRow>, id: int): (r: seq<DebtRow>)
    ensures forall x :: x in r <==> x in rows && x.id != id
  {
    if |rows| == 0 then []
    else if rows[0].id == id then Without(rows[1..], id)
    else [rows[0]] + Without(rows[1..], id)
  }

  /** `UPDATE debts SET amount_owed = amount_owed - ? WHERE id = ?`. */
  function ReduceWhere(rows: seq<DebtRow>, id: int, amount: real): (r: seq<DebtRow>)
    ensures |r| == |rows|
    ensures forall k :: 0 <= k < |rows| ==>
      r[k] == if rows[k].id == id then rows[k].(amountOwed := rows[k].amountOwed - amount) else rows[k]
  {
    seq(|rows|, k requires 0 <= k < |rows| =>
      if rows[k].id == id then rows[k].(amountOwed := rows[k].amountOwed - amount) else rows[k])
  }

  function ApplyStep(rows: seq<DebtRow>, s: Step): seq<DebtRow>
  {
    match s
    case Delete(id, _) => Without(rows, id)
    case Reduce(id, amount) => ReduceWhere(rows, id, amount)
  }

  function ApplySteps(rows: seq<DebtRow>, steps: seq<Step>): seq<DebtRow>
    decreases |steps|
  {
    if |steps| == 0 then rows else ApplySteps(ApplyStep(rows, steps[0]), steps[1..])
  }

  /** The first step for a debt, if any. */
  function StepFor(steps: seq<Step>, id: int): (r: Option<Step>)
    ensures r.Some? ==> r.value in steps && r.value.id == id
    ensures r.None? <==> forall i :: 0 <= i < |steps| ==> steps[i].id != id
  {
    if |steps| == 0 then None
    else if steps[0].id == id then Some(steps[0])
    else StepFor(steps[1..], id)
  }

  /** What becomes of one row under its step: kept, gone, or reduced. */
  function Settled(y: DebtRow, s: Option<Step>): (r: Option<DebtRow>)
    ensures r.Some? ==> r.value.id == y.id
  {
    match s
    case None => Some(y)
    case Some(Delete(_, _)) => None
    case Some(Reduce(_, amount)) => Some(y.(amountOwed := y.amountOwed - amount))
  }

  predicate DistinctStepIds(steps: seq<Step>) {
    forall i, j :: 0 <= i < j < |steps| ==> steps[i].id != steps[j].id
  }

  /** The step itself, for the row it names. */
  function Own(s: Step, id: int): Option<Step> {
    if s.id == id then Some(s) else None
  }

  /** A row is in the table after one step exactly when some row settles to it under that step. */
  lemma ApplyStepRows(rows: seq<DebtRow>, s: Step, x: DebtRow)
    ensures x in ApplyStep(rows, s) <==> SettlesTo(rows, s, x)
  {
    if s.Delete? {
      DeleteRows(rows, s, x);
    } else {
      ReduceRows(rows, s, x);
    }
  }

  /** Some row of the table settles to `x` under the step. */
  ghost predicate SettlesTo(rows: seq<DebtRow>, s: Step, x: DebtRow) {
    exists y :: y in rows && Settled(y, Own(s, y.id)) == Some(x)
  }

  lemma DeleteRows(rows: seq<DebtRow>, s: Step, x: DebtRow)
    requires s.Delete?
    ensures x in Without(rows, s.id) <==> SettlesTo(rows, s, x)
  {
    if x in Without(rows, s.id) {
      assert x in rows && Settled(x, Own(s, x.id)) == Some(x);
    }
    if SettlesTo(rows, s, x) {
      var y :| y in rows && Settled(y, Own(s, y.id)) == Some(x);
      assert y == x;
    }
  }

  lemma ReduceRows(rows: seq<DebtRow>, s: Step, x: DebtRow)
    requires s.Reduce?
    ensures x in ReduceWhere(rows, s.id, s.amount) <==> SettlesTo(rows, s, x)
  {
    var r := ReduceWhere(rows, s.id, s.amount);
    if x in r {
      var k :| 0 <= k < |r| && r[k] == x;
      ReduceAt(rows, s, k);
      assert rows[k] in rows;
    }
    if SettlesTo(rows, s, x) {
      var y :| y in rows && Settled(y, Own(s, y.id)) == Some(x);
      var k :| 0 <= k < |rows| && rows[k] == y;
      ReduceAt(rows, s, k);
      assert r[k] == x;
    }
  }

  /** The row at position `k` after the update is that row settled by the step. */
  lemma ReduceAt(rows: seq<DebtRow>, s: Step, k: nat)
    requires s.Reduce? && k < |rows|
    ensures Settled(rows[k], Own(s, rows[k].id)) == Some(ReduceWhere(rows, s.id, s.amount)[k])
  {
  }

  /** Settling by the first step and then by the rest is settling by the whole sequence. */
  lemma SettleCompose(y: DebtRow, s: Step, rest: seq<Step>)
    requires StepFor(rest, s.id).None?
    ensures Settled(y, StepFor([s] + rest, y.id)) ==
      match Settled(y, Own(s, y.id))
      case None => None
      case Some(y1) => Settled(y1, StepFor(rest, y1.id))
  {
    assert ([s] + rest)[1..] == rest;
  }

  /**
   * The table after the steps: each row is settled by the step for its id
   * (deleted, or reduced by that step's amount), and a row no step names is
   * kept as it was.
   */
  lemma {:induction false} ApplyStepsRows(rows: seq<DebtRow>, steps: seq<Step>, x: DebtRow)
    requires DistinctStepIds(steps)
    ensures x in ApplySteps(rows, steps) <==> exists y :: y in rows && Settled(y, StepFor(steps, y.id)) == Some(x)
    decreases |steps|
  {
    if |steps| > 0 {
      var s := steps[0];
      var rest := steps[1..];
      assert steps == [s] + rest;
      var r1 := ApplyStep(rows, s);
      assert DistinctStepIds(rest);
      ApplyStepsRows(r1, rest, x);
      assert StepFor(rest, s.id).None? by {
        forall i | 0 <= i < |rest| ensures rest[i].id != s.id {
          assert rest[i] == steps[i + 1];
        }
      }
      if x in ApplySteps(rows, steps) {
        var y1 :| y1 in r1 && Settled(y1, StepFor(rest, y1.id)) == Some(x);
        ApplyStepRows(rows, s, y1);
        var y :| y in rows && Settled(y, Own(s, y.id)) == Some(y1);
        SettleCompose(y, s, rest);
      }
      if exists y :: y in rows && Settled(y, StepFor(steps, y.id)) == Some(x) {
        var y :| y in rows && Settled(y, StepFor(steps, y.id)) == Some(x);
        SettleCompose(y, s, rest);
        var y1 := Settled(y, Own(s, y.id)).value;
        ApplyStepRows(rows, s, y1);
        assert y1 in r1;
      }
    }
  }

  /** Distinct debt ids give distinct step ids. */
  lemma DistributionIdsDistinct(ordered: seq<DebtRow>, remaining: real)
    requires forall i, j :: 0 <= i < j < |ordered| ==> ordered[i].id != ordered[j].id
    ensures DistinctStepIds(Distribution(ordered, remaining))
  {
  }

  // ---------------------------------------------------------------------
  // The operation
  // ---------------------------------------------------------------------

  /** The loop over the ordered debts, deleting or reducing one row per round. */
  method DistributePayment(db: DebtsDb, ordered: seq<DebtRow>, payment: real) returns (remaining: real)
    modifies db
    ensures db.debts == ApplySteps(old(db.debts), Distribution(ordered, payment))
    ensures remaining == Leftover(ordered, payment)
    ensures db.payments == old(db.payments)
  {
    remaining := payment;
    var i := 0;
    while i < |ordered|
      invariant 0 <= i <= |ordered|
      invariant ApplySteps(db.debts, Distribution(ordered[i..], remaining))
                == ApplySteps(old(db.debts), Distribution(ordered, payment))
      invariant Leftover(ordered[i..], remaining) == Leftover(ordered, payment)
      invariant db.payments == old(db.payments)
    {
      if remaining <= 0.0 {
        break;
      }
      var debt := ordered[i];
      assert ordered[i..][1..] == ordered[i + 1..];
      var paid: real;
      if remaining >= debt.amountOwed {
        paid := debt.amountOwed;
        db.debts := Without(db.debts, debt.id);
      } else {
        paid := remaining;
        db.debts := ReduceWhere(db.debts, debt.id, paid);
      }
      remaining := remaining - paid;
      i := i + 1;
    }
  }

  /** How `pay_debt` ends. */
  datatype PayOutcome =
    | NotPermitted
    | NoStoreSelected
    | StoreNotFound
    | NoDebts
    | NotChosen(selection: Selection)
    | NotANumber
    | AmountRefused
    | RolledBack
    | Paid(amount: real, remaining: real)

  /** The `debt_payments` row: written for a positive amount when the first debt's id is truthy. */
  function PaymentRecord(ordered: seq<DebtRow>, amount: real, u: CurrentUser, storeId: int): (r: Option<DebtPaymentRow>)
    ensures r.Some? ==> |ordered| > 0 && r.value.debtId == ordered[0].id && r.value.amount == amount
  {
    if amount > 0.0 && |ordered| > 0 && ordered[0].id != 0
    then Some(DebtPaymentRow(ordered[0].id, amount, storeId, u.storeCode.GetOr(""), u.id))
    else None
  }

  /** The checks `pay_debt` makes before writing: refused with a reason, or a payment to make. */
  datatype Request = Refused(reason: PayOutcome) | Payment(storeId: int, debtor: DebtorSummary, amount: real)

  /**
   * The checks in order: the user must be a boss with a store selected that
   * exists, the store must have debts, the entry must choose a debtor, and
   * the amount must parse and pass the amount check. `amountEntry` is
   * `float(...)` of the amount entry, None when it does not parse.
   */
  function PaymentRequest(rows: seq<DebtRow>, u: CurrentUser, storeFound: bool, choice: string,
                          amountEntry: Option<real>): (r: Request)
    ensures !IsBoss(u) ==> r == Refused(NotPermitted)
    ensures IsBoss(u) && !HasStore(u) ==> r == Refused(NoStoreSelected)
    ensures IsBoss(u) && HasStore(u) && !storeFound ==> r == Refused(StoreNotFound)
    ensures IsBoss(u) && HasStore(u) && storeFound && |Summaries(rows, u.storeId.value)| == 0 ==> r == Refused(NoDebts)
    ensures r.Refused? ==> !r.reason.Paid? && !r.reason.RolledBack?
    ensures r.Payment? ==>
      IsBoss(u) && HasStore(u) && storeFound && r.storeId == u.storeId.value
      && SelectDebtor(Summaries(rows, r.storeId), choice) == Chosen(r.debtor)
      && amountEntry.Some? && PaymentAmount(amountEntry.value, r.debtor.totalOwed) == Some(r.amount)
  {
    if !IsBoss(u) then Refused(NotPermitted)
    else if !HasStore(u) then Refused(NoStoreSelected)
    else if !storeFound then Refused(StoreNotFound)
    else
      var summaries := Summaries(rows, u.storeId.value);
      if |summaries| == 0 then Refused(NoDebts)
      else
        var sel := SelectDebtor(summaries, choice);
        if !sel.Chosen? then Refused(NotChosen(sel))
        else if amountEntry.None? then Refused(NotANumber)
        else
          var amount := PaymentAmount(amountEntry.value, sel.debtor.totalOwed);
          if amount.None? then Refused(AmountRefused) else Payment(u.storeId.value, sel.debtor, amount.value)
  }

  /** The writes of a payment: the distribution, then the payment row, if any. */
  method SettleDebtor(db: DebtsDb, ordered: seq<DebtRow>, amount: real, record: Option<DebtPaymentRow>)
    returns (remaining: real)
    modifies db
    ensures db.debts == ApplySteps(old(db.debts), Distribution(ordered, amount))
    ensures remaining == Leftover(ordered, amount)
    ensures db.payments == old(db.payments) + if record.Some? then [record.value] else []
  {
    remaining := DistributePayment(db, ordered, amount);
    if record.Some? {
      db.payments := db.payments + [record.value];
    }
  }

  /**
   * `pay_debt`: nothing is written unless the checks pass and the commit
   * succeeds; then the debtor's debts, oldest first, absorb the amount and
   * one payment row is added.
   */
  method PayDebt(db: DebtsDb, u: CurrentUser, storeFound: bool, choice: string, amountEntry: Option<real>,
                 commitOk: bool) returns (outcome: PayOutcome)
    modifies db
    ensures var req := PaymentRequest(old(db.debts), u, storeFound, choice, amountEntry);
      (req.Refused? ==> outcome == req.reason)
      && (req.Payment? && !commitOk ==> outcome == RolledBack)
      && (!outcome.Paid? ==> db.debts == old(db.debts) && db.payments == old(db.payments))
      && (req.Payment? && commitOk ==>
            var ordered := OrderedDebts(old(db.debts), req.storeId, req.debtor.name, req.debtor.phone);
            outcome == Paid(req.amount, Leftover(ordered, req.amount))
            && db.debts == ApplySteps(old(db.debts), Distribution(ordered, req.amount))
            && db.payments == old(db.payments)
               + if PaymentRecord(ordered, req.amount, u, req.storeId).Some?
                 then [PaymentRecord(ordered, req.amount, u, req.storeId).value] else [])
  {
    var req := PaymentRequest(db.debts, u, storeFound, choice, amountEntry);
    if req.Refused? {
      return req.reason;
    }
    if !commitOk {
      return RolledBack;
    }
    var ordered := OrderedDebts(db.debts, req.storeId, req.debtor.name, req.debtor.phone);
    var record := PaymentRecord(ordered, req.amount, u, req.storeId);
    var remaining := SettleDebtor(db, ordered, req.amount, record);
    return Paid(req.amount, remaining);
  }

  /** The debtor's ordered debts are theirs, and they owe the summary's total. */
  lemma OrderedDebtsOfSummary(rows: seq<DebtRow>, storeId: int, d: DebtorSummary)
    requires d in Summaries(rows, storeId)
    ensures SumOwed(OrderedDebts(rows, storeId, d.name, d.phone)) == d.totalOwed
    ensures forall k :: 0 <= k < |OrderedDebts(rows, storeId, d.name, d.phone)| ==>
      OrderedDebts(rows, storeId, d.name, d.phone)[k] in rows
  {
    var own := DebtsOf(rows, storeId, d.name, d.phone);
    SumOwedSorted(own);
    var ordered := OrderedDebts(rows, storeId, d.name, d.phone);
    forall k | 0 <= k < |ordered| ensures ordered[k] in rows {
      assert ordered[k] in multiset(own);
    }
  }

  lemma {:induction false} SumOwedNonNegative(rows: seq<DebtRow>)
    requires forall k :: 0 <= k < |rows| ==> rows[k].amountOwed >= 0.0
    ensures SumOwed(rows) >= 0.0
  {
    if |rows| > 0 {
      SumOwedNonNegative(rows[1..]);
    }
  }

  /**
   * A successful payment, with non-negative debts, is placed in full over
   * the debtor's debts taken oldest first.
   */
  lemma PaidAmountPlacedInFull(rows: seq<DebtRow>, storeId: int, d: DebtorSummary, entered: real)
    requires d in Summaries(rows, storeId)
    requires forall x :: x in rows ==> x.amountOwed >= 0.0
    requires PaymentAmount(entered, d.totalOwed).Some?
    ensures var ordered := OrderedDebts(rows, storeId, d.name, d.phone);
      var amount := PaymentAmount(entered, d.totalOwed).value;
      Leftover(ordered, amount) == 0.0 && Applied(Distribution(ordered, amount)) == amount
  {
    OrderedDebtsOfSummary(rows, storeId, d);
    var ordered := OrderedDebts(rows, storeId, d.name, d.phone);
    var amount := PaymentAmount(entered, d.totalOwed).value;
    assert forall k :: 0 <= k < |ordered| ==> ordered[k].amountOwed >= 0.0 by {
      forall k | 0 <= k < |ordered| ensures ordered[k].amountOwed >= 0.0 {
        assert ordered[k] in rows;
      }
    }
    SumOwedNonNegative(ordered);
    assert 0.0 <= amount <= SumOwed(ordered);
    DistributionPlacesPayment(ordered, amount);
  }
}
