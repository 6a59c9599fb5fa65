/**
 * Product codes: `f"{store_code}_{sequence_number:04d}"`, and the next
 * sequence number of a store (the largest one in use plus one, or 1).
 * The Excel import and the product service both have these.
 */
module ProductCodes {
  import opened Wrappers
  import opened Text

  /** The columns of a `products` row the sequence query reads; `sequence_number` may be NULL. */
  datatype CodeRow = CodeRow(storeCode: string, sequenceNumber: Option<int>)

  /** The largest non-NULL sequence number among the store's rows. */
  function MaxSequence(rows: seq<CodeRow>, storeCode: string): (r: Option<int>)
    ensures r.Some? ==> exists i :: 0 <= i < |rows| && rows[i].storeCode == storeCode && rows[i].sequenceNumber == Some(r.value)
    ensures r.Some? ==> forall i :: 0 <= i < |rows| && rows[i].storeCode == storeCode && rows[i].sequenceNumber.Some? ==>
      rows[i].sequenceNumber.value <= r.value
    ensures r.None? ==> forall i :: 0 <= i < |rows| && rows[i].storeCode == storeCode ==> rows[i].sequenceNumber.None?
  {
    if |rows| == 0 then None
    else
      var rest := MaxSequence(rows[1..], storeCode);
      assert forall i :: 1 <= i < |rows| ==> rows[i] == rows[1..][i - 1];
      if rows[0].storeCode != storeCode || rows[0].sequenceNumber.None? then
        rest
      else if rest.None? || rest.value < rows[0].sequenceNumber.value then
        rows[0].sequenceNumber
      else
        rest
  }

  /**
   * `get_next_sequence_number` of the product service:
   * `ORDER BY sequence_number DESC LIMIT 1` plus one, or 1 with no row. A
   * row whose number is NULL fails on `None + 1`, and the error path is 1 too.
   * `readOk` is false when the query itself fails.
   */
  function NextSequence(rows: seq<CodeRow>, storeCode: string, readOk: bool): (n: int)
    ensures readOk ==> forall i :: 0 <= i < |rows| && rows[i].storeCode == storeCode && rows[i].sequenceNumber.Some? ==>
      rows[i].sequenceNumber.value < n
    ensures !readOk ==> n == 1
    ensures readOk && MaxSequence(rows, storeCode).None? ==> n == 1
  {
    if !readOk then 1
    else match MaxSequence(rows, storeCode)
      case None => 1
      case Some(m) => m + 1
  }

  /** The Excel import's variant: 1 without a selected store code. */
  function NextSequenceForStore(rows: seq<CodeRow>, storeCode: string, readOk: bool): (n: int)
    ensures storeCode == "" ==> n == 1
    ensures storeCode != "" ==> n == NextSequence(rows, storeCode, readOk)
  {
    if storeCode == "" then 1 else NextSequence(rows, storeCode, readOk)
  }

  /** Python's `{n:04d}`: at least four characters, zero-padded after a minus sign. */
  function Format04(n: int): string
  {
    if n >= 0 then ZeroPad(n, 4) else "-" + ZeroPad(-n, 3)
  }

  /** `generate_product_code`. */
  function ProductCode(storeCode: string, sequenceNumber: int): string
  {
    storeCode + "_" + Format04(sequenceNumber)
  }

  /**
   * For a sequence number that is not negative, the code is the store code,
   * `_`, and at least four digits (exactly four below 10000) reading back as
   * the number.
   */
  lemma ProductCodeParts(storeCode: string, n: nat)
    ensures var code := ProductCode(storeCode, n); var tail := code[|storeCode| + 1..];
      code[..|storeCode|] == storeCode && code[|storeCode|] == '_'
      && |tail| >= 4 && (n < 10000 ==> |tail| == 4)
      && AllDigits(tail) && DigitsValue(tail) == n
  {
    var code := ProductCode(storeCode, n);
    assert code[|storeCode| + 1..] == ZeroPad(n, 4);
    ZeroPadValue(n, 4);
    if n < 10000 {
      SmallNumberDigits(n);
    }
  }

  function Pow10(k: nat): (r: nat)
    ensures r >= 1
  {
    if k == 0 then 1 else 10 * Pow10(k - 1)
  }

  /** A number below 10^k has at most k digits. */
  lemma {:induction false} DigitsBelow(n: nat, k: nat)
    requires k >= 1 && n < Pow10(k)
    ensures |NatToString(n)| <= k
    decreases k
  {
    if n >= 10 {
      assert Pow10(1) == 10;
      assert n / 10 < Pow10(k - 1);
      DigitsBelow(n / 10, k - 1);
    }
  }

  lemma SmallNumberDigits(n: nat)
    requires n < 10000
    ensures |NatToString(n)| <= 4
  {
    assert Pow10(4) == 10000 by {
      assert Pow10(1) == 10 && Pow10(2) == 100 && Pow10(3) == 1000;
    }
    DigitsBelow(n, 4);
  }

  /** Within a store, different sequence numbers give different codes. */
  lemma ProductCodeInjective(storeCode: string, a: nat, b: nat)
    requires ProductCode(storeCode, a) == ProductCode(storeCode, b)
    ensures a == b
  {
    ProductCodeParts(storeCode, a);
    ProductCodeParts(storeCode, b);
  }

  /** The next sequence number gives a code no row of the store already has. */
  lemma NextCodeIsNew(rows: seq<CodeRow>, storeCode: string, i: int)
    requires 0 <= i < |rows| && rows[i].storeCode == storeCode && rows[i].sequenceNumber.Some?
    requires rows[i].sequenceNumber.value >= 0
    ensures NextSequence(rows, storeCode, true) >= 1
    ensures ProductCode(storeCode, NextSequence(rows, storeCode, true)) != ProductCode(storeCode, rows[i].sequenceNumber.value)
  {
    var n := NextSequence(rows, storeCode, true);
    var m := rows[i].sequenceNumber.value;
    if ProductCode(storeCode, n) == ProductCode(storeCode, m) {
      ProductCodeInjective(storeCode, n, m);
    }
  }
}
