/**
 * `BusinessCostsManager`: who may manage costs, the amount, date and
 * frequency validators, and the per-category totals of the three cost
 * tables. Each table is a sequence of rows; `SUM(amount) ... GROUP BY`
 * is a fold over the selected rows.
 */
module BusinessCosts {
  import opened Wrappers
  import opened Text
  import opened Calendar
  import opened PyNumbers
  import opened Session

  // ---------------------------------------------------------------------
  // Permission
  // ---------------------------------------------------------------------

  /** The three refusals of `_check_permission`, in the order it tests them. */
  datatype Refusal = NoUserLoggedIn | NotBoss | NoStoreSelected

  /**
   * `_check_permission`: the first refusal that applies, None when the user
   * may manage costs.
   */
  function PermissionRefusal(user: Option<CurrentUser>): (r: Option<Refusal>)
    ensures r == Some(NoUserLoggedIn) <==> user.None?
    ensures r == Some(NotBoss) <==> user.Some? && !IsBoss(user.value)
    ensures r == Some(NoStoreSelected) <==>
      user.Some? && IsBoss(user.value) && !(HasStore(user.value) && HasStoreCode(user.value))
  {
    if user.None? then Some(NoUserLoggedIn)
    else if user.value.role != "boss" then Some(NotBoss)
    else if user.value.storeId.None? || user.value.storeId.value == 0
      || user.value.storeCode.None? || user.value.storeCode.value == "" then Some(NoStoreSelected)
    else None
  }

  /** `_check_permission()` returns True. */
  predicate CheckPermission(user: Option<CurrentUser>) {
    PermissionRefusal(user).None?
  }

  /** Costs may be managed exactly by a logged-in boss with both a store id and a store code. */
  lemma PermittedIffBossWithStore(user: Option<CurrentUser>)
    ensures CheckPermission(user) <==>
      user.Some? && IsBoss(user.value) && HasStore(user.value) && HasStoreCode(user.value)
  {
  }

  // ---------------------------------------------------------------------
  // Amounts
  // ---------------------------------------------------------------------

  /**
   * `_validate_amount` as written: `float(s)` and then `amount <= 0`
   * rejected. NaN compares false with 0 and positive infinity is above
   * it, so both are accepted.
   */
  function ValidateAmountAsWritten(s: string): (r: Option<Float>)
    ensures r.Some? ==> ParseFloat(s) == r
    ensures r.Some? && r.value.Finite? ==> r.value.value > 0.0
  {
    if s == "" then None
    else
      match ParseFloat(s)
      case None => None
      case Some(v) => if AtMost(v, 0.0) then None else Some(v)
  }

  /** `float("nan")` passes the amount check as written. */
  lemma NanAmountAccepted()
    ensures ValidateAmountAsWritten("nan") == Some(NaN)
  {
    ParseNanExample();
  }

  /** The amount check as evidently intended: a finite number above zero. */
  function ValidateAmount(s: string): (r: Option<real>)
    ensures r.Some? <==> s != "" && ParseFloat(s).Some? && ParseFloat(s).value.Finite?
                         && ParseFloat(s).value.value > 0.0
    ensures r.Some? ==> ParseFloat(s) == Some(Finite(r.value)) && r.value > 0.0
  {
    if s == "" then None
    else
      match ParseFloat(s)
      case Some(Finite(x)) => if x <= 0.0 then None else Some(x)
      case _ => None
  }

  /** The intended check differs from the written one only on NaN and infinity. */
  lemma AmountChecksAgree(s: string)
    ensures ValidateAmountAsWritten(s).Some? && ValidateAmountAsWritten(s).value.Finite? ==>
      ValidateAmount(s) == Some(ValidateAmountAsWritten(s).value.value)
    ensures ValidateAmount(s).Some? ==> ValidateAmountAsWritten(s) == Some(Finite(ValidateAmount(s).value))
  {
  }

  // ---------------------------------------------------------------------
  // Dates
  // ---------------------------------------------------------------------

  /** `\d{4}-\d{2}-\d{2}` on exactly ten characters. */
  predicate DateShape(s: string) {
    |s| == 10 && AllDigits(s[..4]) && s[4] == '-' && AllDigits(s[5..7]) && s[7] == '-' && AllDigits(s[8..])
  }

  /** `re.match(r'^\d{4}-\d{2}-\d{2}$', s)`: `$` also matches before a final newline. */
  predicate DatePattern(s: string) {
    DateShape(s) || (|s| == 11 && DateShape(s[..10]) && s[10] == '\n')
  }

  /** `_validate_date`: non-empty, the pattern, then `strptime(s, '%Y-%m-%d')`. */
  predicate ValidateDateText(s: string) {
    s != "" && DatePattern(s) && ParseYmd(s).Some?
  }

  /** The date the ten characters spell, read field by field. */
  function ShapeDate(s: string): Date
    requires DateShape(s)
  {
    Date(DigitsValue(s[..4]), DigitsValue(s[5..7]), DigitsValue(s[8..]))
  }

  /** Two digits read as a number. */
  lemma TwoDigitValue(t: string)
    requires |t| == 2 && AllDigits(t)
    ensures DigitsValue(t) == 10 * DigitValue(t[0]) + DigitValue(t[1])
  {
    var h := t[..1];
    assert h[..0] == [] && h[0] == t[0];
    assert DigitsValue(h) == DigitValue(t[0]);
  }

  /** `strptime`'s month directive on two digits followed by `-` reads both digits exactly when they make 01 to 12. */
  lemma MonthOfTwoDigits(rest: string)
    requires |rest| >= 3 && IsDigit(rest[0]) && IsDigit(rest[1]) && rest[2] == '-'
    ensures var v := 10 * DigitValue(rest[0]) + DigitValue(rest[1]);
      (MonthToken(rest).Some? && MonthToken(rest).value.1 == 2) <==> 1 <= v <= 12
    ensures MonthToken(rest).Some? && MonthToken(rest).value.1 == 2 ==>
      MonthToken(rest).value.0 == 10 * DigitValue(rest[0]) + DigitValue(rest[1])
    ensures MonthToken(rest).Some? ==> 1 <= MonthToken(rest).value.1 <= 2
  {
  }

  /** The day directive on exactly two digits reads both exactly when they make 01 to 31. */
  lemma DayOfTwoDigits(tail: string)
    requires |tail| == 2 && IsDigit(tail[0]) && IsDigit(tail[1])
    ensures var v := 10 * DigitValue(tail[0]) + DigitValue(tail[1]);
      (DayToken(tail).Some? && DayToken(tail).value.1 == 2) <==> 1 <= v <= 31
    ensures DayToken(tail).Some? && DayToken(tail).value.1 == 2 ==>
      DayToken(tail).value.0 == 10 * DigitValue(tail[0]) + DigitValue(tail[1])
  {
  }

  /** Neither directive takes more than two characters. */
  lemma TokensShort(s: string)
    ensures MonthToken(s).Some? ==> MonthToken(s).value.1 <= 2
    ensures DayToken(s).Some? ==> DayToken(s).value.1 <= 2
  {
  }

  /** On ten characters of the pattern's shape, `strptime` succeeds exactly on a valid date. */
  lemma ShapeParse(s: string)
    requires DateShape(s)
    ensures ParseYmd(s).Some? <==> ValidDate(ShapeDate(s))
    ensures ParseYmd(s).Some? ==> ParseYmd(s).value == ShapeDate(s)
  {
    var mm := s[5..7];
    var dd := s[8..];
    assert IsDigit(mm[0]) && IsDigit(mm[1]) && IsDigit(dd[0]) && IsDigit(dd[1]);
    var rest := s[5..];
    assert rest[0] == mm[0] && rest[1] == mm[1] && rest[2] == '-';
    var tail := rest[3..];
    assert tail == dd;
    TwoDigitValue(mm);
    TwoDigitValue(dd);
    MonthOfTwoDigits(rest);
    DayOfTwoDigits(tail);
  }

  /** Anything longer than ten characters, the pattern's newline case included, fails `strptime`. */
  lemma LongParse(s: string)
    requires |s| >= 11
    ensures ParseYmd(s).None?
  {
    if |s| >= 5 {
      TokensShort(s[5..]);
      if MonthToken(s[5..]).Some? {
        var used := MonthToken(s[5..]).value.1;
        if used + 1 <= |s[5..]| {
          TokensShort(s[5..][used + 1..]);
        }
      }
    }
  }

  /**
   * `_validate_date` accepts exactly the ten-character `YYYY-MM-DD`
   * strings whose fields form a calendar date `datetime` accepts.
   */
  lemma ValidateDateTextAccepts(s: string)
    ensures ValidateDateText(s) <==> DateShape(s) && ValidDate(ShapeDate(s))
  {
    if DateShape(s) {
      ShapeParse(s);
    } else if |s| >= 11 {
      LongParse(s);
    }
  }

  /** `validate_date`: empty input is no date when allowed, otherwise today's date. */
  function ValidateDate(s: string, allowEmpty: bool, today: Date): (r: (bool, Option<string>))
    requires ValidDate(today)
    ensures s == "" && allowEmpty ==> r == (true, None)
    ensures s == "" && !allowEmpty ==> r == (true, Some(FormatYmd(today)))
    ensures s != "" ==> r == (ValidateDateText(s), Some(s))
  {
    if allowEmpty && s == "" then (true, None)
    else if s == "" then (true, Some(FormatYmd(today)))
    else (ValidateDateText(s), Some(s))
  }

  /** Four digits, `-`, two digits, `-`, two digits. */
  lemma ShapeOfParts(y: string, m: string, dd: string)
    requires |y| == 4 && AllDigits(y) && |m| == 2 && AllDigits(m) && |dd| == 2 && AllDigits(dd)
    ensures DateShape(y + ("-" + (m + ("-" + dd))))
  {
    var s := y + ("-" + (m + ("-" + dd)));
    assert s[..4] == y;
    assert s[5..7] == m;
    assert s[8..] == dd;
  }

  /** The `YYYY-MM-DD` text of a date with a four-digit year has the shape of the pattern. */
  lemma FormatShape(d: Date)
    requires ValidDate(d) && d.year >= 1000
    ensures DateShape(FormatYmd(d))
  {
    FourDigitYear(d.year);
    TwoDigits(d.month);
    TwoDigits(d.day);
    ZeroPadValue(d.year, 4);
    ZeroPadValue(d.month, 2);
    ZeroPadValue(d.day, 2);
    ShapeOfParts(ZeroPad(d.year, 4), ZeroPad(d.month, 2), ZeroPad(d.day, 2));
  }

  /** Whatever date text `validate_date` hands on as valid passes `_validate_date`, for four-digit years. */
  lemma ValidateDateGivesValidText(s: string, allowEmpty: bool, today: Date)
    requires ValidDate(today) && today.year >= 1000
    requires ValidateDate(s, allowEmpty, today).0 && ValidateDate(s, allowEmpty, today).1.Some?
    ensures ValidateDateText(ValidateDate(s, allowEmpty, today).1.value)
  {
    if s == "" {
      ParseFormatRoundTrip(today);
      FormatShape(today);
    }
  }

  // ---------------------------------------------------------------------
  // Frequencies
  // ---------------------------------------------------------------------

  const CostFrequencies: seq<string> := ["one_time", "daily", "weekly", "monthly", "yearly"]
  const SystemFrequencies: seq<string> := ["daily", "weekly", "monthly", "yearly", "one_time"]

  /** `validate_category_choice`: a menu key of the category map, giving its category. */
  function ValidateCategoryChoice(choice: string, categories: map<string, string>): (r: (bool, Option<string>))
    ensures r.0 <==> choice in categories
    ensures r.0 ==> r.1.Some? && r.1.value in categories.Values
    ensures !r.0 ==> r.1.None?
  {
    if choice in categories then (true, Some(categories[choice])) else (false, None)
  }

  /** `validate_frequency`: empty means one-time; otherwise one of the five names. */
  function ValidateFrequency(freq: string): (r: (bool, Option<string>))
    ensures r.0 <==> freq == "" || freq in CostFrequencies
    ensures r.0 ==> r.1.Some? && r.1.value in CostFrequencies
    ensures !r.0 ==> r.1.None?
    ensures freq != "" && r.0 ==> r.1 == Some(freq)
  {
    if freq == "" then (true, Some("one_time"))
    else if freq in CostFrequencies then (true, Some(freq))
    else (false, None)
  }

  /** `validate_system_cost_frequency`: the same names, empty meaning monthly. */
  function ValidateSystemCostFrequency(freq: string): (r: (bool, Option<string>))
    ensures r.0 <==> freq == "" || freq in SystemFrequencies
    ensures r.0 ==> r.1.Some? && r.1.value in SystemFrequencies
    ensures !r.0 ==> r.1.None?
    ensures freq != "" && r.0 ==> r.1 == Some(freq)
  {
    if freq == "" then (true, Some("monthly"))
    else if freq in SystemFrequencies then (true, Some(freq))
    else (false, None)
  }

  /** The two validators differ only in the default for empty input. */
  lemma FrequencyValidatorsAgree(freq: string)
    ensures freq != "" ==> ValidateFrequency(freq) == ValidateSystemCostFrequency(freq)
    ensures ValidateFrequency("") == (true, Some("one_time"))
    ensures ValidateSystemCostFrequency("") == (true, Some("monthly"))
  {
    assert forall f :: f in CostFrequencies <==> f in SystemFrequencies;
  }

  // ---------------------------------------------------------------------
  // Totals
  // ---------------------------------------------------------------------

  /** A row of `business_costs`. */
  datatype BusinessCost = BusinessCost(storeId: int, category: string, amount: real, costDate: string, createdAt: string)

  /** A row of `system_costs` (keyed by `cost_type`) or `other_payments` (keyed by `payment_type`); neither has `cost_date`. */
  datatype PlainCost = PlainCost(storeId: int, kind: string, amount: real, createdAt: string)

  /** One `(key, SUM(amount))` row of a grouped query. */
  datatype Group = Group(key: string, total: real)

  datatype CostTotals = CostTotals(business: seq<Group>, system: seq<Group>, other: seq<Group>, totalAll: real)

  /** SQLite's comparison of two texts (binary collation). */
  predicate TextLe(a: string, b: string)
    decreases |a|
  {
    |a| == 0 || (|b| > 0 && (a[0] < b[0] || (a[0] == b[0] && TextLe(a[1..], b[1..]))))
  }

  /** A date bound that was given: Python treats None and "" alike. */
  predicate Given(bound: Option<string>) { bound.Some? && bound.value != "" }

  /** The date condition on one column: BETWEEN, `>=` or `<=`, whichever bounds are given. */
  predicate InWindow(x: string, start: Option<string>, end: Option<string>) {
    if Given(start) && Given(end) then TextLe(start.value, x) && TextLe(x, end.value)
    else if Given(start) then TextLe(start.value, x)
    else if Given(end) then TextLe(x, end.value)
    else true
  }

  function SumAmounts(rows: seq<(string, real)>): real {
    if |rows| == 0 then 0.0 else SumAmounts(rows[..|rows| - 1]) + rows[|rows| - 1].1
  }

  /** The amounts of the rows with one key, summed. */
  function KeyAmount(rows: seq<(string, real)>, k: string): real {
    if |rows| == 0 then 0.0
    else KeyAmount(rows[..|rows| - 1], k) + (if rows[|rows| - 1].0 == k then rows[|rows| - 1].1 else 0.0)
  }

  function SumTotals(gs: seq<Group>): real {
    if |gs| == 0 then 0.0 else gs[0].total + SumTotals(gs[1..])
  }

  /** The total a grouped result reports for a key, 0 for an absent key. */
  function KeyTotal(gs: seq<Group>, k: string): real {
    if |gs| == 0 then 0.0 else (if gs[0].key == k then gs[0].total else 0.0) + KeyTotal(gs[1..], k)
  }

  predicate DistinctKeys(gs: seq<Group>) {
    forall i, j :: 0 <= i < j < |gs| ==> gs[i].key != gs[j].key
  }

  predicate HasKey(gs: seq<Group>, k: string) {
    exists i :: 0 <= i < |gs| && gs[i].key == k
  }

  /** Some selected row carries the key. */
  predicate Keyed(rows: seq<(string, real)>, k: string) {
    exists i :: 0 <= i < |rows| && rows[i].0 == k
  }

  lemma HasKeyCons(g: Group, gs: seq<Group>, j: string)
    ensures HasKey([g] + gs, j) <==> g.key == j || HasKey(gs, j)
  {
    var r := [g] + gs;
    if HasKey(r, j) && g.key != j {
      var i :| 0 <= i < |r| && r[i].key == j;
      assert gs[i - 1].key == j;
    }
    if HasKey(gs, j) {
      var i :| 0 <= i < |gs| && gs[i].key == j;
      assert r[i + 1] == gs[i];
    }
    if g.key == j {
      assert r[0].key == j;
    }
  }

  lemma DistinctCons(g: Group, gs: seq<Group>)
    requires DistinctKeys(gs) && !HasKey(gs, g.key)
    ensures DistinctKeys([g] + gs)
  {
    var r := [g] + gs;
    forall i, j | 0 <= i < j < |r| ensures r[i].key != r[j].key {
      assert r[j] == gs[j - 1];
      if i > 0 {
        assert r[i] == gs[i - 1];
      }
    }
  }

  lemma KeyedSnoc(rows: seq<(string, real)>, k: string)
    requires |rows| > 0
    ensures Keyed(rows, k) <==> Keyed(rows[..|rows| - 1], k) || rows[|rows| - 1].0 == k
  {
    var init := rows[..|rows| - 1];
    if Keyed(init, k) {
      var i :| 0 <= i < |init| && init[i].0 == k;
      assert rows[i].0 == k;
    }
  }

  /** Adding one row's amount to the group of its key, opening it if needed. */
  function AddTo(gs: seq<Group>, k: string, amount: real): (r: seq<Group>)
    ensures SumTotals(r) == SumTotals(gs) + amount
    ensures forall j :: KeyTotal(r, j) == KeyTotal(gs, j) + (if j == k then amount else 0.0)
  {
    if |gs| == 0 then [Group(k, amount)]
    else if gs[0].key == k then
      var r := [Group(k, gs[0].total + amount)] + gs[1..];
      assert r[1..] == gs[1..];
      r
    else
      var r := [gs[0]] + AddTo(gs[1..], k, amount);
      assert r[1..] == AddTo(gs[1..], k, amount);
      r
  }

  /** Adding to a group opens at most the one new key and keeps the keys distinct. */
  lemma {:induction false} AddToKeys(gs: seq<Group>, k: string, amount: real)
    ensures forall j :: HasKey(AddTo(gs, k, amount), j) <==> HasKey(gs, j) || j == k
    ensures DistinctKeys(gs) ==> DistinctKeys(AddTo(gs, k, amount))
    decreases |gs|
  {
    var r := AddTo(gs, k, amount);
    if |gs| > 0 {
      assert gs == [gs[0]] + gs[1..];
      forall j ensures HasKey(gs, j) <==> gs[0].key == j || HasKey(gs[1..], j) {
        HasKeyCons(gs[0], gs[1..], j);
      }
      if gs[0].key == k {
        var g := Group(k, gs[0].total + amount);
        forall j ensures HasKey(r, j) <==> k == j || HasKey(gs[1..], j) {
          HasKeyCons(g, gs[1..], j);
        }
        if DistinctKeys(gs) {
          assert !HasKey(gs[1..], k);
          DistinctCons(g, gs[1..]);
        }
      } else {
        var rest := AddTo(gs[1..], k, amount);
        AddToKeys(gs[1..], k, amount);
        forall j ensures HasKey(r, j) <==> gs[0].key == j || HasKey(rest, j) {
          HasKeyCons(gs[0], rest, j);
        }
        if DistinctKeys(gs) {
          assert !HasKey(gs[1..], gs[0].key);
          DistinctCons(gs[0], rest);
        }
      }
    }
  }

  /** `SELECT key, SUM(amount) ... GROUP BY key` over the selected rows, groups in order of first appearance. */
  function GroupTotals(rows: seq<(string, real)>): (gs: seq<Group>)
    ensures DistinctKeys(gs)
    ensures forall k :: HasKey(gs, k) <==> Keyed(rows, k)
  {
    if |rows| == 0 then []
    else
      var gs := AddTo(GroupTotals(rows[..|rows| - 1]), rows[|rows| - 1].0, rows[|rows| - 1].1);
      AddToKeys(GroupTotals(rows[..|rows| - 1]), rows[|rows| - 1].0, rows[|rows| - 1].1);
      forall k ensures Keyed(rows, k) <==> Keyed(rows[..|rows| - 1], k) || rows[|rows| - 1].0 == k {
        KeyedSnoc(rows, k);
      }
      gs
  }

  /** The group totals add up to the sum of all selected amounts. */
  lemma {:induction false} GroupTotalsSum(rows: seq<(string, real)>)
    ensures SumTotals(GroupTotals(rows)) == SumAmounts(rows)
    decreases |rows|
  {
    if |rows| > 0 {
      GroupTotalsSum(rows[..|rows| - 1]);
    }
  }

  /** Each group's total is the sum of the amounts of its rows. */
  lemma {:induction false} GroupTotalsByKey(rows: seq<(string, real)>, k: string)
    ensures KeyTotal(GroupTotals(rows), k) == KeyAmount(rows, k)
    decreases |rows|
  {
    if |rows| > 0 {
      GroupTotalsByKey(rows[..|rows| - 1], k);
    }
  }

  /** The `business_costs` rows the query selects, as `(cost_category, amount)`. */
  function SelectBusiness(rows: seq<BusinessCost>, storeId: int, start: Option<string>, end: Option<string>)
    : (sel: seq<(string, real)>)
    ensures |sel| <= |rows|
  {
    if |rows| == 0 then []
    else
      var init := SelectBusiness(rows[..|rows| - 1], storeId, start, end);
      var r := rows[|rows| - 1];
      if r.storeId == storeId && (InWindow(r.costDate, start, end) || InWindow(r.createdAt, start, end))
      then init + [(r.category, r.amount)]
      else init
  }

  /** The rows of `system_costs` or `other_payments` of a store, filtered on `created_at` only. */
  function SelectPlain(rows: seq<PlainCost>, storeId: int, start: Option<string>, end: Option<string>)
    : (sel: seq<(string, real)>)
    ensures |sel| <= |rows|
  {
    if |rows| == 0 then []
    else
      var init := SelectPlain(rows[..|rows| - 1], storeId, start, end);
      var r := rows[|rows| - 1];
      if r.storeId == storeId && InWindow(r.createdAt, start, end) then init + [(r.kind, r.amount)] else init
  }

  /** The result dictionary built from the three grouped queries. */
  function Totals(b: seq<(string, real)>, s: seq<(string, real)>, o: seq<(string, real)>): (t: CostTotals)
    ensures t.totalAll == SumAmounts(b) + SumAmounts(s) + SumAmounts(o)
    ensures t.totalAll == SumTotals(t.business) + SumTotals(t.system) + SumTotals(t.other)
  {
    var bt := GroupTotals(b);
    var st := GroupTotals(s);
    var ot := GroupTotals(o);
    GroupTotalsSum(b);
    GroupTotalsSum(s);
    GroupTotalsSum(o);
    CostTotals(bt, st, ot, SumTotals(bt) + SumTotals(st) + SumTotals(ot))
  }

  /**
   * `get_total_costs` as written. The same date condition names
   * `cost_date` in all three queries, but only `business_costs` has that
   * column: with any bound given the second query raises `sqlite3.Error`,
   * which the method catches and answers with an empty dictionary (None).
   */
  function TotalCostsAsWritten(user: Option<CurrentUser>, business: seq<BusinessCost>, system: seq<PlainCost>,
                               other: seq<PlainCost>, start: Option<string>, end: Option<string>): (r: Option<CostTotals>)
    ensures r.Some? <==> CheckPermission(user) && !Given(start) && !Given(end)
  {
    if !CheckPermission(user) then None
    else if Given(start) || Given(end) then None
    else
      var id := user.value.storeId.value;
      Some(Totals(SelectBusiness(business, id, start, end), SelectPlain(system, id, start, end),
                  SelectPlain(other, id, start, end)))
  }

  /**
   * `get_total_costs` as evidently intended: the business costs filtered
   * on `cost_date` or `created_at`, the other two tables on `created_at`.
   */
  function TotalCosts(user: Option<CurrentUser>, business: seq<BusinessCost>, system: seq<PlainCost>,
                      other: seq<PlainCost>, start: Option<string>, end: Option<string>): (r: Option<CostTotals>)
    ensures r.Some? <==> CheckPermission(user)
    ensures r.Some? ==> r.value.totalAll == SumTotals(r.value.business) + SumTotals(r.value.system)
                                            + SumTotals(r.value.other)
  {
    if !CheckPermission(user) then None
    else
      var id := user.value.storeId.value;
      Some(Totals(SelectBusiness(business, id, start, end), SelectPlain(system, id, start, end),
                  SelectPlain(other, id, start, end)))
  }

  /** Without date bounds the two versions agree; with one, only the intended version answers. */
  lemma TotalCostsAgree(user: Option<CurrentUser>, business: seq<BusinessCost>, system: seq<PlainCost>,
                        other: seq<PlainCost>, start: Option<string>, end: Option<string>)
    ensures !Given(start) && !Given(end) ==>
      TotalCostsAsWritten(user, business, system, other, start, end) == TotalCosts(user, business, system, other, start, end)
    ensures CheckPermission(user) && (Given(start) || Given(end)) ==>
      TotalCostsAsWritten(user, business, system, other, start, end).None?
      && TotalCosts(user, business, system, other, start, end).Some?
  {
  }

  /** The amounts of a store's plain cost rows. */
  function StoreSum(rows: seq<PlainCost>, storeId: int): real {
    if |rows| == 0 then 0.0
    else StoreSum(rows[..|rows| - 1], storeId) + (if rows[|rows| - 1].storeId == storeId then rows[|rows| - 1].amount else 0.0)
  }

  /** The amounts of a store's business cost rows. */
  function BusinessStoreSum(rows: seq<BusinessCost>, storeId: int): real {
    if |rows| == 0 then 0.0
    else BusinessStoreSum(rows[..|rows| - 1], storeId) + (if rows[|rows| - 1].storeId == storeId then rows[|rows| - 1].amount else 0.0)
  }

  /** Without bounds every plain row of the store is selected once. */
  lemma {:induction false} StoreSumOfSelect(rows: seq<PlainCost>, storeId: int)
    ensures SumAmounts(SelectPlain(rows, storeId, None, None)) == StoreSum(rows, storeId)
    decreases |rows|
  {
    if |rows| > 0 {
      StoreSumOfSelect(rows[..|rows| - 1], storeId);
      var init := SelectPlain(rows[..|rows| - 1], storeId, None, None);
      var r := rows[|rows| - 1];
      if r.storeId == storeId {
        var sel := init + [(r.kind, r.amount)];
        assert sel[..|sel| - 1] == init;
      }
    }
  }

  /** Without bounds every business row of the store is selected once. */
  lemma {:induction false} BusinessSumOfSelect(rows: seq<BusinessCost>, storeId: int)
    ensures SumAmounts(SelectBusiness(rows, storeId, None, None)) == BusinessStoreSum(rows, storeId)
    decreases |rows|
  {
    if |rows| > 0 {
      BusinessSumOfSelect(rows[..|rows| - 1], storeId);
      var init := SelectBusiness(rows[..|rows| - 1], storeId, None, None);
      var r := rows[|rows| - 1];
      if r.storeId == storeId {
        var sel := init + [(r.category, r.amount)];
        assert sel[..|sel| - 1] == init;
      }
    }
  }

  /** With no date bounds the grand total is the sum of every cost row of the boss's store, as written and as intended. */
  lemma TotalWithoutBounds(user: Option<CurrentUser>, business: seq<BusinessCost>, system: seq<PlainCost>,
                           other: seq<PlainCost>)
    requires CheckPermission(user)
    ensures TotalCostsAsWritten(user, business, system, other, None, None).Some?
    ensures TotalCostsAsWritten(user, business, system, other, None, None).value.totalAll
      == BusinessStoreSum(business, user.value.storeId.value) + StoreSum(system, user.value.storeId.value)
         + StoreSum(other, user.value.storeId.value)
  {
    var id := user.value.storeId.value;
    BusinessSumOfSelect(business, id);
    StoreSumOfSelect(system, id);
    StoreSumOfSelect(other, id);
  }
}
