/**
 * Proleptic Gregorian dates as Python's `datetime` module handles them:
 * leap years, month lengths, `datetime(y, m, d)` validity, day arithmetic
 * (`timedelta(days=n)`), and `strptime(s, '%Y-%m-%d')`.
 */
module Calendar {
  import opened Wrappers
  import opened Text

  const MinYear := 1
  const MaxYear := 9999

  predicate IsLeap(y: int) {
    y % 4 == 0 && (y % 100 != 0 || y % 400 == 0)
  }

  /** `calendar.monthrange(y, m)[1]`. */
  function DaysInMonth(y: int, m: int): (n: int)
    requires 1 <= m <= 12
    ensures 28 <= n <= 31
    ensures m == 2 ==> (n == 29 <==> IsLeap(y))
  {
    if m == 2 then (if IsLeap(y) then 29 else 28)
    else if m == 4 || m == 6 || m == 9 || m == 11 then 30
    else 31
  }

  datatype Date = Date(year: int, month: int, day: int)

  /** The arguments `datetime(year, month, day)` accepts without raising ValueError. */
  predicate ValidDate(d: Date) {
    MinYear <= d.year <= MaxYear && 1 <= d.month <= 12 && 1 <= d.day <= DaysInMonth(d.year, d.month)
  }

  /** Chronological order of dates. */
  predicate Before(a: Date, b: Date) {
    a.year < b.year
    || (a.year == b.year && a.month < b.month)
    || (a.year == b.year && a.month == b.month && a.day < b.day)
  }

  function DaysInYear(y: int): int {
    if IsLeap(y) then 366 else 365
  }

  /** Days in the years before `y`, counted from year 1. */
  function DaysBeforeYear(y: int): (n: nat)
    requires y >= 1
    decreases y
  {
    if y == 1 then 0 else DaysBeforeYear(y - 1) + DaysInYear(y - 1)
  }

  /** Days in the months of `y` before month `m`. */
  function DaysBeforeMonth(y: int, m: int): (n: nat)
    requires 1 <= m <= 12
    decreases m
  {
    if m == 1 then 0 else DaysBeforeMonth(y, m - 1) + DaysInMonth(y, m - 1)
  }

  /** `date.toordinal()`: 1 for 0001-01-01, one more for every following day. */
  function Ordinal(d: Date): int
    requires ValidDate(d)
  {
    DaysBeforeYear(d.year) + DaysBeforeMonth(d.year, d.month) + d.day
  }

  /** The following calendar day; None past 9999-12-31 (Python raises OverflowError). */
  function NextDay(d: Date): (r: Option<Date>)
    requires ValidDate(d)
    ensures r.Some? ==> ValidDate(r.value) && Before(d, r.value)
    ensures r.Some? ==> Ordinal(r.value) == Ordinal(d) + 1
    ensures r.None? <==> d == Date(MaxYear, 12, 31)
  {
    if d.day < DaysInMonth(d.year, d.month) then Some(Date(d.year, d.month, d.day + 1))
    else if d.month < 12 then
      FirstOfNextMonth(d);
      Some(Date(d.year, d.month + 1, 1))
    else if d.year < MaxYear then
      FirstOfNextYear(d);
      Some(Date(d.year + 1, 1, 1))
    else None
  }

  /** The first of the next month follows the last day of a month other than December. */
  lemma FirstOfNextMonth(d: Date)
    requires ValidDate(d) && d.day == DaysInMonth(d.year, d.month) && d.month < 12
    ensures Ordinal(Date(d.year, d.month + 1, 1)) == Ordinal(d) + 1
  {
  }

  /** The months before December hold all of the year but its 31 December days. */
  lemma DaysBeforeDecember(y: int)
    ensures DaysBeforeMonth(y, 12) + 31 == DaysInYear(y)
  {
    assert DaysBeforeMonth(y, 3) == 31 + DaysInMonth(y, 2);
    assert DaysBeforeMonth(y, 12) == DaysBeforeMonth(y, 3) + 275;
  }

  /** New Year's Day follows 31 December. */
  lemma FirstOfNextYear(d: Date)
    requires ValidDate(d) && d.month == 12 && d.day == 31 && d.year < MaxYear
    ensures Ordinal(Date(d.year + 1, 1, 1)) == Ordinal(d) + 1
  {
    DaysBeforeDecember(d.year);
  }

  /** The months up to and including `m` fit in the year. */
  lemma {:induction false} MonthsFitYear(y: int, m: int)
    requires 1 <= m <= 12
    ensures DaysBeforeMonth(y, m) + DaysInMonth(y, m) <= DaysInYear(y)
    decreases 12 - m
  {
    if m == 12 {
      DaysBeforeDecember(y);
    } else {
      MonthsFitYear(y, m + 1);
    }
  }

  lemma {:induction false} DaysBeforeYearGrows(a: int, b: int)
    requires 1 <= a <= b
    ensures DaysBeforeYear(a) <= DaysBeforeYear(b)
    decreases b
  {
    if a < b {
      DaysBeforeYearGrows(a, b - 1);
    }
  }

  /** No valid date of year `y` or before comes after 31 December of `y`. */
  lemma OrdinalAtMostYearEnd(d: Date, y: int)
    requires ValidDate(d) && d.year <= y <= MaxYear
    ensures ValidDate(Date(y, 12, 31)) && Ordinal(d) <= Ordinal(Date(y, 12, 31))
  {
    MonthsFitYear(d.year, d.month);
    DaysBeforeDecember(y);
    if d.year < y {
      DaysBeforeYearGrows(d.year + 1, y);
    }
  }

  /** No valid date comes after 9999-12-31. */
  lemma OrdinalAtMostMax(d: Date)
    requires ValidDate(d)
    ensures Ordinal(d) <= Ordinal(Date(MaxYear, 12, 31))
  {
    OrdinalAtMostYearEnd(d, MaxYear);
  }

  /**
   * `d + timedelta(days=n)`: the date `n` days later, which exists exactly
   * when it does not pass 9999-12-31 (None standing for OverflowError).
   */
  function AddDays(d: Date, n: nat): (r: Option<Date>)
    requires ValidDate(d)
    ensures r.Some? ==> ValidDate(r.value) && Ordinal(r.value) == Ordinal(d) + n
    ensures r.Some? && n > 0 ==> Before(d, r.value)
    ensures r.Some? <==> Ordinal(d) + n <= Ordinal(Date(MaxYear, 12, 31))
    decreases n
  {
    if n == 0 then OrdinalAtMostMax(d); Some(d)
    else
      match NextDay(d)
      case None => None
      case Some(e) => AddDays(e, n - 1)
  }

  /** `date.strftime('%Y-%m-%d')` for four-digit years. */
  function FormatYmd(d: Date): string
    requires d.year >= 0 && d.month >= 0 && d.day >= 0
  {
    ZeroPad(d.year, 4) + ("-" + (ZeroPad(d.month, 2) + ("-" + ZeroPad(d.day, 2))))
  }

  /**
   * The `%m` directive of `strptime`, the pattern `1[0-2]|0[1-9]|[1-9]`
   * with its alternatives tried in order: the month value and the number
   * of characters it takes.
   */
  function MonthToken(s: string): Option<(int, nat)>
  {
    if |s| >= 2 && s[0] == '1' && '0' <= s[1] <= '2' then Some((10 + DigitValue(s[1]), 2))
    else if |s| >= 2 && s[0] == '0' && '1' <= s[1] <= '9' then Some((DigitValue(s[1]), 2))
    else if |s| >= 1 && '1' <= s[0] <= '9' then Some((DigitValue(s[0]), 1))
    else None
  }

  /** The `%d` directive, the pattern `3[01]|[12]\d|0[1-9]|[1-9]| [1-9]` in order. */
  function DayToken(s: string): Option<(int, nat)>
  {
    if |s| >= 2 && s[0] == '3' && '0' <= s[1] <= '1' then Some((30 + DigitValue(s[1]), 2))
    else if |s| >= 2 && '1' <= s[0] <= '2' && IsDigit(s[1]) then Some((10 * DigitValue(s[0]) + DigitValue(s[1]), 2))
    else if |s| >= 2 && s[0] == '0' && '1' <= s[1] <= '9' then Some((DigitValue(s[1]), 2))
    else if |s| >= 1 && '1' <= s[0] <= '9' then Some((DigitValue(s[0]), 1))
    else if |s| >= 2 && s[0] == ' ' && '1' <= s[1] <= '9' then Some((DigitValue(s[1]), 2))
    else None
  }

  /**
   * `datetime.strptime(s, '%Y-%m-%d')`: four digits, `-`, a month token,
   * `-`, a day token, nothing left over, and a date `datetime` accepts.
   */
  function ParseYmd(s: string): (r: Option<Date>)
    ensures r.Some? ==> ValidDate(r.value)
    ensures r.Some? ==> |s| >= 8 && AllDigits(s[..4]) && r.value.year == DigitsValue(s[..4])
  {
    if |s| < 5 || !AllDigits(s[..4]) || s[4] != '-' then None
    else
      var year := DigitsValue(s[..4]);
      var rest := s[5..];
      match MonthToken(rest)
      case None => None
      case Some((month, used)) =>
        if |rest| <= used || rest[used] != '-' then None
        else
          var tail := rest[used + 1..];
          match DayToken(tail)
          case None => None
          case Some((day, dused)) =>
            if dused != |tail| then None
            else if ValidDate(Date(year, month, day)) then Some(Date(year, month, day))
            else None
  }

  lemma {:induction false} FourDigitYear(y: int)
    requires 1000 <= y <= 9999
    ensures |NatToString(y)| == 4
  {
    var a := y / 10;
    var b := a / 10;
    assert 100 <= a < 1000 && 10 <= b < 100 && 1 <= b / 10 < 10;
    OneDigitMore(y);
    OneDigitMore(a);
    OneDigitMore(b);
  }

  /** A number from 10 up has one digit more than its tenth. */
  lemma OneDigitMore(n: nat)
    requires n >= 10
    ensures |NatToString(n)| == |NatToString(n / 10)| + 1
  {
  }

  /** Two-character zero padding of a month or day number. */
  lemma TwoDigits(n: int)
    requires 1 <= n <= 31
    ensures ZeroPad(n, 2) == [DigitChar(n / 10), DigitChar(n % 10)]
  {
    if n >= 10 {
      assert NatToString(n) == NatToString(n / 10) + [DigitChar(n % 10)];
    }
  }

  lemma MonthTokenOfDigits(m: int, suffix: string)
    requires 1 <= m <= 12
    ensures MonthToken([DigitChar(m / 10), DigitChar(m % 10)] + suffix) == Some((m, 2))
  {
    var t := [DigitChar(m / 10), DigitChar(m % 10)] + suffix;
    if m >= 10 {
      assert t[0] == '1' && '0' <= t[1] <= '2' && DigitValue(t[1]) == m - 10;
    } else {
      assert t[0] == '0' && '1' <= t[1] <= '9' && DigitValue(t[1]) == m;
    }
  }

  lemma DayTokenOfDigits(n: int)
    requires 1 <= n <= 31
    ensures DayToken([DigitChar(n / 10), DigitChar(n % 10)]) == Some((n, 2))
  {
    var t := [DigitChar(n / 10), DigitChar(n % 10)];
    if n >= 30 {
      assert t[0] == '3' && '0' <= t[1] <= '1' && DigitValue(t[1]) == n - 30;
    } else if n >= 10 {
      assert '1' <= t[0] <= '2' && IsDigit(t[1]);
      assert DigitValue(t[0]) == n / 10 && DigitValue(t[1]) == n % 10;
    } else {
      assert t[0] == '0' && '1' <= t[1] <= '9' && DigitValue(t[1]) == n;
    }
  }

  /** `ParseYmd` of a string assembled from a year, a month token and a day token. */
  lemma ParseYmdOfParts(s: string, y: string, m: string, dd: string, mv: int, dv: int)
    requires s == y + ("-" + (m + ("-" + dd)))
    requires |y| == 4 && AllDigits(y) && |m| == 2
    requires MonthToken(m + ("-" + dd)) == Some((mv, 2))
    requires DayToken(dd) == Some((dv, |dd|))
    requires ValidDate(Date(DigitsValue(y), mv, dv))
    ensures ParseYmd(s) == Some(Date(DigitsValue(y), mv, dv))
  {
    var rest := m + ("-" + dd);
    var t1 := "-" + rest;
    assert s[..4] == y && s[4] == '-';
    DropPrefix(y, t1);
    DropPrefix("-", rest);
    assert s[5..] == s[4..][1..];
    assert rest[2] == '-';
    DropPrefix(m, "-" + dd);
    DropPrefix("-", dd);
    assert rest[3..] == rest[2..][1..];
  }

  /** Formatting a date and parsing it back gives the same date. */
  lemma ParseFormatRoundTrip(d: Date)
    requires ValidDate(d) && d.year >= 1000
    ensures ParseYmd(FormatYmd(d)) == Some(d)
  {
    FourDigitYear(d.year);
    DigitsValueOfNatToString(d.year);
    TwoDigits(d.month);
    TwoDigits(d.day);
    var y := NatToString(d.year);
    var m := [DigitChar(d.month / 10), DigitChar(d.month % 10)];
    var dd := [DigitChar(d.day / 10), DigitChar(d.day % 10)];
    assert ZeroPad(d.year, 4) == y;
    MonthTokenOfDigits(d.month, "-" + dd);
    DayTokenOfDigits(d.day);
    ParseYmdOfParts(FormatYmd(d), y, m, dd, d.month, d.day);
  }
}
