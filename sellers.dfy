/**
 * A boss adding a seller: the per-store username search and the
 * commission expiry the frequency implies. `datetime.now()` is the
 * parameter `now`.
 */
module Sellers {
  import opened Wrappers
  import opened Text
  import opened Calendar
  import opened Usernames

  // ---------------------------------------------------------------------
  // Usernames unique within a store
  // ---------------------------------------------------------------------

  /** The usernames already used in one store, from the `(username, store_id)` rows. */
  function StoreNames(existing: seq<(string, int)>, storeId: int): (names: set<string>)
    ensures forall x :: x in names <==> exists i :: 0 <= i < |existing| && existing[i] == (x, storeId)
  {
    set i | 0 <= i < |existing| && existing[i].1 == storeId :: existing[i].0
  }

  /** A username used in another store does not block any name in this one. */
  lemma OtherStoresDoNotBlock(existing: seq<(string, int)>, storeId: int, name: string, other: int)
    requires other != storeId
    ensures StoreNames(existing + [(name, other)], storeId) == StoreNames(existing, storeId)
  {
    var more := existing + [(name, other)];
    forall x ensures x in StoreNames(more, storeId) <==> x in StoreNames(existing, storeId) {
      if x in StoreNames(more, storeId) {
        var i :| 0 <= i < |more| && more[i] == (x, storeId);
        assert i < |existing| && existing[i] == (x, storeId);
      }
      if x in StoreNames(existing, storeId) {
        var i :| 0 <= i < |existing| && existing[i] == (x, storeId);
        assert more[i] == (x, storeId);
      }
    }
  }

  /**
   * `generate_unique_username`: the base, or the base followed by the
   * smallest counter whose name no user of the same store has.
   */
  method GenerateUniqueUsername(first: string, last: string, storeId: int, existing: seq<(string, int)>)
    returns (username: string)
    requires |first| > 0
    ensures forall i :: 0 <= i < |existing| && existing[i].1 == storeId ==> existing[i].0 != username
    ensures FirstFree(BaseUsername(first, last), StoreNames(existing, storeId), username)
    ensures BaseUsername(first, last) !in StoreNames(existing, storeId) ==> username == BaseUsername(first, last)
  {
    var base := BaseUsername(first, last);
    ghost var suffix;
    username, suffix := FindFree(base, StoreNames(existing, storeId));
    forall i | 0 <= i < |existing| && existing[i].1 == storeId ensures existing[i].0 != username {
      assert existing[i] == (existing[i].0, storeId);
    }
  }

  // ---------------------------------------------------------------------
  // Commission expiry
  // ---------------------------------------------------------------------

  const MicrosPerDay: nat := 86_400_000_000

  /** A `datetime`: a date and the time of day in microseconds since midnight. */
  datatype Moment = Moment(date: Date, micros: nat)

  predicate ValidMoment(m: Moment) {
    ValidDate(m.date) && m.micros < MicrosPerDay
  }

  /** `a > b` on datetimes. */
  predicate Later(a: Moment, b: Moment) {
    Before(b.date, a.date) || (a.date == b.date && a.micros > b.micros)
  }

  /** The `commission_options` of `frequency_menu`. */
  datatype Frequency = OneTime | Daily | Weekly | Monthly | Yearly

  /** A one-time expiry typed by the boss is accepted only when it is after now. */
  predicate AcceptOneTime(expiry: Moment, now: Moment) {
    !(expiry == now || Later(now, expiry))
  }

  /** Rejecting `expiry <= now` keeps exactly the expiries strictly after now. */
  lemma AcceptOneTimeIsLater(expiry: Moment, now: Moment)
    ensures AcceptOneTime(expiry, now) <==> Later(expiry, now)
  {
  }

  /** `now + timedelta(days=n)`; None past 9999-12-31 (OverflowError). */
  function AfterDays(now: Moment, n: nat): (r: Option<Moment>)
    requires ValidMoment(now)
    ensures r.Some? ==> ValidMoment(r.value) && r.value.micros == now.micros
    ensures r.Some? ==> Ordinal(r.value.date) == Ordinal(now.date) + n
    ensures r.Some? && n > 0 ==> Later(r.value, now)
  {
    match AddDays(now.date, n)
    case None => None
    case Some(d) => Some(Moment(d, now.micros))
  }

  function Min(a: int, b: int): int { if a <= b then a else b }

  /**
   * The monthly branch: the same day of the next month, January of the
   * next year after December, the day cut to the length of that month;
   * None when that is year 10000 (ValueError).
   */
  function NextMonth(now: Moment): (r: Option<Moment>)
    requires ValidMoment(now)
    ensures r.Some? <==> now.date.month < 12 || now.date.year < MaxYear
    ensures r.Some? ==> ValidMoment(r.value) && r.value.micros == now.micros && Later(r.value, now)
    ensures r.Some? ==> r.value.date.month == now.date.month % 12 + 1
    ensures r.Some? ==> r.value.date.year == now.date.year + (if now.date.month == 12 then 1 else 0)
    ensures r.Some? ==> r.value.date.day == Min(now.date.day, DaysInMonth(r.value.date.year, r.value.date.month))
  {
    var year := now.date.year;
    var month := now.date.month + 1;
    var day := now.date.day;
    var y := if month > 12 then year + 1 else year;
    var m := if month > 12 then 1 else month;
    var last := DaysInMonth(y, m);
    var d := if day > last then last else day;
    if y > MaxYear then None else Some(Moment(Date(y, m, d), now.micros))
  }

  /**
   * The yearly branch as written: `datetime(year + 1, month, day, ...)`,
   * which raises ValueError (None here) on 29 February, since the
   * following year is never a leap year, and past year 9999.
   */
  function NextYearAsWritten(now: Moment): (r: Option<Moment>)
    requires ValidMoment(now)
  {
    var d := Date(now.date.year + 1, now.date.month, now.date.day);
    if ValidDate(d) then Some(Moment(d, now.micros)) else None
  }

  /** The yearly expiry as evidently intended: the day cut to the month's length, as the monthly branch does. */
  function NextYear(now: Moment): (r: Option<Moment>)
    requires ValidMoment(now)
    ensures r.Some? <==> now.date.year < MaxYear
    ensures r.Some? ==> ValidMoment(r.value) && r.value.micros == now.micros && Later(r.value, now)
    ensures r.Some? ==> r.value.date.year == now.date.year + 1 && r.value.date.month == now.date.month
    ensures r.Some? ==> r.value.date.day == Min(now.date.day, DaysInMonth(now.date.year + 1, now.date.month))
  {
    var y := now.date.year + 1;
    var last := DaysInMonth(y, now.date.month);
    var d := if now.date.day > last then last else now.date.day;
    if y > MaxYear then None else Some(Moment(Date(y, now.date.month, d), now.micros))
  }

  /** The year after a leap year is not one. */
  lemma LeapYearsApart(y: int)
    requires IsLeap(y)
    ensures !IsLeap(y + 1)
  {
  }

  /** Before year 9999 the yearly branch as written fails exactly on 29 February. */
  lemma NextYearAsWrittenFails(now: Moment)
    requires ValidMoment(now) && now.date.year < MaxYear
    ensures NextYearAsWritten(now).None? <==> now.date.month == 2 && now.date.day == 29
  {
    if now.date.month == 2 && now.date.day == 29 {
      LeapYearsApart(now.date.year);
    }
  }

  /** Wherever the written branch gives a date, the intended one gives the same date. */
  lemma NextYearAgrees(now: Moment)
    requires ValidMoment(now) && NextYearAsWritten(now).Some?
    ensures NextYear(now) == NextYearAsWritten(now)
  {
  }

  /** A commission set up on 29 February 2028 has no yearly expiry as written, and 28 February 2029 as intended. */
  lemma LeapDayCommission()
    ensures NextYearAsWritten(Moment(Date(2028, 2, 29), 0)).None?
    ensures NextYear(Moment(Date(2028, 2, 29), 0)) == Some(Moment(Date(2029, 2, 28), 0))
  {
  }

  /** The expiry of a non-one-time commission as the code computes it. */
  function AutoExpiryAsWritten(f: Frequency, now: Moment): (r: Option<Moment>)
    requires ValidMoment(now) && f != OneTime
  {
    match f
    case Daily => AfterDays(now, 1)
    case Weekly => AfterDays(now, 7)
    case Monthly => NextMonth(now)
    case Yearly => NextYearAsWritten(now)
  }

  /** The expiry of a non-one-time commission with the yearly branch corrected. */
  function AutoExpiry(f: Frequency, now: Moment): (r: Option<Moment>)
    requires ValidMoment(now) && f != OneTime
    ensures r.Some? ==> ValidMoment(r.value) && Later(r.value, now)
    ensures f == Daily && r.Some? ==> Ordinal(r.value.date) == Ordinal(now.date) + 1
    ensures f == Weekly && r.Some? ==> Ordinal(r.value.date) == Ordinal(now.date) + 7
    ensures (f == Monthly || f == Yearly) && now.date.year < MaxYear ==> r.Some?
  {
    match f
    case Daily => AfterDays(now, 1)
    case Weekly => AfterDays(now, 7)
    case Monthly => NextMonth(now)
    case Yearly => NextYear(now)
  }

  /** Wherever the code computes an expiry, the corrected version computes the same one. */
  lemma AutoExpiryAgrees(f: Frequency, now: Moment)
    requires ValidMoment(now) && f != OneTime && AutoExpiryAsWritten(f, now).Some?
    ensures AutoExpiry(f, now) == AutoExpiryAsWritten(f, now)
  {
    if f == Yearly {
      NextYearAgrees(now);
    }
  }

  /** Every computed expiry would also pass the rule the one-time prompt applies. */
  lemma AutoExpiryLater(f: Frequency, now: Moment)
    requires ValidMoment(now) && f != OneTime && AutoExpiry(f, now).Some?
    ensures AcceptOneTime(AutoExpiry(f, now).value, now)
  {
    var r := AutoExpiry(f, now).value;
    AcceptOneTimeIsLater(r, now);
  }
}
