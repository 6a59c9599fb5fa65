/**
 * The input rules of `ValidationService`: the numeric prompts, which read
 * answers until one is acceptable, the unit-relation prompt, and the
 * expiry-date check. Console input is a sequence of answers; running out
 * of answers (where `input()` would raise EOFError) gives None. The
 * printed messages of the prompts are not modelled; the date check's
 * returned messages are.
 */
module ValidationService {
  import opened Wrappers
  import opened Text
  import opened Calendar
  import opened PyNumbers
  import opened ProductModels

  /** One pass through a prompt loop: the value returned, or the prompt again. */
  datatype Step<T> = Take(value: T) | Again

  // ---------------------------------------------------------------------
  // Numeric prompts
  // ---------------------------------------------------------------------

  /**
   * One answer to `validate_positive_int` or `update_with_validation_int`:
   * an empty answer keeps the current value (which is never checked
   * against the minimum); a non-number or a number below the minimum asks
   * again.
   */
  function IntStep(answer: string, current: int, minValue: int): Step<int>
  {
    var text := Strip(answer);
    if text == "" then Take(current)
    else
      match ParseInt(text)
      case None => Again
      case Some(v) => if v < minValue then Again else Take(v)
  }

  /** A value the integer prompt takes is the current one, or the typed number, at least the minimum. */
  lemma IntStepTakes(answer: string, current: int, minValue: int)
    ensures IntStep(answer, current, minValue).Take? ==>
      (var v := IntStep(answer, current, minValue).value;
       v == current || v >= minValue)
    ensures IntStep(answer, current, minValue).Take? && Strip(answer) != "" ==>
      ParseInt(Strip(answer)) == Some(IntStep(answer, current, minValue).value)
  {
  }

  /** The first taken step: its value and how many answers it consumed. */
  method FirstTake<T>(steps: seq<Step<T>>) returns (r: Option<T>, used: nat)
    ensures r.None? ==> used == |steps|
    ensures r.Some? ==> 1 <= used <= |steps| && steps[used - 1] == Take(r.value)
    ensures forall j :: 0 <= j < used - (if r.Some? then 1 else 0) ==> steps[j].Again?
  {
    var i := 0;
    while i < |steps|
      invariant 0 <= i <= |steps|
      invariant forall j :: 0 <= j < i ==> steps[j].Again?
    {
      if steps[i].Take? {
        return Some(steps[i].value), i + 1;
      }
      i := i + 1;
    }
    return None, |steps|;
  }

  function IntSteps(answers: seq<string>, current: int, minValue: int): (s: seq<Step<int>>)
    ensures |s| == |answers| && forall j :: 0 <= j < |answers| ==> s[j] == IntStep(answers[j], current, minValue)
  {
    seq(|answers|, j requires 0 <= j < |answers| => IntStep(answers[j], current, minValue))
  }

  method PromptInt(answers: seq<string>, current: int, minValue: int) returns (r: Option<int>, used: nat)
    ensures r.None? ==> used == |answers|
    ensures r.Some? ==> 1 <= used <= |answers| && IntStep(answers[used - 1], current, minValue) == Take(r.value)
    ensures forall j :: 0 <= j < used - (if r.Some? then 1 else 0) ==> IntStep(answers[j], current, minValue).Again?
    ensures r.Some? ==> r.value == current || r.value >= minValue
    ensures r.Some? && Strip(answers[used - 1]) != "" ==> ParseInt(Strip(answers[used - 1])) == Some(r.value)
  {
    var steps := IntSteps(answers, current, minValue);
    r, used := FirstTake(steps);
    if r.Some? {
      IntStepTakes(answers[used - 1], current, minValue);
    }
  }

  /** One answer to `validate_positive_float` / `update_with_validation_float`. */
  function FloatStep(answer: string, current: Float, minValue: real): Step<Float>
  {
    var text := Strip(answer);
    if text == "" then Take(current)
    else
      match ParseFloat(text)
      case None => Again
      case Some(v) => if LessThan(v, minValue) then Again else Take(v)
  }

  lemma FloatStepTakes(answer: string, current: Float, minValue: real)
    ensures FloatStep(answer, current, minValue).Take? ==>
      (var v := FloatStep(answer, current, minValue).value;
       v == current || !LessThan(v, minValue))
  {
  }

  function FloatSteps(answers: seq<string>, current: Float, minValue: real): (s: seq<Step<Float>>)
    ensures |s| == |answers| && forall j :: 0 <= j < |answers| ==> s[j] == FloatStep(answers[j], current, minValue)
  {
    seq(|answers|, j requires 0 <= j < |answers| => FloatStep(answers[j], current, minValue))
  }

  /** The prompt loop of `validate_positive_float` / `update_with_validation_float`. */
  method PromptFloat(answers: seq<string>, current: Float, minValue: real) returns (r: Option<Float>, used: nat)
    ensures r.None? ==> used == |answers|
    ensures r.Some? ==> 1 <= used <= |answers| && FloatStep(answers[used - 1], current, minValue) == Take(r.value)
    ensures forall j :: 0 <= j < used - (if r.Some? then 1 else 0) ==> FloatStep(answers[j], current, minValue).Again?
    ensures r.Some? ==> r.value == current || !LessThan(r.value, minValue)
  {
    var steps := FloatSteps(answers, current, minValue);
    r, used := FirstTake(steps);
    if r.Some? {
      FloatStepTakes(answers[used - 1], current, minValue);
    }
  }

  /** A typed number the minimum does not reject is taken. */
  lemma FloatStepParsed(answer: string, current: Float, minValue: real, v: Float)
    requires Strip(answer) != "" && ParseFloat(Strip(answer)) == Some(v) && !LessThan(v, minValue)
    ensures FloatStep(answer, current, minValue) == Take(v)
  {
  }

  /** An answer that strips to `nan` is taken as NaN whatever the minimum, since `float('nan') < min_value` is false. */
  lemma FloatPromptTakesNan(answer: string, current: Float, minValue: real)
    requires Strip(answer) == "nan"
    ensures FloatStep(answer, current, minValue) == Take(NaN)
  {
    ParseNanExample();
    FloatStepParsed(answer, current, minValue, NaN);
  }

  /** An answer `validate_relation` returns: taken by the integer prompt (minimum 1) and positive. */
  predicate RelationTakes(answer: string, current: int) {
    var s := IntStep(answer, current, 1);
    s.Take? && s.value > 0
  }

  /**
   * `validate_relation`: repeats the integer prompt with minimum 1 until
   * its value is positive. An empty answer returns the current relation,
   * which is asked again when it is not positive.
   */
  method PromptRelation(answers: seq<string>, current: int) returns (r: Option<int>)
    ensures r.Some? ==> r.value >= 1
    ensures r.Some? ==> exists k :: (0 <= k < |answers| && IntStep(answers[k], current, 1) == Take(r.value)
      && forall j :: 0 <= j < k ==> !RelationTakes(answers[j], current))
    ensures r.None? ==> forall j :: 0 <= j < |answers| ==> !RelationTakes(answers[j], current)
  {
    var offset := 0;
    while offset < |answers|
      invariant 0 <= offset <= |answers|
      invariant forall j :: 0 <= j < offset ==> !RelationTakes(answers[j], current)
      decreases |answers| - offset
    {
      var rest := answers[offset..];
      var v, used := PromptInt(rest, current, 1);
      forall j | offset <= j < offset + used - (if v.Some? then 1 else 0)
        ensures !RelationTakes(answers[j], current)
      {
        assert answers[j] == rest[j - offset];
      }
      if v.None? {
        return None;
      }
      assert answers[offset + used - 1] == rest[used - 1];
      if v.value > 0 {
        return v;
      }
      offset := offset + used;
    }
    return None;
  }

  // ---------------------------------------------------------------------
  // Confirmations
  // ---------------------------------------------------------------------

  /** A yes/no answer that reads `yes` once stripped and lowercased. */
  predicate SaidYes(answer: string) {
    Lower(Strip(answer)) == "yes"
  }

  /**
   * One pass of `validate_stock_quantity` once the integer prompt (minimum
   * 0) has taken `quantity`: a zero stock must be confirmed, otherwise the
   * prompt starts over.
   */
  function StockConfirmStep(quantity: int, confirm: string): (r: Step<int>)
    ensures r.Take? <==> quantity != 0 || SaidYes(confirm)
    ensures r.Take? ==> r.value == quantity
  {
    if quantity == 0 && !SaidYes(confirm) then Again else Take(quantity)
  }

  /**
   * One pass of `validate_low_stock_threshold` once the integer prompt
   * (minimum 1) has taken `threshold`: a threshold above the stock must be
   * confirmed (`confirmAbove`), otherwise the prompt starts over; with
   * stock on hand, half the stock (true division) is suggested and taken
   * on a yes (`useSuggested`).
   */
  function ThresholdStep(threshold: int, stock: int, confirmAbove: string, useSuggested: string): (r: Step<real>)
  {
    if threshold > stock && !SaidYes(confirmAbove) then Again
    else if stock > 0 && threshold as real != stock as real / 2.0 && SaidYes(useSuggested) then
      Take(stock as real / 2.0)
    else Take(threshold as real)
  }

  /**
   * The threshold pass starts over exactly when a threshold above the stock
   * is not confirmed; otherwise it returns the typed threshold, or half the
   * stock when stock is on hand and the suggestion is accepted.
   */
  lemma ThresholdStepRule(threshold: int, stock: int, confirmAbove: string, useSuggested: string)
    ensures var r := ThresholdStep(threshold, stock, confirmAbove, useSuggested);
      (r.Again? <==> threshold > stock && !SaidYes(confirmAbove))
      && (r.Take? && stock > 0 && SaidYes(useSuggested) ==> r.value == stock as real / 2.0)
      && (r.Take? && (stock <= 0 || !SaidYes(useSuggested)) ==> r.value == threshold as real)
  {
  }

  /** An accepted suggestion on an odd stock is not a whole number: 5 units suggest 2.5 whatever else was answered. */
  lemma OddStockSuggestsHalf(confirmAbove: string, useSuggested: string)
    requires SaidYes(useSuggested)
    ensures ThresholdStep(1, 5, confirmAbove, useSuggested) == Take(2.5)
  {
  }

  // ---------------------------------------------------------------------
  // Expiry dates
  // ---------------------------------------------------------------------

  const FormatError := "Invalid date format. Please use YYYY-MM-DD or YYYY-M-D format"
  const PastWarning := "WARNING: This expiry date is in the past!"
  const FarWarning := "WARNING: This expiry date is more than 10 years in the future!"

  function YearRangeError(minYear: nat, maxYear: nat): string {
    "Invalid year. Please enter a year between  " + NatToString(minYear) + " and " + NatToString(maxYear)
  }

  /** The ValueError `date.replace` raises, as `validate_expiry_date` reports it. */
  function ReplaceError(today: Date, year: int): string {
    var reason := if year > MaxYear then "year " + NatToString(year) + " is out of range"
      else "day is out of range for month";
    "Invalid date: " + reason + ". Please use YYYY-MM-DD or YYYY-M-D format"
  }

  /** `d.replace(year=y)`: defined unless the year is out of range or 29 February falls in a common year. */
  function ReplaceYear(d: Date, y: int): (r: Option<Date>)
    requires ValidDate(d)
    ensures r.Some? <==> MinYear <= y <= MaxYear && !(d.month == 2 && d.day == 29 && !IsLeap(y))
    ensures r.Some? ==> r.value == Date(y, d.month, d.day)
  {
    if ValidDate(Date(y, d.month, d.day)) then Some(Date(y, d.month, d.day)) else None
  }

  /**
   * `validate_expiry_date` with `today` (midnight of the current day) as a
   * parameter: empty input keeps the current expiry; the input must parse
   * as `%Y-%m-%d` with a year from this year to ten years ahead; a past
   * date or one beyond the same day ten years ahead is accepted as typed,
   * with a warning; otherwise the date is returned re-formatted.
   */
  function ValidateExpiryDate(input: string, currentExpiry: Option<string>, today: Date): (r: ValidationResult<Option<string>>)
    requires ValidDate(today)
    ensures input == "" ==> r == ValidationResult(true, currentExpiry, None)
    ensures input != "" && ParseYmd(input).None? ==> r == ValidationResult(false, None, Some(FormatError))
    ensures input != "" && r.isValid ==>
      (ParseYmd(input).Some? && today.year <= ParseYmd(input).value.year <= today.year + 10)
    ensures input != "" && r.isValid && r.message.None? ==>
      (!Before(ParseYmd(input).value, today) && r.value == Some(FormatYmd(ParseYmd(input).value)))
    ensures input != "" && r.isValid && r.message.Some? ==> r.value == Some(input)
    ensures !r.isValid ==> r.value.None?
  {
    if input == "" then ValidationResult(true, currentExpiry, None)
    else
      match ParseYmd(input)
      case None => ValidationResult(false, None, Some(FormatError))
      case Some(d) =>
        var maxYear := today.year + 10;
        if d.year < today.year || d.year > maxYear then
          ValidationResult(false, None, Some(YearRangeError(today.year, maxYear)))
        else if Before(d, today) then ValidationResult(true, Some(input), Some(PastWarning))
        else
          match ReplaceYear(today, maxYear)
          case None => ValidationResult(false, None, Some(ReplaceError(today, maxYear)))
          case Some(limit) =>
            if Before(limit, d) then ValidationResult(true, Some(input), Some(FarWarning))
            else ValidationResult(true, Some(FormatYmd(d)), None)
  }

  /** A parsed date in the year range: a past one is kept with a warning. */
  lemma PastExpiryWarns(input: string, currentExpiry: Option<string>, today: Date)
    requires ValidDate(today) && input != "" && ParseYmd(input).Some?
    requires today.year <= ParseYmd(input).value.year && Before(ParseYmd(input).value, today)
    ensures ValidateExpiryDate(input, currentExpiry, today) == ValidationResult(true, Some(input), Some(PastWarning))
  {
  }

  /**
   * On 29 February of a year ten years before a common year
   * (`today.replace(year=...)` raises), every date from today to the end
   * of the range is rejected, for example 2030-01-01 on 2028-02-29.
   */
  lemma ExpiryRejectedOnLeapDay(input: string, currentExpiry: Option<string>)
    requires input != "" && ParseYmd(input).Some?
    requires !Before(ParseYmd(input).value, Date(2028, 2, 29)) && ParseYmd(input).value.year <= 2038
    ensures !ValidateExpiryDate(input, currentExpiry, Date(2028, 2, 29)).isValid
  {
    assert !IsLeap(2038);
  }

  /** Every date from 29 February 2028 to the end of 2038, typed as `YYYY-MM-DD`, is rejected on that day. */
  lemma LeapDayRejectsTypedDates(d: Date)
    requires ValidDate(d) && !Before(d, Date(2028, 2, 29)) && d.year <= 2038
    ensures !ValidateExpiryDate(FormatYmd(d), None, Date(2028, 2, 29)).isValid
  {
    ParseFormatRoundTrip(d);
    var s := FormatYmd(d);
    assert |s| >= 8;
    ExpiryRejectedOnLeapDay(s, None);
  }

  /** The same day `years` later, the last day of February standing in for 29 February. */
  function ClampYear(d: Date, y: int): (r: Date)
    requires ValidDate(d) && MinYear <= y <= MaxYear
    ensures ValidDate(r) && r.year == y && r.month == d.month
    ensures r.day == d.day || (d.month == 2 && d.day == 29 && r.day == 28 && !IsLeap(y))
  {
    var last := DaysInMonth(y, d.month);
    Date(y, d.month, if d.day <= last then d.day else last)
  }

  /** `validate_expiry_date` with the ten-year limit clamped instead of raising. */
  function ValidateExpiryDateClamped(input: string, currentExpiry: Option<string>, today: Date): (r: ValidationResult<Option<string>>)
    requires ValidDate(today) && today.year + 10 <= MaxYear
    ensures input == "" ==> r == ValidationResult(true, currentExpiry, None)
    ensures input != "" ==> (r.isValid <==>
      (ParseYmd(input).Some? && today.year <= ParseYmd(input).value.year <= today.year + 10))
    ensures input != "" && r.isValid && r.message.None? ==>
      (!Before(ParseYmd(input).value, today) && r.value == Some(FormatYmd(ParseYmd(input).value)))
  {
    if input == "" then ValidationResult(true, currentExpiry, None)
    else
      match ParseYmd(input)
      case None => ValidationResult(false, None, Some(FormatError))
      case Some(d) =>
        var maxYear := today.year + 10;
        if d.year < today.year || d.year > maxYear then
          ValidationResult(false, None, Some(YearRangeError(today.year, maxYear)))
        else if Before(d, today) then ValidationResult(true, Some(input), Some(PastWarning))
        else if Before(ClampYear(today, maxYear), d) then ValidationResult(true, Some(input), Some(FarWarning))
        else ValidationResult(true, Some(FormatYmd(d)), None)
  }

  /** Wherever the code as written gets past the ten-year limit, the clamped check agrees with it. */
  lemma ClampedExpiryAgrees(input: string, currentExpiry: Option<string>, today: Date)
    requires ValidDate(today) && today.year + 10 <= MaxYear
    requires ReplaceYear(today, today.year + 10).Some?
    ensures ValidateExpiryDateClamped(input, currentExpiry, today) == ValidateExpiryDate(input, currentExpiry, today)
  {
  }
}
