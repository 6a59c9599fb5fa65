/**
 * Python's `int(s)` and `float(s)` on the strings the prompts read, and the
 * IEEE special values `float` can return: `nan` and the two infinities
 * compare as IEEE arithmetic says (every comparison with NaN is false).
 * Underscores between digits and exponents are not modelled (see README).
 */
module PyNumbers {
  import opened Wrappers
  import opened Text

  /** A Python `float`: a finite number, NaN, or an infinity. */
  datatype Float = Finite(value: real) | NaN | Infinity(negative: bool)

  function Pow10(n: nat): (p: nat)
    ensures p >= 1
  {
    if n == 0 then 1 else 10 * Pow10(n - 1)
  }

  /** A sign prefix `+` or `-`: whether it is negative, and the rest. */
  function SplitSign(s: string): (r: (bool, string))
    ensures |r.1| <= |s|
  {
    if |s| > 0 && s[0] == '-' then (true, s[1..])
    else if |s| > 0 && s[0] == '+' then (false, s[1..])
    else (false, s)
  }

  /** `int(s)`: optional surrounding whitespace, an optional sign and decimal digits. */
  function ParseInt(s: string): (r: Option<int>)
    ensures IsDigitString(Strip(s)) ==> r == Some(DigitsValue(Strip(s)))
    ensures r.Some? ==> Strip(s) != ""
  {
    var (negative, digits) := SplitSign(Strip(s));
    if !IsDigitString(digits) then None
    else
      var n: int := DigitsValue(digits);
      Some(if negative then -n else n)
  }

  /** Lowercase forms `float` reads as special values. */
  predicate IsNanWord(w: string) { Lower(w) == "nan" }
  predicate IsInfWord(w: string) { Lower(w) == "inf" || Lower(w) == "infinity" }

  /**
   * A decimal without exponent: digits, optionally `.` and more digits, or
   * `.` followed by digits. Its value as an exact real.
   */
  function DecimalValue(t: string): (r: Option<real>)
    ensures r.Some? ==> r.value >= 0.0
    ensures IsDigitString(t) ==> r == Some(DigitsValue(t) as real)
  {
    var i := IndexOf(t, '.');
    var whole := t[..i];
    var frac := if i < |t| then t[i + 1..] else "";
    assert IsDigitString(t) ==> whole == t && frac == "";
    if !AllDigits(whole) || !AllDigits(frac) || (|whole| == 0 && |frac| == 0) then None
    else Some(DigitsValue(whole) as real + DigitsValue(frac) as real / Pow10(|frac|) as real)
  }

  /** `float(s)`. */
  function ParseFloat(s: string): (r: Option<Float>)
    ensures IsNanWord(Strip(s)) ==> r == Some(NaN)
    ensures r.Some? ==> Strip(s) != ""
  {
    NanWordUnsigned(Strip(s));
    var (negative, body) := SplitSign(Strip(s));
    if IsNanWord(body) then Some(NaN)
    else if IsInfWord(body) then Some(Infinity(negative))
    else
      match DecimalValue(body)
      case None => None
      case Some(x) => Some(Finite(if negative then -x else x))
  }

  /** A NaN word carries no sign. */
  lemma NanWordUnsigned(t: string)
    ensures IsNanWord(t) ==> SplitSign(t) == (false, t)
  {
    if IsNanWord(t) {
      assert LowerChar(t[0]) == "nan"[0];
    }
  }

  /** `value < bound` for a float and a finite bound. */
  predicate LessThan(f: Float, bound: real) {
    match f
    case Finite(x) => x < bound
    case NaN => false
    case Infinity(negative) => negative
  }

  /** `value <= bound` for a float and a finite bound. */
  predicate AtMost(f: Float, bound: real) {
    match f
    case Finite(x) => x <= bound
    case NaN => false
    case Infinity(negative) => negative
  }

  /** A float that passes `value >= bound` is NaN, the positive infinity or a finite value at least `bound`. */
  lemma NotLessThan(f: Float, bound: real)
    ensures !LessThan(f, bound) <==> f.NaN? || f == Infinity(false) || (f.Finite? && f.value >= bound)
  {
  }

  /** A string with no whitespace at either end is its own `strip()`. */
  lemma StripUnpadded(s: string)
    requires |s| > 0 && !IsSpace(s[0]) && !IsSpace(s[|s| - 1])
    ensures Strip(s) == s
  {
    assert TrimStart(s) == s;
    assert TrimEnd(s) == s;
  }

  /** A text of lowercase letters is its own lowercase form. */
  lemma LowerOfLowercase(w: string)
    requires forall i :: 0 <= i < |w| ==> IsLower(w[i])
    ensures Lower(w) == w
  {
  }

  /** `float("nan")` is NaN. */
  lemma ParseNanExample()
    ensures Strip("nan") == "nan" && ParseFloat("nan") == Some(NaN)
  {
    var w := "nan";
    assert w[0] == 'n' && w[1] == 'a' && w[2] == 'n';
    LowerOfLowercase(w);
    StripUnpadded(w);
  }
}
