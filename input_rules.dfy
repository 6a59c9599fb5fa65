/**
 * The two input rules the sale and registration code share: the sanitiser
 * `re.sub(r'[^\w\s\-\.@]', '', text)` and the Tanzanian phone pattern
 * `^\+?255\d{9}$|^0\d{9}$` (both over ASCII, see Text).
 */
module InputRules {
  import opened Text

  /** The characters the sanitiser keeps: word characters, whitespace, `-`, `.` and `@`. */
  predicate Allowed(c: char) {
    IsWordChar(c) || IsSpace(c) || c == '-' || c == '.' || c == '@'
  }

  /** `sanitize_input`: deletes every character that is not allowed. */
  function SanitizeInput(text: string): (r: string)
    ensures |r| <= |text|
    ensures forall i :: 0 <= i < |r| ==> Allowed(r[i])
    ensures forall i :: 0 <= i < |text| && Allowed(text[i]) ==> text[i] in r
  {
    Filter(text, Allowed)
  }

  /** Sanitising an already sanitised string changes nothing. */
  lemma SanitizeIdempotent(text: string)
    ensures SanitizeInput(SanitizeInput(text)) == SanitizeInput(text)
  {
    FilterIdempotent(text, Allowed);
  }

  /** A string of allowed characters only is left as it is. */
  lemma {:induction false} SanitizeKeepsClean(text: string)
    requires forall i :: 0 <= i < |text| ==> Allowed(text[i])
    ensures SanitizeInput(text) == text
  {
    if |text| > 0 {
      SanitizeKeepsClean(text[1..]);
      assert text == [text[0]] + text[1..];
    }
  }

  /** One alternative of the pattern, with `$` at the very end. */
  predicate PhoneBody(p: string) {
    (|p| == 13 && p[0] == '+' && p[1..4] == "255" && AllDigits(p[4..]))
    || (|p| == 12 && p[..3] == "255" && AllDigits(p[3..]))
    || (|p| == 10 && p[0] == '0' && AllDigits(p[1..]))
  }

  /**
   * `validate_phone`: `re.match` of the pattern. Python's `$` also matches
   * just before a final newline, so one trailing `\n` is accepted.
   */
  predicate ValidPhone(p: string) {
    PhoneBody(p) || (|p| > 0 && p[|p| - 1] == '\n' && PhoneBody(p[..|p| - 1]))
  }

  /** The three accepted shapes: `+255`, `255` or `0` followed by nine digits. */
  lemma PhoneForms(d: string)
    requires |d| == 9 && AllDigits(d)
    ensures ValidPhone("+255" + d) && ValidPhone("255" + d) && ValidPhone("0" + d)
  {
    assert ("+255" + d)[1..4] == "255" && ("+255" + d)[4..] == d;
    assert ("255" + d)[..3] == "255" && ("255" + d)[3..] == d;
    assert ("0" + d)[1..] == d;
  }

  /** An accepted number is a run of digits, possibly after one `+`, of 10, 12 or 13 characters. */
  lemma PhoneShape(p: string)
    requires PhoneBody(p)
    ensures |p| == 10 || |p| == 12 || |p| == 13
    ensures p[0] == '+' || IsDigit(p[0])
    ensures forall i :: 1 <= i < |p| ==> IsDigit(p[i])
  {
    if |p| == 13 {
      forall i | 1 <= i < |p| ensures IsDigit(p[i]) {
        if i < 4 { assert p[i] == p[1..4][i - 1]; } else { assert p[i] == p[4..][i - 4]; }
      }
    } else if |p| == 12 {
      assert p[0] == p[..3][0];
      forall i | 1 <= i < |p| ensures IsDigit(p[i]) {
        if i < 3 { assert p[i] == p[..3][i]; } else { assert p[i] == p[3..][i - 3]; }
      }
    } else {
      forall i | 1 <= i < |p| ensures IsDigit(p[i]) {
        assert p[i] == p[1..][i - 1];
      }
    }
  }

  /** On stripped input (as every caller passes) the trailing-newline case cannot arise. */
  lemma StrippedPhone(raw: string)
    ensures ValidPhone(Strip(raw)) <==> PhoneBody(Strip(raw))
  {
    var p := Strip(raw);
    if |p| > 0 {
      assert !IsSpace(p[|p| - 1]);
    }
  }
}
