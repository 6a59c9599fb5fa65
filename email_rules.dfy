/**
 * `EmailValidator.validate` and `normalize_email`: the checks a seller's
 * or boss's email passes, in the order the code makes them, and the
 * clean-up applied to what was typed. Strings are ASCII (see Text).
 */
module EmailRules {
  import opened Wrappers
  import opened Text

  // ---------------------------------------------------------------------
  // The pattern
  // ---------------------------------------------------------------------

  predicate IsAlnum(c: char) { IsLetter(c) || IsDigit(c) }

  /** The character class of the local part in `EMAIL_PATTERN`. */
  predicate LocalChar(c: char) {
    IsAlnum(c) || c in ".!#$%&'*+/=?^_`{|}~-"
  }

  predicate LabelChar(c: char) { IsAlnum(c) || c == '-' }

  /** One domain label of the pattern: `[a-zA-Z0-9](?:[a-zA-Z0-9-]{0,61}[a-zA-Z0-9])?`. */
  predicate PatternLabel(l: string) {
    1 <= |l| <= 63 && IsAlnum(l[0]) && IsAlnum(l[|l| - 1])
    && forall i :: 0 <= i < |l| ==> LabelChar(l[i])
  }

  /** The part before the first `@` (all of `e` when there is none). */
  function LocalPart(e: string): string {
    e[..IndexOf(e, '@')]
  }

  /** The part after the first `@`. */
  function DomainPart(e: string): string {
    var at := IndexOf(e, '@');
    if at < |e| then e[at + 1..] else ""
  }

  /**
   * `re.match(EMAIL_PATTERN, e)` on a stripped string holding one `@`: a
   * non-empty run of local characters, the `@`, then labels joined by `.`.
   */
  predicate MatchesPattern(e: string) {
    var local := LocalPart(e);
    |local| > 0 && IndexOf(e, '@') < |e|
    && (forall i :: 0 <= i < |local| ==> LocalChar(local[i]))
    && AllLabels(Split(DomainPart(e), '.'))
  }

  predicate AllLabels(parts: seq<string>) {
    forall k :: 0 <= k < |parts| ==> PatternLabel(parts[k])
  }

  // ---------------------------------------------------------------------
  // The validator
  // ---------------------------------------------------------------------

  const AtCount := "Email must contain exactly one @ symbol"
  const BadFormat := "Email format is invalid"
  const DoubleDot := "Email cannot have two consecutive dots"
  const EmptyLocal := "Email username cannot be empty"
  const LocalDot := "Email username cannot start or end with a dot"
  const EmptyDomain := "Email domain cannot be empty"
  const NoDot := "Email domain must contain a dot (e.g., example.com)"
  const ShortTld := "Domain extension must have 2 or more characters"
  const TooLong := "Email is too long (max 254 characters)"
  const LocalTooLong := "Email username is too long (max 64 characters)"
  const EmptyLabel := "Domain part cannot be empty"
  const HyphenLabel := "Domain part cannot start or end with hyphen"

  /** The `for part in domain_parts` checks: the message of the first bad label. */
  function FirstBadLabel(parts: seq<string>): (m: Option<string>)
    ensures AllLabels(parts) ==> m.None?
  {
    if |parts| == 0 then None
    else
      var p := parts[0];
      if p == "" then Some(EmptyLabel)
      else if |p| > 63 then Some("Domain part '" + p + "' is too long")
      else if p[0] == '-' || p[|p| - 1] == '-' then Some(HyphenLabel)
      else FirstBadLabel(parts[1..])
  }

  /** `validate`: None when the email is accepted, otherwise the message of the first failed check. */
  function Validate(email: string): (error: Option<string>)
  {
    if Strip(email) == "" then None else CheckAddress(Lower(Strip(email)))
  }

  /** The checks `validate` makes on the stripped, lowercased email, in order. */
  function CheckAddress(e: string): (error: Option<string>)
  {
    if Count(e, '@') != 1 then Some(AtCount)
    else if !MatchesPattern(e) then Some(BadFormat)
    else if HasPair(e, '.', '.') then Some(DoubleDot)
    else
      var local := LocalPart(e);
      var domain := DomainPart(e);
      if local == "" then Some(EmptyLocal)
      else if local[0] == '.' || local[|local| - 1] == '.' then Some(LocalDot)
      else if domain == "" then Some(EmptyDomain)
      else if '.' !in domain then Some(NoDot)
      else
        var parts := Split(domain, '.');
        if |parts[|parts| - 1]| < 2 then Some(ShortTld)
        else if |e| > 254 then Some(TooLong)
        else if |local| > 64 then Some(LocalTooLong)
        else FirstBadLabel(parts)
  }

  /**
   * The address rules stated independently of the order of the checks:
   * one `@`; a local part of 1 to 64 allowed characters not starting or
   * ending with `.`; no `..`; a domain of at least two labels each of 1 to
   * 63 letters, digits and hyphens, neither starting nor ending with a
   * hyphen, the last at least two long; at most 254 characters in all.
   */
  predicate WellFormedAddress(e: string) {
    var local := LocalPart(e);
    var labels := Split(DomainPart(e), '.');
    Count(e, '@') == 1
    && 1 <= |local| <= 64 && local[0] != '.' && local[|local| - 1] != '.'
    && (forall i :: 0 <= i < |local| ==> LocalChar(local[i]))
    && !HasPair(e, '.', '.')
    && |labels| >= 2 && |labels[|labels| - 1]| >= 2
    && AllLabels(labels)
    && |e| <= 254
  }

  /** A split with more than one part has a separator in the string. */
  lemma SplitSeveral(s: string, sep: char)
    ensures |Split(s, sep)| >= 2 <==> sep in s
  {
    var i := IndexOf(s, sep);
    if i < |s| {
      assert s[i] == sep;
    } else {
      assert sep !in s;
    }
  }

  /** A string holding an `@` has its first `@` inside it. */
  lemma AtInside(e: string)
    requires Count(e, '@') == 1
    ensures IndexOf(e, '@') < |e|
  {
  }

  /** The checks pass exactly on well-formed addresses. */
  lemma CheckAddressAccepts(e: string)
    ensures CheckAddress(e).None? <==> WellFormedAddress(e)
  {
    var domain := DomainPart(e);
    SplitSeveral(domain, '.');
    if WellFormedAddress(e) {
      AtInside(e);
      assert MatchesPattern(e);
      assert domain != "" by {
        assert '.' in domain;
      }
    }
  }

  /** `validate` accepts exactly the blank input and the well-formed addresses. */
  lemma ValidateAccepts(email: string)
    ensures Validate(email).None? <==> Strip(email) == "" || WellFormedAddress(Lower(Strip(email)))
  {
    if Strip(email) != "" {
      CheckAddressAccepts(Lower(Strip(email)));
    }
  }

  /**
   * Four of the checks can never fail once the pattern has matched: the
   * empty local part, the empty domain, the empty label and the hyphen
   * rule, so `validate` only ever reports the other messages.
   */
  lemma ValidateMessages(email: string)
    ensures Validate(email).Some? ==> (Validate(email).value in
      {AtCount, BadFormat, DoubleDot, LocalDot, NoDot, ShortTld, TooLong, LocalTooLong})
  {
    if Strip(email) != "" {
      CheckAddressMessages(Lower(Strip(email)));
    }
  }

  lemma CheckAddressMessages(e: string)
    ensures CheckAddress(e).Some? ==> (CheckAddress(e).value in
      {AtCount, BadFormat, DoubleDot, LocalDot, NoDot, ShortTld, TooLong, LocalTooLong})
  {
    if Count(e, '@') == 1 && MatchesPattern(e) {
      var parts := Split(DomainPart(e), '.');
      assert PatternLabel(parts[0]);
      SplitEmpty('.');
    }
  }

  lemma SplitEmpty(sep: char)
    ensures Split("", sep) == [""]
  {
  }

  // ---------------------------------------------------------------------
  // Normalisation
  // ---------------------------------------------------------------------

  /** The characters of `s` that are not whitespace, in order. */
  function Squeeze(s: string): string
    decreases |s|
  {
    if |s| == 0 then "" else (if IsSpace(s[0]) then "" else [s[0]]) + Squeeze(s[1..])
  }

  /** The leading run of non-whitespace characters. */
  function LeadingWord(s: string): (w: string)
    ensures |w| <= |s| && w == s[..|w|]
    ensures Solid(w)
    ensures |w| < |s| ==> IsSpace(s[|w|])
  {
    if |s| == 0 || IsSpace(s[0]) then "" else [s[0]] + LeadingWord(s[1..])
  }

  /** No whitespace at all. */
  predicate Solid(w: string) {
    forall i :: 0 <= i < |w| ==> !IsSpace(w[i])
  }

  /** Every whitespace character is a plain space. */
  predicate SpacesOnly(s: string) {
    forall i :: 0 <= i < |s| ==> IsSpace(s[i]) ==> s[i] == ' '
  }

  /** `s.split()`: the maximal runs of non-whitespace characters. */
  function Words(s: string): (ws: seq<string>)
    ensures AllSolid(ws)
    decreases |s|
  {
    var t := TrimStart(s);
    if t == "" then []
    else
      var w := LeadingWord(t);
      LeadingWordNonEmpty(t);
      var rest := Words(t[|w|..]);
      AllSolidCons(w, rest);
      [w] + rest
  }

  /** Non-empty words without whitespace. */
  predicate AllSolid(ws: seq<string>) {
    forall k :: 0 <= k < |ws| ==> |ws[k]| > 0 && Solid(ws[k])
  }

  lemma AllSolidCons(w: string, rest: seq<string>)
    requires |w| > 0 && Solid(w) && AllSolid(rest)
    ensures AllSolid([w] + rest)
  {
    var ws := [w] + rest;
    forall k | 0 <= k < |ws| ensures |ws[k]| > 0 && Solid(ws[k]) {
      if k > 0 {
        assert ws[k] == rest[k - 1];
      }
    }
  }

  lemma SplitAt(t: string, n: nat)
    requires n <= |t|
    ensures t == t[..n] + t[n..]
  {
  }

  /** A text starting with a non-space character has a non-empty leading word. */
  lemma LeadingWordNonEmpty(t: string)
    requires t != "" && !IsSpace(t[0])
    ensures 0 < |LeadingWord(t)| && t == LeadingWord(t) + t[|LeadingWord(t)|..]
  {
    var w := LeadingWord(t);
    assert w == [t[0]] + LeadingWord(t[1..]);
    SplitAt(t, |w|);
  }

  /** `normalize_email`. */
  function NormalizeEmail(email: string): string {
    if email == "" then ""
    else
      var collapsed := Join(Words(Lower(Strip(email))), " ");
      ReplaceAll(ReplaceAll(collapsed, " @", "@"), "@ ", "@")
  }

  /** No whitespace except single spaces between other characters. */
  predicate Tight(s: string) {
    SpacesOnly(s)
    && !HasPair(s, ' ', ' ')
    && (|s| > 0 ==> s[0] != ' ' && s[|s| - 1] != ' ')
  }

  lemma {:induction false} SqueezeConcat(a: string, b: string)
    ensures Squeeze(a + b) == Squeeze(a) + Squeeze(b)
    decreases |a|
  {
    if |a| > 0 {
      var head := if IsSpace(a[0]) then "" else [a[0]];
      assert (a + b)[0] == a[0];
      assert (a + b)[1..] == a[1..] + b;
      SqueezeConcat(a[1..], b);
      assert Squeeze(a + b) == head + Squeeze(a[1..] + b);
      assert Squeeze(a) == head + Squeeze(a[1..]);
    } else {
      assert a + b == b;
    }
  }

  lemma {:induction false} SqueezeSolid(a: string)
    requires Solid(a)
    ensures Squeeze(a) == a
    decreases |a|
  {
    if |a| > 0 {
      SqueezeSolid(a[1..]);
      assert a == [a[0]] + a[1..];
    }
  }

  lemma {:induction false} SqueezeTrimStart(s: string)
    ensures Squeeze(TrimStart(s)) == Squeeze(s)
    decreases |s|
  {
    if |s| > 0 && IsSpace(s[0]) {
      SqueezeTrimStart(s[1..]);
    }
  }

  lemma {:induction false} SqueezeTrimEnd(s: string)
    ensures Squeeze(TrimEnd(s)) == Squeeze(s)
    decreases |s|
  {
    if |s| > 0 && IsSpace(s[|s| - 1]) {
      var init := s[..|s| - 1];
      SqueezeTrimEnd(init);
      assert s == init + [s[|s| - 1]];
      SqueezeConcat(init, [s[|s| - 1]]);
    }
  }

  /** The non-space characters of a stripped string are those of the string. */
  lemma StripContent(s: string)
    ensures Squeeze(Strip(s)) == Squeeze(s)
  {
    SqueezeTrimStart(s);
    SqueezeTrimEnd(TrimStart(s));
  }

  /** Lowercasing commutes with dropping whitespace. */
  lemma {:induction false} LowerContent(s: string)
    ensures Squeeze(Lower(s)) == Lower(Squeeze(s))
    decreases |s|
  {
    if |s| > 0 {
      var head, rest := [s[0]], s[1..];
      LowerContent(rest);
      assert s == head + rest;
      LowerConcat(head, rest);
      SqueezeConcat(Lower(head), Lower(rest));
      SqueezeConcat(head, rest);
      LowerConcat(Squeeze(head), Squeeze(rest));
      LowerContentChar(s[0]);
    }
  }

  /** Lowercasing a concatenation lowercases each part. */
  lemma LowerConcat(a: string, b: string)
    ensures Lower(a + b) == Lower(a) + Lower(b)
  {
    assert forall i :: 0 <= i < |a + b| ==> Lower(a + b)[i] == (Lower(a) + Lower(b))[i];
  }

  /** Lowercasing commutes with dropping whitespace, for one character. */
  lemma LowerContentChar(x: char)
    ensures Squeeze(Lower([x])) == Lower(Squeeze([x]))
  {
    var l := Lower([x]);
    assert l == [LowerChar(x)];
    assert IsSpace(LowerChar(x)) <==> IsSpace(x);
    assert Squeeze(l) == (if IsSpace(x) then "" else l) + Squeeze(l[1..]);
    assert Squeeze([x]) == (if IsSpace(x) then "" else [x]) + Squeeze([x][1..]);
    assert l[1..] == [] && [x][1..] == [];
  }

  /** A pair occurs in a concatenation in one of the parts or across the seam. */
  lemma HasPairConcat(a: string, b: string, x: char, y: char)
    ensures HasPair(a + b, x, y) <==>
      (HasPair(a, x, y) || HasPair(b, x, y) || (|a| > 0 && |b| > 0 && a[|a| - 1] == x && b[0] == y))
  {
    var s := a + b;
    if HasPair(s, x, y) {
      var i :| 0 <= i < |s| - 1 && s[i] == x && s[i + 1] == y;
      if i + 1 < |a| {
        assert a[i] == x && a[i + 1] == y;
      } else if i >= |a| {
        assert b[i - |a|] == x && b[i - |a| + 1] == y;
      }
    }
    if HasPair(a, x, y) {
      var i :| 0 <= i < |a| - 1 && a[i] == x && a[i + 1] == y;
      assert s[i] == x && s[i + 1] == y;
    }
    if HasPair(b, x, y) {
      var i :| 0 <= i < |b| - 1 && b[i] == x && b[i + 1] == y;
      assert s[|a| + i] == x && s[|a| + i + 1] == y;
    }
    if |a| > 0 && |b| > 0 && a[|a| - 1] == x && b[0] == y {
      assert s[|a| - 1] == x && s[|a|] == y;
    }
  }

  /** A word without whitespace has no double space. */
  lemma SolidNoPair(w: string)
    requires Solid(w)
    ensures !HasPair(w, ' ', ' ')
  {
  }

  /** Joining non-empty words without whitespace by single spaces gives a tight string. */
  lemma {:induction false} JoinTight(ws: seq<string>)
    requires forall k :: 0 <= k < |ws| ==> |ws[k]| > 0 && Solid(ws[k])
    ensures Tight(Join(ws, " "))
    ensures |ws| > 0 ==> Join(ws, " ")[0] == ws[0][0]
    decreases |ws|
  {
    if |ws| == 1 {
      SolidNoPair(ws[0]);
    } else if |ws| > 1 {
      var w := ws[0];
      var rest := Join(ws[1..], " ");
      JoinTight(ws[1..]);
      SolidNoPair(w);
      var s := w + (" " + rest);
      assert Join(ws, " ") == s;
      HasPairConcat(" ", rest, ' ', ' ');
      HasPairConcat(w, " " + rest, ' ', ' ');
      forall i | 0 <= i < |s| ensures IsSpace(s[i]) ==> s[i] == ' ' {
        if i < |w| {
          assert s[i] == w[i];
        } else if i > |w| {
          assert s[i] == rest[i - |w| - 1];
        }
      }
    }
  }

  /** Joining one more word in front adds its non-space characters in front. */
  lemma JoinConsContent(w: string, more: seq<string>)
    ensures Squeeze(Join([w] + more, " ")) == Squeeze(w) + Squeeze(Join(more, " "))
  {
    var ws := [w] + more;
    assert ws[0] == w && ws[1..] == more;
    if |more| == 0 {
      assert Join(ws, " ") == w;
      assert Squeeze(Join(more, " ")) == "";
    } else {
      var j := Join(more, " ");
      assert Join(ws, " ") == w + " " + j;
      SqueezeConcat(w + " ", j);
      SqueezeConcat(w, " ");
      assert Squeeze(" ") == "";
    }
  }

  /** The non-space characters of the joined words are those of the string. */
  lemma {:induction false} JoinWordsContent(s: string)
    ensures Squeeze(Join(Words(s), " ")) == Squeeze(s)
    decreases |s|
  {
    var t := TrimStart(s);
    SqueezeTrimStart(s);
    if t != "" {
      WordsStep(s);
      var w := LeadingWord(t);
      var tail := t[|w|..];
      JoinWordsContent(tail);
      JoinConsContent(w, Words(tail));
      SqueezeConcat(w, tail);
    }
  }

  /** A text with a word in it splits into its first word and the words of the rest. */
  lemma WordsStep(s: string)
    requires TrimStart(s) != ""
    ensures var t := TrimStart(s); var w := LeadingWord(t);
      0 < |w| && t == w + t[|w|..] && |t[|w|..]| < |s| && Words(s) == [w] + Words(t[|w|..])
  {
    LeadingWordNonEmpty(TrimStart(s));
  }

  /** Replacing a pattern by a text with the same non-space characters keeps the non-space characters. */
  lemma {:induction false} ReplaceContent(s: string, pat: string, rep: string)
    requires |pat| > 0 && Squeeze(pat) == Squeeze(rep)
    ensures Squeeze(ReplaceAll(s, pat, rep)) == Squeeze(s)
    decreases |s|
  {
    if |s| >= |pat| {
      if s[..|pat|] == pat {
        ReplaceContent(s[|pat|..], pat, rep);
        assert s == pat + s[|pat|..];
        SqueezeConcat(pat, s[|pat|..]);
        SqueezeConcat(rep, ReplaceAll(s[|pat|..], pat, rep));
      } else {
        ReplaceContent(s[1..], pat, rep);
        assert s == [s[0]] + s[1..];
        SqueezeConcat([s[0]], s[1..]);
        SqueezeConcat([s[0]], ReplaceAll(s[1..], pat, rep));
      }
    }
  }

  /** Every whitespace character left by a replacement with `@` is a space, if it was so before. */
  lemma {:induction false} ReplaceSpaces(s: string, pat: string)
    requires |pat| > 0
    requires SpacesOnly(s)
    ensures SpacesOnly(ReplaceAll(s, pat, "@"))
    decreases |s|
  {
    if |s| >= |pat| {
      var r := ReplaceAll(s, pat, "@");
      if s[..|pat|] == pat {
        var tail := s[|pat|..];
        ReplaceSpaces(tail, pat);
        var rt := ReplaceAll(tail, pat, "@");
        assert r == "@" + rt;
        forall i | 0 <= i < |r| ensures IsSpace(r[i]) ==> r[i] == ' ' {
          if i > 0 {
            assert r[i] == rt[i - 1];
          }
        }
      } else {
        var tail := s[1..];
        ReplaceSpaces(tail, pat);
        var rt := ReplaceAll(tail, pat, "@");
        assert r == [s[0]] + rt;
        forall i | 0 <= i < |r| ensures IsSpace(r[i]) ==> r[i] == ' ' {
          if i > 0 {
            assert r[i] == rt[i - 1];
          }
        }
      }
    }
  }

  /** Removing the space of ` @`: the first character is kept unless it is that space, the last is kept. */
  lemma {:induction false} DropBeforeAtEnds(s: string)
    ensures var r := ReplaceAll(s, " @", "@");
      (|r| == 0 <==> |s| == 0)
      && (|s| > 0 && s[0] != ' ' ==> r[0] == s[0])
      && (|s| > 0 ==> r[|r| - 1] == s[|s| - 1])
    decreases |s|
  {
    if |s| >= 2 {
      if s[..2] == " @" {
        DropBeforeAtEnds(s[2..]);
      } else {
        DropBeforeAtEnds(s[1..]);
      }
    }
  }

  /** On a string without double spaces, `replace(' @', '@')` leaves no ` @` and no double space. */
  lemma {:induction false} DropBeforeAt(s: string)
    requires !HasPair(s, ' ', ' ')
    ensures var r := ReplaceAll(s, " @", "@");
      !HasPair(r, ' ', '@') && !HasPair(r, ' ', ' ')
    decreases |s|
  {
    if |s| >= 2 {
      var r := ReplaceAll(s, " @", "@");
      if s[..2] == " @" {
        var tail := s[2..];
        assert s == s[..2] + tail;
        HasPairConcat(s[..2], tail, ' ', ' ');
        DropBeforeAt(tail);
        var rt := ReplaceAll(tail, " @", "@");
        assert r == "@" + rt;
        HasPairConcat("@", rt, ' ', '@');
        HasPairConcat("@", rt, ' ', ' ');
      } else {
        var tail := s[1..];
        assert s == [s[0]] + tail;
        HasPairConcat([s[0]], tail, ' ', ' ');
        DropBeforeAt(tail);
        DropBeforeAtEnds(tail);
        var rt := ReplaceAll(tail, " @", "@");
        assert r == [s[0]] + rt;
        HasPairConcat([s[0]], rt, ' ', '@');
        HasPairConcat([s[0]], rt, ' ', ' ');
      }
    }
  }

  /** `replace('@ ', '@')` keeps the first character, and the last unless it is a space. */
  lemma {:induction false} DropAfterAtEnds(s: string)
    ensures var r := ReplaceAll(s, "@ ", "@");
      (|r| == 0 <==> |s| == 0)
      && (|s| > 0 ==> r[0] == s[0])
      && (|s| > 0 && s[|s| - 1] != ' ' ==> r[|r| - 1] == s[|s| - 1])
    decreases |s|
  {
    if |s| >= 2 {
      if s[..2] == "@ " {
        DropAfterAtEnds(s[2..]);
      } else {
        DropAfterAtEnds(s[1..]);
      }
    }
  }

  /** On a string with no double space and no ` @`, `replace('@ ', '@')` leaves no space next to `@`. */
  lemma {:induction false} DropAfterAt(s: string)
    requires !HasPair(s, ' ', ' ') && !HasPair(s, ' ', '@')
    ensures var r := ReplaceAll(s, "@ ", "@");
      !HasPair(r, '@', ' ') && !HasPair(r, ' ', '@') && !HasPair(r, ' ', ' ')
    decreases |s|
  {
    if |s| >= 2 {
      var r := ReplaceAll(s, "@ ", "@");
      if s[..2] == "@ " {
        var tail := s[2..];
        assert s == s[..2] + tail;
        HasPairConcat(s[..2], tail, ' ', ' ');
        HasPairConcat(s[..2], tail, ' ', '@');
        DropAfterAt(tail);
        DropAfterAtEnds(tail);
        var rt := ReplaceAll(tail, "@ ", "@");
        assert r == "@" + rt;
        HasPairConcat("@", rt, '@', ' ');
        HasPairConcat("@", rt, ' ', '@');
        HasPairConcat("@", rt, ' ', ' ');
      } else {
        var tail := s[1..];
        assert s == [s[0]] + tail;
        HasPairConcat([s[0]], tail, ' ', ' ');
        HasPairConcat([s[0]], tail, ' ', '@');
        DropAfterAt(tail);
        DropAfterAtEnds(tail);
        var rt := ReplaceAll(tail, "@ ", "@");
        assert r == [s[0]] + rt;
        HasPairConcat([s[0]], rt, '@', ' ');
        HasPairConcat([s[0]], rt, ' ', '@');
        HasPairConcat([s[0]], rt, ' ', ' ');
      }
    }
  }

  /** The non-space characters of the two replacement patterns. */
  lemma AtPatterns()
    ensures Squeeze(" @") == "@" && Squeeze("@ ") == "@" && Squeeze("@") == "@"
  {
    assert " @"[1..] == "@";
    assert "@ "[1..] == " ";
    assert " "[1..] == "";
    assert "@"[1..] == "";
  }

  /**
   * `normalize_email` only removes whitespace and lowercases the rest;
   * what remains is tight (single spaces, none at either end) and has no
   * space on either side of an `@`.
   */
  lemma NormalizeEmailRule(email: string)
    ensures email == "" ==> NormalizeEmail(email) == ""
    ensures var r := NormalizeEmail(email);
      Squeeze(r) == Lower(Squeeze(email))
      && Tight(r) && !HasPair(r, ' ', '@') && !HasPair(r, '@', ' ')
  {
    if email != "" {
      var low := Lower(Strip(email));
      var ws := Words(low);
      var c := Join(ws, " ");
      var r1 := ReplaceAll(c, " @", "@");
      var r := ReplaceAll(r1, "@ ", "@");
      assert r == NormalizeEmail(email);
      StripContent(email);
      LowerContent(Strip(email));
      JoinWordsContent(low);
      AtPatterns();
      ReplaceContent(c, " @", "@");
      ReplaceContent(r1, "@ ", "@");
      JoinTight(ws);
      DropBeforeAt(c);
      DropBeforeAtEnds(c);
      DropAfterAt(r1);
      DropAfterAtEnds(r1);
      ReplaceSpaces(c, " @");
      ReplaceSpaces(r1, "@ ");
    }
  }
}
