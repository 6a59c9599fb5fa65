/**
 * Boss registration helpers: the password strength rules with the message
 * that lists every failed rule, password hashing against an abstract hash
 * function, and the global username search. The phone pattern and the
 * input sanitiser of the same file are InputRules.ValidPhone and
 * InputRules.SanitizeInput.
 */
module Registration {
  import opened Text
  import opened Usernames

  // ---------------------------------------------------------------------
  // Password strength
  // ---------------------------------------------------------------------

  /** The rules of `validate_password`, in the order their failures are reported. */
  datatype Rule = MinLength | HasUpper | HasLower | HasDigit | HasSpecial | NoSpaces | NotCommon

  /** The `[!@#$%^&*()_\-+=\[\]{}|;:,.<>?/~`]` class. */
  const SpecialChars: string := "!@#$%^&*()_-+=[]{}|;:,.<>?/~`"

  const CommonPasswords: set<string> := {
    "password", "123456", "123456789", "qwerty", "letmein",
    "admin", "111111", "12345678", "abc123", "password1"
  }

  const EmptyPassword := "Password cannot be empty"
  const StrongPassword := "Password is strong"
  const MustContain := "Password must contain: "

  function Rank(r: Rule): nat {
    match r
    case MinLength => 0
    case HasUpper => 1
    case HasLower => 2
    case HasDigit => 3
    case HasSpecial => 4
    case NoSpaces => 5
    case NotCommon => 6
  }

  /** The text appended to `errors` when the rule fails. */
  function Requirement(r: Rule): string {
    match r
    case MinLength => "at least 8 characters"
    case HasUpper => "an uppercase letter"
    case HasLower => "a lowercase letter"
    case HasDigit => "a digit"
    case HasSpecial => "a special character"
    case NoSpaces => "no spaces"
    case NotCommon => "not a common/simple password"
  }

  /** Whether the password passes one rule. */
  predicate Meets(p: string, r: Rule) {
    match r
    case MinLength => |p| >= 8
    case HasUpper => exists i :: 0 <= i < |p| && IsUpper(p[i])
    case HasLower => exists i :: 0 <= i < |p| && IsLower(p[i])
    case HasDigit => exists i :: 0 <= i < |p| && IsDigit(p[i])
    case HasSpecial => exists i :: 0 <= i < |p| && p[i] in SpecialChars
    case NoSpaces => !exists i :: 0 <= i < |p| && IsSpace(p[i])
    case NotCommon => Lower(p) !in CommonPasswords
  }

  /** The failure one rule contributes: nothing, or the rule. */
  function Check(p: string, r: Rule): seq<Rule> {
    if Meets(p, r) then [] else [r]
  }

  /** The failed rules in the order `validate_password` checks them. */
  function Failures(p: string): seq<Rule> {
    Check(p, MinLength) + Check(p, HasUpper) + Check(p, HasLower) + Check(p, HasDigit)
    + Check(p, HasSpecial) + Check(p, NoSpaces) + Check(p, NotCommon)
  }

  /** `"Password must contain: " + ", ".join(errors)`. */
  function FailureMessage(rs: seq<Rule>): string {
    MustContain + Join(Texts(rs), ", ")
  }

  function Texts(rs: seq<Rule>): seq<string>
  {
    if |rs| == 0 then [] else [Requirement(rs[0])] + Texts(rs[1..])
  }

  /**
   * The strength rules stated on their own: at least eight characters, an
   * uppercase letter, a lowercase letter, a digit and a special character,
   * no whitespace, and not one of the common passwords in any case.
   */
  predicate Strong(p: string) {
    |p| >= 8
    && (exists i :: 0 <= i < |p| && IsUpper(p[i]))
    && (exists i :: 0 <= i < |p| && IsLower(p[i]))
    && (exists i :: 0 <= i < |p| && IsDigit(p[i]))
    && (exists i :: 0 <= i < |p| && p[i] in SpecialChars)
    && (forall i :: 0 <= i < |p| ==> !IsSpace(p[i]))
    && Lower(p) !in CommonPasswords
  }

  /** Every rule is listed among the failures exactly when it fails. */
  lemma FailuresAreFailedRules(p: string, r: Rule)
    ensures r in Failures(p) <==> !Meets(p, r)
  {
    InCheck(p, r, MinLength);
    InCheck(p, r, HasUpper);
    InCheck(p, r, HasLower);
    InCheck(p, r, HasDigit);
    InCheck(p, r, HasSpecial);
    InCheck(p, r, NoSpaces);
    InCheck(p, r, NotCommon);
  }

  lemma InCheck(p: string, q: Rule, r: Rule)
    ensures q in Check(p, r) <==> q == r && !Meets(p, r)
  {
  }

  /** No failure is reported exactly when the password is strong. */
  lemma NoFailuresIffStrong(p: string)
    ensures Failures(p) == [] <==> Strong(p)
  {
  }

  /** The rules of a list in strictly increasing rank. */
  predicate Ranked(rs: seq<Rule>) {
    forall i, j :: 0 <= i < j < |rs| ==> Rank(rs[i]) < Rank(rs[j])
  }

  predicate RankedBelow(rs: seq<Rule>, bound: nat) {
    forall i :: 0 <= i < |rs| ==> Rank(rs[i]) < bound
  }

  /** Adding the failure of a later rule keeps the list ranked. */
  lemma RankedCheck(rs: seq<Rule>, p: string, r: Rule)
    requires Ranked(rs) && RankedBelow(rs, Rank(r))
    ensures Ranked(rs + Check(p, r)) && RankedBelow(rs + Check(p, r), Rank(r) + 1)
  {
    var all := rs + Check(p, r);
    forall i, j | 0 <= i < j < |all| ensures Rank(all[i]) < Rank(all[j]) {
      if j >= |rs| {
        assert all[j] == r;
        assert all[i] == rs[i];
      } else {
        assert all[i] == rs[i] && all[j] == rs[j];
      }
    }
  }

  /** The message names the failed rules in the order of the checks, each once. */
  lemma FailuresInOrder(p: string)
    ensures Ranked(Failures(p))
  {
    var f0: seq<Rule> := [];
    RankedCheck(f0, p, MinLength);
    var f1 := f0 + Check(p, MinLength);
    assert f1 == Check(p, MinLength);
    RankedCheck(f1, p, HasUpper);
    var f2 := f1 + Check(p, HasUpper);
    RankedCheck(f2, p, HasLower);
    var f3 := f2 + Check(p, HasLower);
    RankedCheck(f3, p, HasDigit);
    var f4 := f3 + Check(p, HasDigit);
    RankedCheck(f4, p, HasSpecial);
    var f5 := f4 + Check(p, HasSpecial);
    RankedCheck(f5, p, NoSpaces);
    var f6 := f5 + Check(p, NoSpaces);
    RankedCheck(f6, p, NotCommon);
  }

  /**
   * `validate_password`. The rules are checked one after the other and the
   * text of each failed rule appended to `errors`.
   */
  method ValidatePassword(password: string) returns (valid: bool, message: string)
    ensures password == "" ==> !valid && message == EmptyPassword
    ensures password != "" ==> (valid <==> Strong(password))
    ensures password != "" && valid ==> message == StrongPassword
    ensures password != "" && !valid ==>
      message == FailureMessage(Failures(password))
  {
    if password == "" {
      return false, EmptyPassword;
    }
    var errors := CollectFailures(password);
    NoFailuresIffStrong(password);
    if |errors| > 0 {
      return false, FailureMessage(errors);
    }
    return true, StrongPassword;
  }

  /** The checks of `validate_password`, each appending its text to `errors` when it fails. */
  method CollectFailures(password: string) returns (errors: seq<Rule>)
    ensures errors == Failures(password)
  {
    errors := [];
    if |password| < 8 {
      errors := errors + [MinLength];
    }
    assert errors == Check(password, MinLength);
    errors := CheckRule(errors, password, HasUpper);
    errors := CheckRule(errors, password, HasLower);
    errors := CheckRule(errors, password, HasDigit);
    errors := CheckRule(errors, password, HasSpecial);
    errors := CheckRule(errors, password, NoSpaces);
    errors := CheckRule(errors, password, NotCommon);
  }

  /** One check: the rule is appended to the errors so far when the password fails it. */
  method CheckRule(errors: seq<Rule>, password: string, r: Rule) returns (next: seq<Rule>)
    ensures next == errors + Check(password, r)
  {
    next := errors;
    if !Meets(password, r) {
      next := next + [r];
    }
  }

  // ---------------------------------------------------------------------
  // Password hashing
  // ---------------------------------------------------------------------

  /** `hash_password`: the SHA-256 hex digest, `sha256` standing for `hashlib`. */
  function HashPassword(sha256: string -> string, password: string): string {
    sha256(password)
  }

  /** `verify_password`: the hash of the password equals the stored hash. */
  predicate VerifyPassword(sha256: string -> string, password: string, hashed: string) {
    HashPassword(sha256, password) == hashed
  }

  /** A password verifies against its own hash. */
  lemma VerifyOwnHash(sha256: string -> string, password: string)
    ensures VerifyPassword(sha256, password, HashPassword(sha256, password))
  {
  }

  /** With a collision-free hash, only the hashed password verifies. */
  lemma VerifyOnlyOwnHash(sha256: string -> string, password: string, other: string)
    requires forall a, b :: sha256(a) == sha256(b) ==> a == b
    ensures VerifyPassword(sha256, other, HashPassword(sha256, password)) <==> other == password
  {
  }

  // ---------------------------------------------------------------------
  // Usernames
  // ---------------------------------------------------------------------

  /** The usernames in the `users` table, as a set. */
  function NamesOf(existing: seq<string>): (names: set<string>)
    ensures forall x :: x in names <==> x in existing
  {
    set i | 0 <= i < |existing| :: existing[i]
  }

  /**
   * `generate_username`: the base made of the names, or the base followed
   * by the smallest counter that is not yet any user's name, in any store.
   */
  method GenerateUsername(first: string, last: string, existing: seq<string>) returns (username: string)
    requires |first| > 0
    ensures username !in existing
    ensures FirstFree(BaseUsername(first, last), NamesOf(existing), username)
    ensures BaseUsername(first, last) !in existing ==> username == BaseUsername(first, last)
  {
    var base := BaseUsername(first, last);
    ghost var suffix;
    username, suffix := FindFree(base, NamesOf(existing));
  }
}
