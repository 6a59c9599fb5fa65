/**
 * The data-ingestion helpers: the quote-stripping input sanitiser and the
 * database path joins. The location of the helpers file itself
 * (`__file__`) is the parameter `moduleFile`.
 */
module Helpers {
  import opened Wrappers
  import opened Text

  /** `text.replace(c, "")` for a single character. */
  function RemoveChar(s: string, c: char): (r: string)
    ensures c !in r
    ensures |r| <= |s|
    ensures forall x :: x in r <==> x in s && x != c
  {
    if |s| == 0 then ""
    else if s[0] == c then RemoveChar(s[1..], c)
    else [s[0]] + RemoveChar(s[1..], c)
  }

  /** Removing a character the text does not contain changes nothing. */
  lemma {:induction false} RemoveAbsent(s: string, c: char)
    requires c !in s
    ensures RemoveChar(s, c) == s
    decreases |s|
  {
    if |s| > 0 {
      assert c !in s[1..] by {
        assert forall i :: 0 <= i < |s| - 1 ==> s[1..][i] == s[i + 1];
      }
      RemoveAbsent(s[1..], c);
    }
  }

  /** A character that can close a quoted SQL literal or a statement. */
  predicate Dangerous(c: char) { c == '"' || c == '\'' || c == ';' }

  /**
   * `sanitize_input`: for a non-empty text, `"`, `'` and `;` are deleted
   * and the result stripped; None and "" are returned as they are.
   */
  function SanitizeInput(text: Option<string>): (r: Option<string>)
    ensures text.None? ==> r.None?
    ensures text == Some("") ==> r == Some("")
    ensures text.Some? ==> r.Some?
  {
    match text
    case None => None
    case Some(t) =>
      if t == "" then Some(t)
      else Some(Strip(RemoveChar(RemoveChar(RemoveChar(t, '"'), '\''), ';')))
  }

  /** `str.strip()` returns a piece of its argument. */
  lemma StripPiece(s: string) returns (i: nat, j: nat)
    ensures i <= j <= |s| && Strip(s) == s[i..j]
  {
    var t := TrimStart(s);
    var r := TrimEnd(t);
    i := |s| - |t|;
    j := i + |r|;
    assert t == s[i..];
    assert r == t[..|r|] == s[i..j];
  }

  lemma StripKeeps(s: string, c: char)
    requires c in Strip(s)
    ensures c in s
  {
    var i, j := StripPiece(s);
    var k :| 0 <= k < |Strip(s)| && Strip(s)[k] == c;
    assert s[i + k] == c;
  }

  /** A text with no whitespace at either end is its own strip. */
  lemma StripStripped(s: string)
    requires |s| > 0 && !IsSpace(s[0]) && !IsSpace(s[|s| - 1])
    ensures Strip(s) == s
  {
    assert TrimStart(s) == s;
    assert TrimEnd(s) == s;
  }

  /** The sanitised text carries none of the three characters and no surrounding whitespace. */
  lemma SanitizeClean(text: string)
    requires text != ""
    ensures var r := SanitizeInput(Some(text)).value;
      (forall c :: c in r ==> !Dangerous(c) && c in text)
      && (|r| > 0 ==> !IsSpace(r[0]) && !IsSpace(r[|r| - 1]))
  {
    var s := RemoveChar(RemoveChar(RemoveChar(text, '"'), '\''), ';');
    forall c | c in Strip(s) ensures !Dangerous(c) && c in text {
      StripKeeps(s, c);
    }
  }

  /** Sanitising twice gives the same result as sanitising once. */
  lemma SanitizeIdempotent(text: Option<string>)
    ensures SanitizeInput(SanitizeInput(text)) == SanitizeInput(text)
  {
    if text.Some? && text.value != "" {
      var r := SanitizeInput(text).value;
      SanitizeClean(text.value);
      if r != "" {
        CleanIsFixed(r);
      }
    }
  }

  /** A text without the three characters and without surrounding whitespace is left as it is. */
  lemma CleanIsFixed(r: string)
    requires |r| > 0 && !IsSpace(r[0]) && !IsSpace(r[|r| - 1])
    requires forall c :: c in r ==> !Dangerous(c)
    ensures SanitizeInput(Some(r)) == Some(r)
  {
    assert '"' !in r && '\'' !in r && ';' !in r;
    RemoveAbsent(r, '"');
    RemoveAbsent(r, '\'');
    RemoveAbsent(r, ';');
    StripStripped(r);
  }

  // ---------------------------------------------------------------------
  // Paths
  // ---------------------------------------------------------------------

  /** The index of the last occurrence of `c`, or -1. */
  function LastIndex(s: string, c: char): (i: int)
    ensures -1 <= i < |s|
    ensures i >= 0 ==> s[i] == c
    ensures forall j :: i < j < |s| ==> s[j] != c
  {
    if |s| == 0 then -1
    else if s[|s| - 1] == c then |s| - 1
    else LastIndex(s[..|s| - 1], c)
  }

  /** Made of `/` only. */
  predicate AllSlashes(s: string) {
    forall i :: 0 <= i < |s| ==> s[i] == '/'
  }

  /** Drops trailing slashes. */
  function TrimSlashes(s: string): (r: string)
    ensures |r| <= |s| && r == s[..|r|]
    ensures |r| > 0 ==> r[|r| - 1] != '/'
    ensures AllSlashes(s[|r|..])
  {
    if |s| > 0 && s[|s| - 1] == '/' then TrimSlashes(s[..|s| - 1]) else s
  }

  /**
   * `posixpath.dirname`: everything up to the last `/`, trailing slashes
   * dropped unless only slashes remain. So the directory is a prefix of the
   * path; it is empty exactly when the path has no `/`; when made of slashes
   * it is the whole run before the last part; otherwise it ends just before
   * a run of slashes that is the path's last `/`s.
   */
  function Dirname(p: string): (r: string)
    ensures |r| <= |p| && r == p[..|r|]
    ensures r == "" <==> forall j :: 0 <= j < |p| ==> p[j] != '/'
    ensures r != "" && AllSlashes(r) ==> forall j :: |r| <= j < |p| ==> p[j] != '/'
    ensures !AllSlashes(r) ==>
      |r| < |p| && r[|r| - 1] != '/' && p[|r|] == '/'
      && forall j :: |r| <= j < |p| && p[j] == '/' ==> AllSlashes(p[|r|..j + 1])
  {
    var head := p[..LastIndex(p, '/') + 1];
    if head != "" && !AllSlashes(head) then TrimmedHead(p, head); TrimSlashes(head) else head
  }

  /** A head that ends in `/` and is not all slashes loses its final run of slashes, and keeps a part before it. */
  lemma TrimmedHead(p: string, head: string)
    requires |head| <= |p| && head == p[..|head|] && head != "" && head[|head| - 1] == '/' && !AllSlashes(head)
    ensures var t := TrimSlashes(head);
      t != "" && |t| < |head| && forall j :: |t| <= j < |head| ==> p[j] == '/'
  {
    var t := TrimSlashes(head);
    forall j | |t| <= j < |head| ensures p[j] == '/' {
      assert head[|t|..][j - |t|] == head[j];
    }
  }

  /** `posixpath.join(a, b)`: an absolute `b` replaces `a`; otherwise one `/` goes between them where needed. */
  function PathJoin(a: string, b: string): (r: string)
    ensures |b| > 0 && b[0] == '/' ==> r == b
    ensures !(|b| > 0 && b[0] == '/') ==> |r| >= |a| + |b|
    ensures !(|b| > 0 && b[0] == '/') ==> r[|r| - |b|..] == b && r[..|a|] == a
  {
    if |b| > 0 && b[0] == '/' then b
    else if a == "" || a[|a| - 1] == '/' then a + b
    else a + "/" + b
  }

  /** `get_database_path`: two levels up from the helpers directory, then `Databases`. */
  function DatabasePath(moduleFile: string): string {
    PathJoin(PathJoin(PathJoin(Dirname(moduleFile), ".."), ".."), "Databases")
  }

  /** `get_sales_db_path`. */
  function SalesDbPath(moduleFile: string): string {
    PathJoin(DatabasePath(moduleFile), "sales.db")
  }

  /** The database directory is the helpers directory followed by `..`, `..` and `Databases`, one `/` apart. */
  lemma DatabasePathShape(moduleFile: string)
    ensures var dir := Dirname(moduleFile);
      DatabasePath(moduleFile)
        == (if dir == "" || dir[|dir| - 1] == '/' then dir else dir + "/") + ".." + "/" + ".." + "/" + "Databases"
  {
    var dir := Dirname(moduleFile);
    var pre := if dir == "" || dir[|dir| - 1] == '/' then dir else dir + "/";
    assert PathJoin(dir, "..") == pre + "..";
    JoinRelative(pre + "..", "..");
    JoinRelative(pre + ".." + "/" + "..", "Databases");
  }

  /** Joining a relative part onto a path that does not end in `/` puts one `/` between them. */
  lemma JoinRelative(a: string, b: string)
    requires a != "" && a[|a| - 1] != '/' && b != "" && b[0] != '/'
    ensures PathJoin(a, b) == a + "/" + b
  {
  }

  /** The sales database is the file `sales.db` inside the `Databases` directory. */
  lemma SalesDbInDatabases(moduleFile: string)
    ensures SalesDbPath(moduleFile) == DatabasePath(moduleFile) + "/" + "sales.db"
    ensures var d := DatabasePath(moduleFile); |d| >= 9 && d[|d| - 9..] == "Databases"
  {
    var d := DatabasePath(moduleFile);
    assert d[|d| - 9..] == "Databases";
    JoinRelative(d, "sales.db");
  }
}
