/**
 * Naming the copy of a product image: the safe base name made of the
 * IMAGE column, the extension choice, and the counter suffixes that avoid
 * overwriting a file already in the images directory. Paths are POSIX
 * paths; the dialog's answer and the directory listing are parameters.
 */
module ImageNames {
  import opened Wrappers
  import opened Text
  import opened Helpers

  // ---------------------------------------------------------------------
  // os.path.basename and os.path.splitext
  // ---------------------------------------------------------------------

  /** `os.path.basename`: what follows the last `/`. */
  function Basename(p: string): (r: string)
    ensures '/' !in r
    ensures |r| <= |p| && r == p[|p| - |r|..]
  {
    p[LastIndex(p, '/') + 1..]
  }

  /** The last occurrence of `c` in `a + b` is in `b` when `b` has one, and otherwise in `a`. */
  lemma {:induction false} LastIndexAppend(a: string, b: string, c: char)
    ensures LastIndex(a + b, c) == if LastIndex(b, c) >= 0 then |a| + LastIndex(b, c) else LastIndex(a, c)
    decreases |b|
  {
    if |b| == 0 {
      assert a + b == a;
    } else if b[|b| - 1] != c {
      var s := a + b;
      assert s[..|s| - 1] == a + b[..|b| - 1];
      LastIndexAppend(a, b[..|b| - 1], c);
    }
  }

  /** The directory part of a path does not reach the base name. */
  lemma BasenameDropsDirectory(dir: string, name: string)
    ensures Basename(dir + "/" + name) == Basename(name)
  {
    var head := dir + "/";
    LastIndexAppend(head, name, '/');
    LastIndexAppend(dir, "/", '/');
    var i := LastIndex(name, '/');
    assert head + name == dir + "/" + name;
    assert (head + name)[|head| + i + 1..] == name[i + 1..];
  }

  /** A file extension: a dot followed by characters other than `.` and `/`. */
  predicate ExtShape(e: string) {
    |e| > 0 && e[0] == '.' && forall i :: 1 <= i < |e| ==> e[i] != '.' && e[i] != '/'
  }

  /** Some character in `p[lo..hi]` is not a dot. */
  predicate HasNonDot(p: string, lo: int, hi: int)
    requires 0 <= lo && hi <= |p|
  {
    exists i :: lo <= i < hi && p[i] != '.'
  }

  /**
   * `os.path.splitext`: the last dot of the base name starts the
   * extension, unless the base name has only dots before it.
   */
  function SplitExt(p: string): (r: (string, string))
    ensures r.0 + r.1 == p
    ensures r.1 == "" || ExtShape(r.1)
  {
    var sep := LastIndex(p, '/');
    var dot := LastIndex(p, '.');
    if dot > sep && HasNonDot(p, sep + 1, dot) then (p[..dot], p[dot..]) else (p, "")
  }

  /** Appending an extension to a name not ending in `.` or `/` makes it the extension. */
  lemma SplitExtAppend(a: string, e: string)
    requires |a| > 0 && a[|a| - 1] != '.' && a[|a| - 1] != '/'
    requires ExtShape(e)
    ensures SplitExt(a + e) == (a, e)
  {
    var p := a + e;
    assert p[|a|] == '.';
    assert forall j :: |a| < j < |p| ==> p[j] == e[j - |a|];
    var dot := LastIndex(p, '.');
    var sep := LastIndex(p, '/');
    assert dot == |a|;
    assert sep < |a| - 1;
    assert p[|a| - 1] != '.';
    assert HasNonDot(p, sep + 1, dot);
    assert p[..dot] == a && p[dot..] == e;
  }

  // ---------------------------------------------------------------------
  // _safe_basename
  // ---------------------------------------------------------------------

  /** The class `[\w\-. ]`. */
  predicate SafeChar(c: char) { IsWordChar(c) || c == '-' || c == '.' || c == ' ' }

  /** A character a saved file name is made of. */
  predicate FileChar(c: char) { IsWordChar(c) || c == '-' || c == '.' }

  /** `re.sub(r'[^\w\-. ]', '_', s)`. */
  function Underscored(s: string): (r: string)
    ensures |r| == |s|
    ensures forall i :: 0 <= i < |s| ==> r[i] == if SafeChar(s[i]) then s[i] else '_'
  {
    seq(|s|, i requires 0 <= i < |s| => if SafeChar(s[i]) then s[i] else '_')
  }

  /** `s.replace(' ', '_')`. */
  function Spaced(s: string): (r: string)
    ensures |r| == |s|
    ensures forall i :: 0 <= i < |s| ==> r[i] == if s[i] == ' ' then '_' else s[i]
  {
    seq(|s|, i requires 0 <= i < |s| => if s[i] == ' ' then '_' else s[i])
  }

  const DefaultName := "image"

  /** `_safe_basename`. */
  function SafeBasename(name: string): (r: string)
    ensures |r| > 0
    ensures forall i :: 0 <= i < |r| ==> FileChar(r[i])
  {
    var u := Underscored(Basename(name));
    var s := Strip(u);
    StrippedSafe(u);
    DefaultNameFileChars();
    var t := Spaced(s);
    if t == "" then DefaultName else t
  }

  /** Stripping a text of safe characters, then replacing its spaces, leaves file characters only. */
  lemma StrippedSafe(u: string)
    requires forall i :: 0 <= i < |u| ==> SafeChar(u[i])
    ensures forall i :: 0 <= i < |Spaced(Strip(u))| ==> FileChar(Spaced(Strip(u))[i])
  {
    var a, b := StripPiece(u);
    assert forall i :: 0 <= i < |Strip(u)| ==> Strip(u)[i] == u[a + i];
  }

  lemma DefaultNameFileChars()
    ensures forall i :: 0 <= i < |DefaultName| ==> FileChar(DefaultName[i])
  {
  }

  /** A name made of file characters has no separator, no space and no whitespace at all. */
  lemma FileCharsPlain(r: string)
    requires forall i :: 0 <= i < |r| ==> FileChar(r[i])
    ensures '/' !in r && ' ' !in r && '\\' !in r
    ensures forall i :: 0 <= i < |r| ==> !IsSpace(r[i])
  {
  }

  /** Making a safe name safe again changes nothing. */
  lemma SafeBasenameIdempotent(name: string)
    ensures SafeBasename(SafeBasename(name)) == SafeBasename(name)
  {
    var x := SafeBasename(name);
    FileCharsPlain(x);
    assert Basename(x) == x;
    assert Underscored(x) == x;
    StripStripped(x);
    assert Spaced(x) == x;
  }

  /** Only the last path component of the IMAGE name matters. */
  lemma SafeBasenameDropsDirectory(dir: string, name: string)
    ensures SafeBasename(dir + "/" + name) == SafeBasename(name)
  {
    BasenameDropsDirectory(dir, name);
  }

  // ---------------------------------------------------------------------
  // Extension choice and overwrite avoidance
  // ---------------------------------------------------------------------

  const AllowedExts: set<string> := {".png", ".jpg", ".jpeg", ".gif", ".bmp", ".webp"}

  lemma AllowedShape(e: string)
    requires e in AllowedExts
    ensures ExtShape(e)
  {
  }

  /** The name kept when its own extension is allowed, otherwise its root with the chosen file's extension. */
  function TargetName(base: string, ext: string): string {
    if Lower(SplitExt(base).1) in AllowedExts then base else SplitExt(base).0 + ext
  }

  /** The target name keeps an allowed extension of its own, or ends with the chosen file's extension. */
  lemma TargetExtension(base: string, ext: string)
    ensures Lower(SplitExt(base).1) in AllowedExts ==> TargetName(base, ext) == base
    ensures Lower(SplitExt(base).1) !in AllowedExts ==>
      TargetName(base, ext)[|SplitExt(base).0|..] == ext && TargetName(base, ext)[..|SplitExt(base).0|] == SplitExt(base).0
  {
  }

  /** One turn of the loop: the extension replaced by `_<counter>` and the chosen extension. */
  function NextName(name: string, ext: string, counter: nat): string {
    SplitExt(name).0 + "_" + NatToString(counter) + ext
  }

  /** The name after `k` turns of the loop. */
  function Collision(f: string, ext: string, k: nat): string {
    if k == 0 then f else NextName(Collision(f, ext, k - 1), ext, k)
  }

  /** From the first suffix on, each turn keeps the previous name whole and adds to it. */
  lemma CollisionGrows(f: string, ext: string, k: nat)
    requires ext in AllowedExts && k >= 1
    ensures |Collision(f, ext, k + 1)| > |Collision(f, ext, k)|
  {
    AllowedShape(ext);
    var a := SplitExt(Collision(f, ext, k - 1)).0 + "_" + NatToString(k);
    var d := NatToString(k);
    assert a[|a| - 1] == d[|d| - 1];
    assert IsDigit(d[|d| - 1]);
    SplitExtAppend(a, ext);
  }

  /** The suffixes `_1`, `_2`, ... `_k` one after the other. */
  function Suffixes(k: nat): string {
    if k == 0 then "" else Suffixes(k - 1) + "_" + NatToString(k)
  }

  /** A root that `SplitExt` keeps whole once an extension follows it. */
  predicate PlainRoot(root: string) {
    |root| > 0 && root[|root| - 1] != '.' && root[|root| - 1] != '/'
  }

  /** A turn on `root + ext` puts `_<counter>` between the root and the extension. */
  lemma NextNameOnRoot(root: string, ext: string, counter: nat)
    requires PlainRoot(root) && ext in AllowedExts
    ensures NextName(root + ext, ext, counter) == root + "_" + NatToString(counter) + ext
  {
    AllowedShape(ext);
    SplitExtAppend(root, ext);
  }

  /** The suffixes compound: after `k` turns on `root + ext` the name is the root, `_1` up to `_k`, and the extension. */
  lemma {:induction false} CollisionSuffixes(root: string, ext: string, k: nat)
    requires PlainRoot(root) && ext in AllowedExts
    ensures Collision(root + ext, ext, k) == root + Suffixes(k) + ext
  {
    if k == 0 {
      assert root + "" == root;
    } else {
      CollisionSuffixes(root, ext, k - 1);
      TurnOnSuffixed(Collision(root + ext, ext, k - 1), root, ext, k);
    }
  }

  /** The turn numbered `k` on the name with suffixes up to `k - 1` adds the suffix `_k`. */
  lemma TurnOnSuffixed(name: string, root: string, ext: string, k: nat)
    requires PlainRoot(root) && ext in AllowedExts && k > 0
    requires name == root + Suffixes(k - 1) + ext
    ensures NextName(name, ext, k) == root + Suffixes(k) + ext
  {
    SuffixedRootPlain(root, k - 1);
    NextNameOnRoot(root + Suffixes(k - 1), ext, k);
    SuffixesGrow(root, k);
  }

  /** A root followed by suffixes still ends in a character other than `.` and `/`. */
  lemma SuffixedRootPlain(root: string, k: nat)
    requires PlainRoot(root)
    ensures PlainRoot(root + Suffixes(k))
  {
    if k == 0 {
      assert root + Suffixes(k) == root;
    } else {
      var d := NatToString(k);
      var r := root + Suffixes(k);
      assert r == root + Suffixes(k - 1) + "_" + d;
      assert r[|r| - 1] == d[|d| - 1];
      assert IsDigit(d[|d| - 1]);
    }
  }

  lemma SuffixesGrow(root: string, k: nat)
    requires k > 0
    ensures root + Suffixes(k - 1) + "_" + NatToString(k) == root + Suffixes(k)
  {
  }

  /** `x.jpg` becomes `x_1.jpg` and then `x_1_2.jpg`. */
  lemma CollisionsCompound(root: string, ext: string)
    requires PlainRoot(root) && ext in AllowedExts
    ensures Collision(root + ext, ext, 2) == root + "_1_2" + ext
  {
    CollisionSuffixes(root, ext, 2);
    assert Suffixes(2) == "_1_2" by {
      assert NatToString(1) == "1" && NatToString(2) == "2";
    }
  }

  /** The longest name in the listing. */
  function MaxLen(names: seq<string>): (m: nat)
    ensures forall i :: 0 <= i < |names| ==> |names[i]| <= m
  {
    if |names| == 0 then 0
    else
      var rest := MaxLen(names[1..]);
      assert forall i :: 1 <= i < |names| ==> names[i] == names[1..][i - 1];
      if |names[0]| > rest then |names[0]| else rest
  }

  /** Every one of the first `n` names tried is already in the listing. */
  predicate AllTaken(f: string, ext: string, existing: seq<string>, n: nat) {
    forall j :: 0 <= j < n ==> Collision(f, ext, j) in existing
  }

  lemma AllTakenNext(f: string, ext: string, existing: seq<string>, n: nat)
    requires AllTaken(f, ext, existing, n) && Collision(f, ext, n) in existing
    ensures AllTaken(f, ext, existing, n + 1)
  {
  }

  /** A listed name is no longer than the longest one. */
  lemma ListedLength(existing: seq<string>, name: string)
    requires name in existing
    ensures |name| <= MaxLen(existing)
  {
    var i :| 0 <= i < |existing| && existing[i] == name;
  }

  /** `name` is where the loop stops: the first name in turn order that is not in the listing. */
  ghost predicate FirstFreeCollision(f: string, ext: string, existing: seq<string>, name: string) {
    exists k: nat :: name == Collision(f, ext, k) && name !in existing && AllTaken(f, ext, existing, k)
  }

  /** Only one name is the first free one. */
  lemma FirstFreeCollisionUnique(f: string, ext: string, existing: seq<string>, a: string, b: string)
    requires FirstFreeCollision(f, ext, existing, a) && FirstFreeCollision(f, ext, existing, b)
    ensures a == b
  {
    var ka: nat :| a == Collision(f, ext, ka) && a !in existing && AllTaken(f, ext, existing, ka);
    var kb: nat :| b == Collision(f, ext, kb) && b !in existing && AllTaken(f, ext, existing, kb);
    assert ka <= kb;
    assert kb <= ka;
  }

  /**
   * `while dest_path.exists(): filename = <root>_<counter><ext>; counter += 1`.
   * It ends because from the second turn on every name is longer than the
   * one before, so it soon outgrows every name in the listing.
   */
  method AvoidOverwrite(filename: string, ext: string, existing: seq<string>)
    returns (name: string, ghost turns: nat)
    requires ext in AllowedExts
    ensures name !in existing
    ensures name == Collision(filename, ext, turns)
    ensures AllTaken(filename, ext, existing, turns)
    ensures filename !in existing ==> name == filename
    ensures FirstFreeCollision(filename, ext, existing, name)
  {
    name := filename;
    var counter: nat := 1;
    while name in existing
      invariant counter >= 1
      invariant name == Collision(filename, ext, counter - 1)
      invariant AllTaken(filename, ext, existing, counter - 1)
      decreases (if counter == 1 then 1 else 0), MaxLen(existing) - |name|
    {
      LoopTurn(filename, ext, existing, counter);
      name := NextName(name, ext, counter);
      counter := counter + 1;
    }
    turns := counter - 1;
    LoopExit(filename, ext, existing, turns);
  }

  /** One turn of the loop: the next name is the next collision, and from the second turn on it is longer. */
  lemma LoopTurn(f: string, ext: string, existing: seq<string>, counter: nat)
    requires ext in AllowedExts && counter >= 1
    requires AllTaken(f, ext, existing, counter - 1) && Collision(f, ext, counter - 1) in existing
    ensures NextName(Collision(f, ext, counter - 1), ext, counter) == Collision(f, ext, counter)
    ensures AllTaken(f, ext, existing, counter)
    ensures |Collision(f, ext, counter - 1)| <= MaxLen(existing)
    ensures counter > 1 ==> |Collision(f, ext, counter)| > |Collision(f, ext, counter - 1)|
  {
    ListedLength(existing, Collision(f, ext, counter - 1));
    AllTakenNext(f, ext, existing, counter - 1);
    if counter > 1 {
      CollisionGrows(f, ext, counter - 1);
    }
  }

  /** Where the loop stops: the first free name, which is the file name itself when that is free. */
  lemma LoopExit(f: string, ext: string, existing: seq<string>, turns: nat)
    requires AllTaken(f, ext, existing, turns) && Collision(f, ext, turns) !in existing
    ensures FirstFreeCollision(f, ext, existing, Collision(f, ext, turns))
    ensures f !in existing ==> Collision(f, ext, turns) == f
  {
    if turns > 0 {
      assert Collision(f, ext, 0) in existing;
    }
  }

  // ---------------------------------------------------------------------
  // ask_image_file_dialog
  // ---------------------------------------------------------------------

  /** How the dialog ends: an exception, no image, or the file name saved. */
  datatype Outcome = Raised | NoImage | Saved(filename: string)

  /**
   * The empty-name guard as written: its warning uses `Colors.YELLOW`,
   * which the local `Colors` class lacks, so the AttributeError escapes
   * instead of None being returned. None here means the guard passes.
   */
  function EmptyNameGuardAsWritten(name: string): (r: Option<Outcome>)
    ensures r.Some? <==> name == ""
  {
    if name == "" then Some(Raised) else None
  }

  /** The guard as documented: an empty name returns None without opening a dialog. */
  function EmptyNameGuard(name: string): (r: Option<Outcome>)
    ensures r.Some? <==> name == ""
    ensures r.Some? ==> r.value == NoImage
  {
    if name == "" then Some(NoImage) else None
  }

  /** The two guards differ exactly on the empty name. */
  lemma EmptyNameRaises(name: string)
    ensures EmptyNameGuardAsWritten("") == Some(Raised) && EmptyNameGuard("") == Some(NoImage)
    ensures name != "" ==> EmptyNameGuardAsWritten(name) == EmptyNameGuard(name)
  {
  }

  /**
   * `ask_image_file_dialog` after the dialog: `selected` is the existing
   * file the user picked (None when none was picked or found), `existing`
   * the names already in the images directory.
   */
  method AskImageFile(imageName: string, selected: Option<string>, existing: seq<string>) returns (r: Outcome)
    ensures imageName == "" || selected.None? ==> r == NoImage
    ensures r != Raised
    ensures r.Saved? <==> imageName != "" && selected.Some? && Lower(SplitExt(selected.value).1) in AllowedExts
    ensures r.Saved? ==> r.filename !in existing
    ensures r.Saved? ==> FirstFreeCollision(TargetName(SafeBasename(imageName), Lower(SplitExt(selected.value).1)),
                                            Lower(SplitExt(selected.value).1), existing, r.filename)
  {
    var guard := EmptyNameGuard(imageName);
    if guard.Some? {
      return guard.value;
    }
    if selected.None? {
      return NoImage;
    }
    var ext := Lower(SplitExt(selected.value).1);
    if ext !in AllowedExts {
      return NoImage;
    }
    var base := SafeBasename(imageName);
    var filename := TargetName(base, ext);
    ghost var turns;
    filename, turns := AvoidOverwrite(filename, ext, existing);
    return Saved(filename);
  }
}
