/**
 * The username scheme shared by boss registration and seller creation:
 * the lowercase first initial followed by the lowercase last name, and
 * when that is taken the same base followed by 1, 2, 3, ... until a free
 * name comes up.
 */
module Usernames {
  import opened Text

  /** `f"{first_name[0].lower()}{last_name.lower()}"`. */
  function BaseUsername(first: string, last: string): (b: string)
    requires |first| > 0
    ensures |b| == |last| + 1
    ensures !IsUpper(b[0]) && forall i :: 0 <= i < |b| ==> !IsUpper(b[i])
  {
    [LowerChar(first[0])] + Lower(last)
  }

  /** The `k`-th name tried: the base itself for 0, the base and `str(k)` after that. */
  function Candidate(base: string, k: nat): string {
    if k == 0 then base else base + NatToString(k)
  }

  /** Different attempts try different names. */
  lemma CandidateInjective(base: string, j: nat, k: nat)
    requires Candidate(base, j) == Candidate(base, k)
    ensures j == k
  {
    if j > 0 && k > 0 {
      var a := base + NatToString(j);
      var b := base + NatToString(k);
      assert a[|base|..] == NatToString(j);
      assert b[|base|..] == NatToString(k);
      NatToStringInjective(j, k);
    }
  }

  /** The names tried before attempt `k`. */
  ghost function TriedBefore(base: string, k: nat): set<string> {
    if k == 0 then {} else TriedBefore(base, k - 1) + {Candidate(base, k - 1)}
  }

  lemma {:induction false} TriedBeforeMembers(base: string, k: nat, x: string)
    ensures x in TriedBefore(base, k) <==> exists j :: 0 <= j < k && x == Candidate(base, j)
    decreases k
  {
    if k > 0 {
      TriedBeforeMembers(base, k - 1, x);
    }
  }

  /** `k` attempts try `k` distinct names. */
  lemma {:induction false} TriedBeforeSize(base: string, k: nat)
    ensures |TriedBefore(base, k)| == k
    decreases k
  {
    if k > 0 {
      TriedBeforeSize(base, k - 1);
      var c := Candidate(base, k - 1);
      if c in TriedBefore(base, k - 1) {
        TriedBeforeMembers(base, k - 1, c);
        var j :| 0 <= j < k - 1 && c == Candidate(base, j);
        CandidateInjective(base, j, k - 1);
      }
    }
  }

  /**
   * `name` is what the search returns: the first candidate, in attempt
   * order, that is not taken.
   */
  ghost predicate FirstFree(base: string, taken: set<string>, name: string) {
    exists k: nat :: name == Candidate(base, k) && name !in taken
      && forall j :: 0 <= j < k ==> Candidate(base, j) in taken
  }

  /** There is only one first free name. */
  lemma FirstFreeUnique(base: string, taken: set<string>, a: string, b: string)
    requires FirstFree(base, taken, a) && FirstFree(base, taken, b)
    ensures a == b
  {
    var ka: nat :| a == Candidate(base, ka) && a !in taken
      && forall j :: 0 <= j < ka ==> Candidate(base, j) in taken;
    var kb: nat :| b == Candidate(base, kb) && b !in taken
      && forall j :: 0 <= j < kb ==> Candidate(base, j) in taken;
    assert ka <= kb;
    assert kb <= ka;
  }

  /**
   * `while username in taken: username = f"{base}{counter}"; counter += 1`.
   * The loop ends because every attempt tries a new name and only finitely
   * many are taken.
   */
  method FindFree(base: string, taken: set<string>) returns (username: string, ghost suffix: nat)
    ensures username !in taken
    ensures username == Candidate(base, suffix)
    ensures forall j :: 0 <= j < suffix ==> Candidate(base, j) in taken
    ensures base !in taken ==> username == base
    ensures suffix <= |taken|
    ensures FirstFree(base, taken, username)
  {
    username := base;
    var counter: nat := 1;
    TriedBeforeSize(base, 0);
    while username in taken
      invariant username == Candidate(base, counter - 1)
      invariant counter >= 1
      invariant TriedBefore(base, counter - 1) <= taken
      invariant counter - 1 <= |taken|
      invariant forall j :: 0 <= j < counter - 1 ==> Candidate(base, j) in taken
      decreases |taken| - (counter - 1)
    {
      TriedBeforeSize(base, counter);
      assert TriedBefore(base, counter) <= taken;
      SubsetSize(TriedBefore(base, counter), taken);
      username := base + NatToString(counter);
      counter := counter + 1;
    }
    suffix := counter - 1;
  }

  lemma SubsetSize<T>(a: set<T>, b: set<T>)
    requires a <= b
    ensures |a| <= |b|
  {
    assert b == a + (b - a);
  }
}
