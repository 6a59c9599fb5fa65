/**
 * The bounded retry loop wrapped around every database touch of the sale
 * code: `for attempt in range(max_retries)`, retrying only when SQLite
 * reports "database is locked" and this is not the last attempt, giving up
 * at once on any other error. An attempt's outcome is an input; the sleep
 * between attempts is left out.
 */
module SaleRetry {
  import opened Wrappers

  /** What one attempt meets: the database, a lock, or any other error. */
  datatype DbStatus = Available | Locked | Failed

  /** Attempts made by the selection, finalisation and costing steps. */
  const DefaultRetries: nat := 3
  /** Attempts made by the batch deduction step. */
  const DeductionRetries: nat := 5

  /** The attempt that gets through, starting from attempt `k`. */
  function GrantedFrom(env: nat -> DbStatus, maxRetries: nat, k: nat): (r: Option<nat>)
    ensures r.Some? ==> k <= r.value < maxRetries && env(r.value) == Available
    decreases maxRetries - k
  {
    if k >= maxRetries then None
    else match env(k)
      case Available => Some(k)
      case Failed => None
      case Locked => if k < maxRetries - 1 then GrantedFrom(env, maxRetries, k + 1) else None
  }

  /** The attempt on which the guarded block runs to completion, if any. */
  function Granted(env: nat -> DbStatus, maxRetries: nat): Option<nat>
  {
    GrantedFrom(env, maxRetries, 0)
  }

  /**
   * The retry rule stated outright: attempt `k` gets through exactly when it
   * is within the budget, meets the database, and every earlier attempt met
   * a lock.
   */
  lemma {:induction false} GrantedFromExactly(env: nat -> DbStatus, maxRetries: nat, start: nat, k: nat)
    requires start <= k
    ensures GrantedFrom(env, maxRetries, start) == Some(k) <==>
      (k < maxRetries && env(k) == Available && forall j :: start <= j < k ==> env(j) == Locked)
    decreases maxRetries - start
  {
    if start < maxRetries && start < k && env(start) == Locked && start < maxRetries - 1 {
      GrantedFromExactly(env, maxRetries, start + 1, k);
      assert (forall j :: start <= j < k ==> env(j) == Locked) <==>
             (forall j :: start + 1 <= j < k ==> env(j) == Locked);
    } else if start < maxRetries && start < k && env(start) == Locked {
      assert GrantedFrom(env, maxRetries, start) == None;
    } else if start < k && start < maxRetries {
      assert env(start) != Locked;
      assert GrantedFrom(env, maxRetries, start) != Some(k);
    }
  }

  lemma GrantedExactly(env: nat -> DbStatus, maxRetries: nat, k: nat)
    ensures Granted(env, maxRetries) == Some(k) <==>
      (k < maxRetries && env(k) == Available && forall j :: 0 <= j < k ==> env(j) == Locked)
  {
    GrantedFromExactly(env, maxRetries, 0, k);
  }

  /** Any other error before the database is reached ends the loop with failure. */
  lemma {:induction false} NoRetryAfterOtherError(env: nat -> DbStatus, maxRetries: nat, start: nat, f: nat)
    requires start <= f && env(f) == Failed
    requires forall j :: start <= j < f ==> env(j) == Locked
    ensures GrantedFrom(env, maxRetries, start) == None
    decreases f - start
  {
    if start < f && start < maxRetries - 1 {
      NoRetryAfterOtherError(env, maxRetries, start + 1, f);
    }
  }

  /**
   * The loop itself: the attempt that got through and the number of attempts
   * made, which never exceeds the budget.
   */
  method AwaitDatabase(env: nat -> DbStatus, maxRetries: nat) returns (granted: Option<nat>, attempts: nat)
    ensures granted == Granted(env, maxRetries)
    ensures attempts <= maxRetries
    ensures granted.Some? ==> attempts == granted.value + 1
  {
    var attempt: nat := 0;
    while attempt < maxRetries
      invariant attempt <= maxRetries
      invariant Granted(env, maxRetries) == GrantedFrom(env, maxRetries, attempt)
      decreases maxRetries - attempt
    {
      match env(attempt)
      case Available =>
        return Some(attempt), attempt + 1;
      case Failed =>
        return None, attempt + 1;
      case Locked =>
        if attempt < maxRetries - 1 {
          attempt := attempt + 1;
        } else {
          return None, attempt + 1;
        }
    }
    return None, attempt;
  }
}
