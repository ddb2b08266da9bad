/** megalos_panel/retry.py: two independent retry budgets with exponential backoff. */
module Retrying {
  /** What one call of the wrapped function did. */
  datatype Outcome = Returned | RateLimited | TransientFailure | OtherFailure

  /** How retry_with_backoff ended: the value, or PanelProviderError(attempts). */
  datatype Result = Value | ProviderError(attempts: nat)

  function Count(outcome: nat -> Outcome, kind: Outcome, n: nat): nat {
    if n == 0 then 0 else Count(outcome, kind, n - 1) + (if outcome(n - 1) == kind then 1 else 0)
  }

  /** The n-th call (counted from 1) ends the loop. */
  predicate Stops(outcome: nat -> Outcome, rateLimitAttempts: int, transientAttempts: int, n: nat)
    requires n > 0
  {
    match outcome(n - 1)
    case Returned => true
    case OtherFailure => true
    case RateLimited => Count(outcome, RateLimited, n) >= rateLimitAttempts
    case TransientFailure => Count(outcome, TransientFailure, n) >= transientAttempts
  }

  /** n is the number of calls made: the first that ends the loop. */
  ghost predicate FirstStop(outcome: nat -> Outcome, rateLimitAttempts: int, transientAttempts: int, n: nat) {
    n > 0 && Stops(outcome, rateLimitAttempts, transientAttempts, n)
    && forall m :: 0 < m < n ==> !Stops(outcome, rateLimitAttempts, transientAttempts, m)
  }

  function Pow2(n: nat): nat {
    if n == 0 then 1 else 2 * Pow2(n - 1)
  }

  function Backoff(attempt: nat, base: real, cap: real): real
    requires attempt > 0
  {
    var delay := base * Pow2(attempt - 1) as real;
    if delay <= cap then delay else cap
  }

  /** The first delay is the base or the cap, whichever is less; after that the delay doubles until it
      meets the cap, and stays there. */
  lemma BackoffDoubles(attempt: nat, base: real, cap: real)
    requires attempt > 0 && base >= 0.0
    ensures Backoff(1, base, cap) == if base <= cap then base else cap
    ensures Backoff(attempt, base, cap) <= cap
    ensures Backoff(attempt, base, cap) < cap ==>
              var twice := 2.0 * Backoff(attempt, base, cap); Backoff(attempt + 1, base, cap) == if twice <= cap then twice else cap
    ensures Backoff(attempt, base, cap) == cap ==> Backoff(attempt + 1, base, cap) == cap
  {
    var p := Pow2(attempt - 1) as real;
    assert Pow2(attempt) as real == 2.0 * p && base * (2.0 * p) == 2.0 * (base * p) && base * p >= 0.0;
    assert Pow2(0) == 1 && base * 1.0 == base;
  }

  function AtLeastOne(x: int): nat {
    if x < 1 then 1 else x
  }

  /** While the loop runs every call so far was retried, so it used up one budget or the other. */
  lemma {:induction false} RetriesUseBudget(outcome: nat -> Outcome, r: int, t: int, n: nat)
    requires forall m :: 0 < m <= n ==> !Stops(outcome, r, t, m)
    ensures Count(outcome, RateLimited, n) + Count(outcome, TransientFailure, n) == n
    ensures Count(outcome, RateLimited, n) < AtLeastOne(r) && Count(outcome, TransientFailure, n) < AtLeastOne(t)
  {
    if n > 0 {
      RetriesUseBudget(outcome, r, t, n - 1);
      assert !Stops(outcome, r, t, n);
    }
  }

  /** Budgets bound the calls: at most R + T - 1. */
  lemma CallsBounded(outcome: nat -> Outcome, r: int, t: int, n: nat)
    requires FirstStop(outcome, r, t, n)
    ensures n <= AtLeastOne(r) + AtLeastOne(t) - 1
  {
    RetriesUseBudget(outcome, r, t, n - 1);
  }

  /** The bound is met: rate limits and transient failures can be interleaved so that all
      R + T - 1 calls are made. */
  lemma CallsBoundTight(r: nat, t: nat)
    requires r >= 1 && t >= 1
    ensures FirstStop(n => if n < r - 1 then RateLimited else TransientFailure, r, t, r + t - 1)
  {
    var outcome := n => if n < r - 1 then RateLimited else TransientFailure;
    forall m | 0 < m <= r + t - 1
      ensures Count(outcome, RateLimited, m) == (if m <= r - 1 then m else r - 1)
      ensures Count(outcome, TransientFailure, m) == (if m <= r - 1 then 0 else m - (r - 1))
    {
      CountSplit(outcome, r, m);
    }
  }

  lemma {:induction false} CountSplit(outcome: nat -> Outcome, r: nat, m: nat)
    requires r >= 1
    requires forall n: nat :: outcome(n) == if n < r - 1 then RateLimited else TransientFailure
    ensures Count(outcome, RateLimited, m) == (if m <= r - 1 then m else r - 1)
    ensures Count(outcome, TransientFailure, m) == (if m <= r - 1 then 0 else m - (r - 1))
  {
    if m > 0 {
      CountSplit(outcome, r, m - 1);
    }
  }

  /** The loop. `outcome(k)` is what the (k+1)-th call of fn does; `sleeps` are the delays slept. */
  method RetryWithBackoff(outcome: nat -> Outcome, rateLimitAttempts: int, transientAttempts: int,
                          backoffCap: real, backoffBase: real)
      returns (result: Result, calls: nat, sleeps: seq<real>)
    ensures FirstStop(outcome, rateLimitAttempts, transientAttempts, calls)
    ensures calls <= AtLeastOne(rateLimitAttempts) + AtLeastOne(transientAttempts) - 1
    ensures |sleeps| == calls - 1
    ensures forall k :: 0 <= k < |sleeps| ==> sleeps[k] == Backoff(k + 1, backoffBase, backoffCap)
    ensures result == match outcome(calls - 1)
                      case Returned => Value
                      case OtherFailure => ProviderError(1)
                      case RateLimited => ProviderError(calls)
                      case TransientFailure => ProviderError(calls)
  {
    var rateLimitUsed, transientUsed := 0, 0;
    calls, sleeps := 0, [];
    while true
      invariant rateLimitUsed == Count(outcome, RateLimited, calls)
      invariant transientUsed == Count(outcome, TransientFailure, calls)
      invariant forall m :: 0 < m <= calls ==> !Stops(outcome, rateLimitAttempts, transientAttempts, m)
      invariant |sleeps| == calls
      invariant forall k :: 0 <= k < |sleeps| ==> sleeps[k] == Backoff(k + 1, backoffBase, backoffCap)
      decreases AtLeastOne(rateLimitAttempts) + AtLeastOne(transientAttempts) - calls
    {
      RetriesUseBudget(outcome, rateLimitAttempts, transientAttempts, calls);
      calls := calls + 1;
      match outcome(calls - 1) {
        case Returned =>
          result := Value;
          return;
        case OtherFailure =>
          result := ProviderError(1);
          return;
        case RateLimited =>
          rateLimitUsed := rateLimitUsed + 1;
          if rateLimitUsed >= rateLimitAttempts {
            result := ProviderError(calls);
            return;
          }
        case TransientFailure =>
          transientUsed := transientUsed + 1;
          if transientUsed >= transientAttempts {
            result := ProviderError(calls);
            return;
          }
      }
      sleeps := sleeps + [Backoff(calls, backoffBase, backoffCap)];
    }
  }
}
