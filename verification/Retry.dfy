/**
 RetryManager of resilience.go: capped exponential backoff, computed in floating
 point, and the two retry loops.
 */
module Retry {
  import opened Common
  import opened Floats

  const MAX_BACKOFF: Duration := 30 * SECOND

  datatype RetryManager = RetryManager(maxRetries: int, retryInterval: Duration)

  /** calculateBackoff, with backoffFactor 2.0. */
  function CalculateBackoff(fp: Float, r: RetryManager, attempt: nat): Duration {
    Min(ToDuration(fp, Product(fp, r.retryInterval, attempt)), MAX_BACKOFF)
  }

  /** What the documentation promises: interval * 2^attempt, capped at 30s. */
  function Backoff(r: RetryManager, attempt: nat): Duration {
    Min(r.retryInterval * Pow2(attempt), 30 * SECOND)
  }

  /** The float product can be converted, or what the conversion yields does no harm. */
  predicate KeepsPromise(fp: Float, interval: Duration, attempt: nat) {
    var near := Nearest(fp, interval) * Pow2(attempt);
    if interval > 0 then near < INT64_LIMIT || fp.overflow(Product(fp, interval, attempt)) >= 30 * SECOND
    else if interval == 0 then attempt < INFINITE_POWER || fp.overflow(NaN) == 0
    else Nearest(fp, interval) == interval && near >= -INT64_LIMIT
  }

  /**
   The promise, exactly, for every interval and every attempt: a positive interval
   misses it only by overflow, one of zero only where 2^attempt is infinite, and a
   negative one unless it is itself a float and the product fits.
   */
  lemma BackoffExactness(fp: Float, r: RetryManager, attempt: nat)
    requires Correct(fp) && IsInt64(r.retryInterval)
    ensures CalculateBackoff(fp, r, attempt) == Backoff(r, attempt) <==> KeepsPromise(fp, r.retryInterval, attempt)
  {
    var i := r.retryInterval;
    hide Correct, Product, Nearest, ToDuration, Pow2;
    NearestIs(fp, i);
    var near := Nearest(fp, i) * Pow2(attempt);
    assert Pow2(attempt) >= 1;
    if i == 0 {
      ZeroProduct(fp, attempt);
    } else if -INT64_LIMIT <= near < INT64_LIMIT {
      ProductFits(fp, i, attempt);
      if i > MAX_EXACT {
        TimesGrows(i, 1, Pow2(attempt));
        TimesGrows(Nearest(fp, i), 1, Pow2(attempt));
      } else if i < 0 {
        NegativeProduct(i, Pow2(attempt));
        NegativeProduct(Nearest(fp, i), Pow2(attempt));
        SameFactor(i, Nearest(fp, i), Pow2(attempt));
      }
    } else if i > 0 {
      TimesGrows(Nearest(fp, i), 1, Pow2(attempt));
      ProductTooBig(fp, i, attempt);
      if i > MAX_EXACT {
        TimesGrows(i, 1, Pow2(attempt));
      }
    } else {
      NegativeProduct(Nearest(fp, i), Pow2(attempt));
      ProductTooSmall(fp, i, attempt);
      NegativeProduct(i, Pow2(attempt));
      SmallStays(fp, i, attempt);
    }
  }

  lemma NegativeProduct(a: int, p: nat)
    requires a < 0 && p >= 1
    ensures a * p < 0
  {}

  lemma SameFactor(a: int, b: int, p: nat)
    requires p >= 1
    ensures a * p == b * p <==> a == b
  {}

  /** Backoffs never shrink from one attempt to the next, and stay within [interval, 30s]. */
  lemma BackoffGrows(r: RetryManager, m: nat, n: nat)
    requires r.retryInterval >= 0 && m <= n
    ensures 0 <= Backoff(r, m) <= Backoff(r, n) <= 30 * SECOND
    ensures Min(r.retryInterval, 30 * SECOND) <= Backoff(r, m)
  {
    Pow2Grows(m, n);
    Pow2Grows(0, m);
    TimesGrows(r.retryInterval, Pow2(m), Pow2(n));
    TimesGrows(r.retryInterval, Pow2(0), Pow2(m));
  }

  /** The sleep between the attempts from m up to n. */
  function TotalBackoff(r: RetryManager, m: nat, n: nat): Duration
    requires m <= n
    decreases n
  {
    if m == n then 0 else TotalBackoff(r, m, n - 1) + Backoff(r, n - 1)
  }

  lemma {:induction false} TotalBackoffBound(r: RetryManager, m: nat, n: nat)
    requires m <= n && r.retryInterval >= 0
    ensures 0 <= TotalBackoff(r, m, n) <= (n - m) * 30 * SECOND
    decreases n
  {
    if m < n {
      TotalBackoffBound(r, m, n - 1);
      BackoffGrows(r, n - 1, n - 1);
    }
  }

  // ---- the retry loops --------------------------------------------------------

  /** The operation as an adversary: the error of its i-th run, or None for success. */
  type Operation = nat -> Option<Error>

  /**
   DoWithRetry: runs the operation until its first success, at most
   maxRetries + 1 times, sleeping one backoff between two runs.  It succeeds if
   and only if some run within that bound does, and a failure carries the error
   of the last run (none if maxRetries is negative).
   */
  method DoWithRetry(fp: Float, r: RetryManager, operation: Operation)
    returns (result: Option<Error>, runs: nat, sleeps: seq<Duration>)
    ensures result == None <==> exists i: nat :: i <= r.maxRetries && operation(i) == None
    ensures result == None ==> runs > 0 && operation(runs - 1) == None
    ensures forall i: nat :: i < runs && (result != None || i < runs - 1) ==> operation(i) != None
    ensures result != None ==> runs == Max(r.maxRetries + 1, 0)
    ensures result != None ==>
              result == Some(Exhausted(r.maxRetries + 1, if runs == 0 then None else operation(runs - 1)))
    ensures |sleeps| == if runs == 0 then 0 else runs - 1
    ensures forall i :: 0 <= i < |sleeps| ==> sleeps[i] == CalculateBackoff(fp, r, i)
  {
    var lastErr := None;
    sleeps := [];
    var attempt := 0;
    while attempt <= r.maxRetries
      invariant 0 <= attempt <= Max(r.maxRetries + 1, 0)
      invariant forall i: nat :: i < attempt ==> operation(i) != None
      invariant lastErr == if attempt == 0 then None else operation(attempt - 1)
      invariant |sleeps| == Min(attempt, Max(r.maxRetries, 0))
      invariant forall i :: 0 <= i < |sleeps| ==> sleeps[i] == CalculateBackoff(fp, r, i)
    {
      var err := operation(attempt);
      if err == None {
        return None, attempt + 1, sleeps;
      }
      lastErr := err;
      if attempt < r.maxRetries {
        sleeps := sleeps + [CalculateBackoff(fp, r, attempt)];
      }
      attempt := attempt + 1;
    }
    return Some(Exhausted(r.maxRetries + 1, lastErr)), attempt, sleeps;
  }

  /** When the caller's context is seen to have ended. */
  datatype Context = Context(
    endedBefore: nat -> bool,   // at the check before the i-th run
    endedDuring: nat -> bool)   // instead of the timer, in the wait after the i-th run

  /**
   DoWithRetryContext: like DoWithRetry, but it stops at the first moment it sees
   the context ended: before a run, or in the wait after a failed run that is not
   the last one.
   */
  method DoWithRetryContext(fp: Float, r: RetryManager, ctx: Context, operation: Operation)
    returns (result: Option<Error>, runs: nat)
    ensures forall i: nat :: i + 1 < runs ==> operation(i) != None && !ctx.endedDuring(i)
    ensures forall i: nat :: i < runs ==> !ctx.endedBefore(i)
    ensures result == None <==> runs > 0 && operation(runs - 1) == None
    ensures result == Some(Cancelled) ==>
              (runs <= r.maxRetries && ctx.endedBefore(runs)) ||
              (0 < runs <= r.maxRetries && operation(runs - 1) != None && ctx.endedDuring(runs - 1))
    ensures result != None && result != Some(Cancelled) ==>
              runs == Max(r.maxRetries + 1, 0) &&
              result == Some(Exhausted(r.maxRetries + 1, if runs == 0 then None else operation(runs - 1)))
    ensures runs <= Max(r.maxRetries + 1, 0)
  {
    var lastErr := None;
    var attempt := 0;
    while attempt <= r.maxRetries
      invariant 0 <= attempt <= Max(r.maxRetries + 1, 0)
      invariant forall i: nat :: i < attempt ==> !ctx.endedBefore(i) && operation(i) != None
      invariant forall i: nat :: i < attempt && i < r.maxRetries ==> !ctx.endedDuring(i)
      invariant lastErr == if attempt == 0 then None else operation(attempt - 1)
    {
      if ctx.endedBefore(attempt) {
        return Some(Cancelled), attempt;
      }
      var err := operation(attempt);
      if err == None {
        return None, attempt + 1;
      }
      lastErr := err;
      if attempt < r.maxRetries {
        if ctx.endedDuring(attempt) {
          return Some(Cancelled), attempt + 1;
        }
      }
      attempt := attempt + 1;
    }
    return Some(Exhausted(r.maxRetries + 1, lastErr)), attempt;
  }
}
