/** Vocabulary shared by every module: optional values, results and time. */
module Common {

  datatype Option<+T> = None | Some(value: T)

  datatype Result<+T, +E> = Ok(value: T) | Err(error: E)

  /** Nanoseconds on the process's monotonic clock. */
  type Time = int

  /** Nanoseconds, as Go's time.Duration counts them. */
  type Duration = int

  const MILLISECOND: Duration := 1_000_000
  const SECOND: Duration := 1_000_000_000

  /** The errors that the modelled code tells apart. */
  datatype Error =
    | FetchFailed(code: int)              // any failure of the HTTP client
    | CircuitOpen                         // "circuit breaker is open"
    | InvalidCircuitState(state: int)     // "invalid circuit breaker state"
    | Cancelled                           // the caller's context ended
    | Exhausted(attempts: int, last: Option<Error>)
    | ClientError(cause: Option<Error>)   // WrapClientError: the cause may be nil
    | InitError(reason: string)

  function Max(a: int, b: int): (m: int)
    ensures m >= a && m >= b && (m == a || m == b)
  {
    if a < b then b else a
  }

  function Min(a: int, b: int): (m: int)
    ensures m <= a && m <= b && (m == a || m == b)
  {
    if a < b then a else b
  }

  /** The elements of xs whose flag in mask is set, in order. */
  function Keep<T>(xs: seq<T>, mask: seq<bool>): (kept: seq<T>)
    requires |mask| == |xs|
    ensures |kept| <= |xs|
    ensures (forall i :: 0 <= i < |mask| ==> mask[i]) ==> kept == xs
  {
    if xs == [] then []
    else
      var n := |xs| - 1;
      Keep(xs[..n], mask[..n]) + if mask[n] then [xs[n]] else []
  }
}
