/**
 The circuit breaker of resilience.go as a pure transition system.

 Every method that takes the breaker's lock is one event; the lock is not held
 while the guarded operation runs, so an outcome (Finish) may be recorded in any
 state.  A run is a list of events in the order in which the lock was taken.
 */
module Breaker {
  import opened Common

  /** An open breaker rejects attempts for this long after the last failure. */
  const OPEN_PERIOD: Duration := 30 * SECOND

  /** The failure rate is taken over the outcomes of this last stretch of time. */
  const WINDOW: Duration := 60 * SECOND

  /** CircuitState is an int in the source; Other stands for its unnamed values. */
  datatype CircuitState = Closed | Open | HalfOpen | Other(code: int)

  /** The fields of CircuitBreaker. A lastFailure of None is Go's zero time. */
  datatype Breaker = Breaker(
    threshold: real,
    failures: seq<Time>,
    successes: seq<Time>,
    lastFailure: Option<Time>,
    state: CircuitState)

  datatype Event =
    | Begin(at: Time)
      // beforeAttempt
    | Finish(call: nat, failed: bool, at: Time, prunedAt: Time)
      // afterAttempt of the attempt whose Begin has index call; a success reads
      // the clock twice, first for its own stamp and then for the pruning
    | Query(at: Time)
      // GetFailureRate
    | ForceOpen(at: Time)
    | ForceClose(at: Time)

  datatype Answer =
    | Admitted
    | Rejected(error: Error)
    | Rate(rate: real)
    | Unit

  /** What the callers can see of one event: its answer and the state it leaves. */
  datatype Observation = Observation(answer: Answer, state: CircuitState)

  function New(threshold: real): Breaker {
    Breaker(threshold, [], [], None, Closed)
  }

  // ---- the critical sections --------------------------------------------------

  /** pruneBefore: drops stamps from the front while they are before the cutoff. */
  function Prune(ts: seq<Time>, cutoff: Time): (r: seq<Time>)
    ensures |r| <= |ts|
  {
    if ts != [] && ts[0] < cutoff then Prune(ts[1..], cutoff) else ts
  }

  function PruneAll(b: Breaker, now: Time): Breaker {
    b.(failures := Prune(b.failures, now - WINDOW), successes := Prune(b.successes, now - WINDOW))
  }

  /** The failure rate of a window with the given numbers of outcomes. */
  function FailureRate(failures: nat, successes: nat): real {
    if failures + successes == 0 then 0.0
    else failures as real / (failures + successes) as real
  }

  /** A rate is a share, and it is zero exactly without failures. */
  lemma RateBounds(failures: nat, successes: nat)
    ensures 0.0 <= FailureRate(failures, successes) <= 1.0
    ensures FailureRate(failures, successes) == 0.0 <==> failures == 0
  {
    var total, rate := (failures + successes) as real, FailureRate(failures, successes);
    if failures + successes > 0 {
      assert rate * total == failures as real;
    }
  }

  /** The comparison with the threshold, without the division. */
  lemma RateReaches(failures: nat, successes: nat, threshold: real)
    requires failures + successes > 0
    ensures FailureRate(failures, successes) >= threshold
       <==> failures as real >= threshold * (failures + successes) as real
  {
    var total, rate := (failures + successes) as real, FailureRate(failures, successes);
    assert rate * total == failures as real;
    if rate >= threshold {
      assert rate * total >= threshold * total;
    } else {
      assert (threshold - rate) * total > 0.0;
    }
  }

  /** An open breaker lets an attempt through once the period has elapsed. */
  predicate PeriodElapsed(b: Breaker, now: Time) {
    b.lastFailure.None? || now - b.lastFailure.value > OPEN_PERIOD
  }

  function BeforeAttempt(b: Breaker, now: Time): Breaker {
    if b.state == Open && PeriodElapsed(b, now) then b.(state := HalfOpen) else b
  }

  function AdmissionOf(b: Breaker, now: Time): Answer {
    match b.state
    case Open => if PeriodElapsed(b, now) then Admitted else Rejected(CircuitOpen)
    case HalfOpen => Admitted
    case Closed => Admitted
    case Other(code) => Rejected(InvalidCircuitState(code))
  }

  function RecordFailure(b: Breaker, now: Time): Breaker {
    var c := PruneAll(b.(failures := b.failures + [now], lastFailure := Some(now)), now);
    if c.state == Closed && FailureRate(|c.failures|, |c.successes|) >= c.threshold then c.(state := Open)
    else if c.state == HalfOpen then c.(state := Open)
    else c
  }

  function RecordSuccess(b: Breaker, now: Time, prunedAt: Time): Breaker {
    var c := PruneAll(b.(successes := b.successes + [now]), prunedAt);
    if c.state == HalfOpen then c.(state := Closed, failures := [], successes := []) else c
  }

  /** The effect of one event on the breaker. */
  function Step(b: Breaker, e: Event): Breaker {
    match e
    case Begin(now) => BeforeAttempt(b, now)
    case Finish(_, failed, now, prunedAt) =>
      if failed then RecordFailure(b, now) else RecordSuccess(b, now, prunedAt)
    case Query(now) => PruneAll(b, now)
    case ForceOpen(now) => b.(state := Open, lastFailure := Some(now))
    case ForceClose(_) => b.(state := Closed, failures := [], successes := [])
  }

  /** What one event shows. */
  function Observe(b: Breaker, e: Event): Observation {
    var c := Step(b, e);
    var answer :=
      match e
      case Begin(now) => AdmissionOf(b, now)
      case Query(_) => Rate(FailureRate(|c.failures|, |c.successes|))
      case _ => Unit;
    Observation(answer, c.state)
  }

  // ---- runs ------------------------------------------------------------------

  /** The breaker after a run that starts with a new one. */
  function Exec(threshold: real, es: seq<Event>): Breaker {
    if es == [] then New(threshold)
    else Step(Exec(threshold, es[..|es| - 1]), es[|es| - 1])
  }

  /** Everything a run shows, event by event. */
  function Observations(threshold: real, es: seq<Event>): (os: seq<Observation>)
    ensures |os| == |es|
  {
    if es == [] then []
    else
      var n := |es| - 1;
      Observations(threshold, es[..n]) + [Observe(Exec(threshold, es[..n]), es[n])]
  }

  /** The first and the last clock reading of an event. */
  function Start(e: Event): Time { e.at }

  function End(e: Event): Time {
    if e.Finish? && !e.failed then e.prunedAt else e.at
  }

  /** The clock never goes back along the run, and has not passed now. */
  predicate Timed(es: seq<Event>, now: Time) {
    es == [] ||
    var n := |es| - 1;
    Start(es[n]) <= End(es[n]) <= now && Timed(es[..n], Start(es[n]))
  }

  lemma ExecStep(threshold: real, es: seq<Event>, k: nat)
    requires k < |es|
    ensures Exec(threshold, es[..k + 1]) == Step(Exec(threshold, es[..k]), es[k])
  {
    assert es[..k + 1][..k] == es[..k];
  }

  lemma ExecSnoc(threshold: real, es: seq<Event>, e: Event)
    ensures Exec(threshold, es + [e]) == Step(Exec(threshold, es), e)
  {
    assert (es + [e])[..|es|] == es;
  }

  lemma TimedSnoc(es: seq<Event>, e: Event, now: Time)
    requires Timed(es, Start(e)) && Start(e) <= End(e) <= now
    ensures Timed(es + [e], now)
  {
    assert (es + [e])[..|es|] == es;
  }

  lemma TimedLater(es: seq<Event>, now: Time, later: Time)
    requires Timed(es, now) && now <= later
    ensures Timed(es, later)
  {}

  /** A prefix of a timed run is timed up to any later event of the run. */
  lemma {:induction false} TimedPrefix(es: seq<Event>, now: Time, k: nat)
    requires Timed(es, now) && k <= |es|
    ensures Timed(es[..k], now)
    ensures k < |es| ==> Timed(es[..k], Start(es[k])) && Start(es[k]) <= End(es[k]) <= now
  {
    var n := |es| - 1;
    if k == |es| {
      assert es[..k] == es;
    } else if k == n {
      TimedLater(es[..n], Start(es[n]), now);
    } else {
      TimedPrefix(es[..n], Start(es[n]), k);
      assert es[..n][..k] == es[..k];
      TimedLater(es[..k], Start(es[n]), now);
    }
  }

  /** Events are stamped in the order of the run. */
  lemma {:induction false} TimesOrdered(es: seq<Event>, now: Time, j: nat, k: nat)
    requires Timed(es, now) && j < k < |es|
    ensures End(es[j]) <= Start(es[k])
  {
    TimedPrefix(es, now, k);
    TimedPrefix(es[..k], Start(es[k]), j);
  }
}
