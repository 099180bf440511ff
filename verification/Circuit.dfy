/**
 The CircuitBreaker object of resilience.go.  Its methods are proved against the
 transition system of module Breaker: trace is a history variable that lists every
 critical section that ran on the object, and Valid says that the other fields
 are what that run computes, so every theorem about runs holds of the object.
 */
module Circuit {
  import opened Common
  import Breaker
  import opened BreakerRuns
  import opened Ledger

  type Event = Breaker.Event

  /** The monotonic clock: it may stand still between two readings but never goes back. */
  class Clock {
    var now: Time

    constructor (start: Time)
      ensures now == start
    {
      now := start;
    }

    method Now() returns (t: Time)
      modifies this
      ensures old(now) <= t == now
    {
      var passed: nat :| passed >= 0;
      now := now + passed;
      t := now;
    }

    /** time.Sleep: a non-positive duration returns at once. */
    method Sleep(d: Duration)
      modifies this
      ensures now >= old(now) + Max(d, 0)
    {
      var late: nat :| late >= 0;
      now := now + Max(d, 0) + late;
    }
  }

  class CircuitBreaker {
    const threshold: real
    var failures: seq<Time>
    var successes: seq<Time>
    var lastFailure: Option<Time>
    var state: Breaker.CircuitState
    // not in the source: how many critical sections have run, and the attempts that are running
    var sections: nat
    var running: set<nat>
    ghost var trace: seq<Event>

    ghost function Fields(): Breaker.Breaker
      reads this
    {
      Breaker.Breaker(threshold, failures, successes, lastFailure, state)
    }

    ghost predicate Valid(clock: Clock)
      reads this, clock
    {
      && Fields() == Breaker.Exec(threshold, trace)
      && Breaker.Timed(trace, clock.now)
      && WellFormed(threshold, trace)
      && sections == |trace| && running == InFlight(threshold, trace)
    }

    constructor (threshold: real)
      ensures this.threshold == threshold && trace == []
      ensures forall clock: Clock :: Valid(clock)
    {
      this.threshold := threshold;
      failures, successes, lastFailure, state := [], [], None, Breaker.Closed;
      sections, running, trace := 0, {}, [];
    }

    /** Adds one finished critical section to the run. */
    method Append(clock: Clock, ghost e: Event)
      requires Breaker.Exec(threshold, trace + [e]) == Fields()
      requires Breaker.Timed(trace, Breaker.Start(e)) && Breaker.Start(e) <= Breaker.End(e) <= clock.now
      requires WellFormed(threshold, trace)
      requires e.Finish? ==> e.call in InFlight(threshold, trace)
      requires sections == |trace| && running == InFlight(threshold, trace + [e])
      modifies this`trace, this`sections
      ensures Valid(clock) && trace == old(trace) + [e]
    {
      Breaker.TimedSnoc(trace, e, clock.now);
      WellFormedSnoc(threshold, trace, e);
      trace := trace + [e];
      sections := sections + 1;
    }

    /**
     beforeAttempt: refused exactly when the run says so, with the error of the
     state it found.
     */
    method BeforeAttempt(clock: Clock) returns (r: Result<(), Error>)
      requires Valid(clock)
      modifies this, clock
      ensures Valid(clock) && clock.now >= old(clock.now)
      ensures trace == old(trace) + [Breaker.Begin(clock.now)]
      ensures r.Err? == Refused(threshold, trace, |old(trace)|)
      ensures r.Err? ==> r.error == CircuitOpen && Fields() == old(Fields())
      ensures old(state) == Breaker.Open ==>
                && LastStamp(old(trace)).Some?
                && (r.Err? <==> clock.now <= LastStamp(old(trace)).value + 30 * SECOND)
      ensures old(state) != Breaker.Open ==> r.Ok?
      ensures r.Ok? ==>
                Fields() == old(Fields()).(state := if old(state) == Breaker.Open then Breaker.HalfOpen else old(state))
    {
      var now := clock.Now();
      ghost var e := Breaker.Begin(now);
      InFlightSnoc(threshold, trace, e);
      Breaker.ExecSnoc(threshold, trace, e);
      Breaker.TimedLater(trace, old(clock.now), now);
      LastFailureIsLastStamp(threshold, trace);
      r := Ok(());
      match state {
        case Open =>
          // A zero lastFailure lies further back than any period.
          if lastFailure.None? || now - lastFailure.value > Breaker.OPEN_PERIOD {
            state := Breaker.HalfOpen;
          } else {
            r := Err(CircuitOpen);
          }
        case HalfOpen =>
        case Closed =>
        case Other(code) =>
          r := Err(InvalidCircuitState(code));
      }
      if r.Ok? {
        running := running + {sections};
      }
      Append(clock, e);
      assert trace[..|old(trace)|] == old(trace);
    }

    /** afterAttempt: records the outcome of the call whose Begin has index call. */
    method AfterAttempt(clock: Clock, call: nat, failed: bool)
      requires Valid(clock) && call in InFlight(threshold, trace)
      modifies this, clock
      ensures Valid(clock) && clock.now >= old(clock.now)
      ensures exists at :: old(clock.now) <= at <= clock.now && (failed ==> at == clock.now) &&
                trace == old(trace) + [Breaker.Finish(call, failed, at, clock.now)]
    {
      if failed {
        RecordFailure(clock, call);
      } else {
        RecordSuccess(clock, call);
      }
    }

    method PruneLocked(now: Time)
      modifies this`failures, this`successes
      ensures Fields() == Breaker.PruneAll(old(Fields()), now)
    {
      var cutoff := now - Breaker.WINDOW;
      failures := PruneBefore(failures, cutoff);
      successes := PruneBefore(successes, cutoff);
    }

    method FailureRateLocked() returns (rate: real)
      ensures rate == Breaker.FailureRate(|failures|, |successes|)
      ensures 0.0 <= rate <= 1.0 && (rate == 0.0 <==> failures == [])
    {
      Breaker.RateBounds(|failures|, |successes|);
      var total := |failures| + |successes|;
      if total == 0 {
        return 0.0;
      }
      rate := |failures| as real / total as real;
    }

    method RecordFailure(clock: Clock, call: nat)
      requires Valid(clock) && call in InFlight(threshold, trace)
      modifies this, clock
      ensures Valid(clock) && clock.now >= old(clock.now)
      ensures trace == old(trace) + [Breaker.Finish(call, true, clock.now, clock.now)]
    {
      var now := clock.Now();
      ghost var e := Breaker.Finish(call, true, now, now);
      InFlightSnoc(threshold, trace, e);
      Breaker.ExecSnoc(threshold, trace, e);
      Breaker.TimedLater(trace, old(clock.now), now);
      failures := failures + [now];
      lastFailure := Some(now);
      PruneLocked(now);

      var failureRate := FailureRateLocked();
      if state == Breaker.Closed && failureRate >= threshold {
        state := Breaker.Open;
      } else if state == Breaker.HalfOpen {
        state := Breaker.Open;
      }
      running := running - {call};
      Append(clock, e);
    }

    method RecordSuccess(clock: Clock, call: nat)
      requires Valid(clock) && call in InFlight(threshold, trace)
      modifies this, clock
      ensures Valid(clock) && clock.now >= old(clock.now)
      ensures exists at :: old(clock.now) <= at <= clock.now &&
                trace == old(trace) + [Breaker.Finish(call, false, at, clock.now)]
    {
      var at := clock.Now();
      Breaker.TimedLater(trace, old(clock.now), at);
      successes := successes + [at];
      var prunedAt := clock.Now();
      ghost var e := Breaker.Finish(call, false, at, prunedAt);
      InFlightSnoc(threshold, trace, e);
      Breaker.ExecSnoc(threshold, trace, e);
      PruneLocked(prunedAt);

      if state == Breaker.HalfOpen {
        state := Breaker.Closed;
        ResetCounters();
      }
      running := running - {call};
      Append(clock, e);
    }

    method ResetCounters()
      modifies this`failures, this`successes
      ensures failures == [] == successes
    {
      failures, successes := [], [];
    }

    /** GetState: one of the three named states, never an invalid one. */
    method GetState(clock: Clock) returns (s: Breaker.CircuitState)
      requires Valid(clock)
      ensures s == Breaker.Exec(threshold, trace).state && !s.Other?
    {
      LastFailureIsLastStamp(threshold, trace);
      s := state;
    }

    /** The rate of the outcomes since the last reset that lie in the last window. */
    method GetFailureRate(clock: Clock) returns (rate: real)
      requires Valid(clock)
      modifies this, clock
      ensures Valid(clock) && clock.now >= old(clock.now)
      ensures trace == old(trace) + [Breaker.Query(clock.now)]
      ensures rate == WindowRate(LedgerExec(threshold, old(trace)).log, clock.now)
      ensures 0.0 <= rate <= 1.0
      ensures rate == 0.0 <==> InWindow(LedgerExec(threshold, old(trace)).log, true, clock.now) == []
    {
      var now := clock.Now();
      ghost var e := Breaker.Query(now);
      InFlightSnoc(threshold, trace, e);
      Breaker.ExecSnoc(threshold, trace, e);
      Breaker.TimedLater(trace, old(clock.now), now);
      ghost var cutoff := RunRefines(threshold, trace, now);
      ObserveRefines(Fields(), LedgerExec(threshold, trace), cutoff, e);
      PruneLocked(now);
      rate := FailureRateLocked();
      Breaker.RateBounds(|InWindow(LedgerExec(threshold, trace).log, true, now)|,
                         |InWindow(LedgerExec(threshold, trace).log, false, now)|);
      Append(clock, e);
    }

    method ForceOpen(clock: Clock)
      requires Valid(clock)
      modifies this, clock
      ensures Valid(clock) && clock.now >= old(clock.now)
      ensures trace == old(trace) + [Breaker.ForceOpen(clock.now)]
    {
      state := Breaker.Open;
      var now := clock.Now();
      lastFailure := Some(now);
      InFlightSnoc(threshold, trace, Breaker.ForceOpen(now));
      Breaker.ExecSnoc(threshold, trace, Breaker.ForceOpen(now));
      Breaker.TimedLater(trace, old(clock.now), now);
      Append(clock, Breaker.ForceOpen(now));
    }

    method ForceClose(clock: Clock)
      requires Valid(clock)
      modifies this
      ensures Valid(clock)
      ensures trace == old(trace) + [Breaker.ForceClose(clock.now)]
    {
      state := Breaker.Closed;
      ResetCounters();
      InFlightSnoc(threshold, trace, Breaker.ForceClose(clock.now));
      Breaker.ExecSnoc(threshold, trace, Breaker.ForceClose(clock.now));
      Append(clock, Breaker.ForceClose(clock.now));
    }

    /**
     Whatever the other goroutines do with the breaker while it is not locked:
     any number of critical sections of any kind, in any order, except that
     nobody else records the outcome of the calls in mine.
     */
    method OtherGoroutines(clock: Clock, mine: set<nat>)
      requires Valid(clock) && mine <= InFlight(threshold, trace)
      modifies this, clock
      ensures Valid(clock) && clock.now >= old(clock.now)
      ensures old(trace) <= trace && mine <= InFlight(threshold, trace)
    {
      var rounds: nat :| rounds >= 0;
      while rounds > 0
        invariant Valid(clock) && clock.now >= old(clock.now)
        invariant old(trace) <= trace && mine <= InFlight(threshold, trace)
      {
        ghost var before := trace;
        var choice: int, failed: bool := *, *;
        var others := running - mine;
        if choice == 0 {
          var r := BeforeAttempt(clock);
        } else if choice == 1 && others != {} {
          var call :| call in others;
          AfterAttempt(clock, call, failed);
        } else if choice == 2 {
          var rate := GetFailureRate(clock);
        } else if choice == 3 {
          var s := GetState(clock);
        } else if choice == 4 {
          ForceOpen(clock);
        } else {
          ForceClose(clock);
        }
        assert trace[..|before|] == before && |trace| <= |before| + 1;
        rounds := rounds - 1;
      }
    }

    /** The first half of Do: admitted unless the run refuses the attempt, which is then named call. */
    method Enter(clock: Clock) returns (admitted: bool, call: nat)
      requires Valid(clock)
      modifies this, clock
      ensures Valid(clock) && clock.now >= old(clock.now)
      ensures trace == old(trace) + [Breaker.Begin(clock.now)] && call == |old(trace)|
      ensures admitted == !Refused(threshold, trace, call)
      ensures admitted ==> call in InFlight(threshold, trace)
    {
      call := sections;
      var r := BeforeAttempt(clock);
      assert trace[..call] == old(trace);
      admitted := r.Ok?;
    }

    /** The second half, once the operation of the admitted attempt has returned: one outcome is recorded. */
    method Leave(clock: Clock, call: nat, failed: bool)
      requires Valid(clock) && call in InFlight(threshold, trace)
      modifies this, clock
      ensures Valid(clock) && clock.now >= old(clock.now)
      ensures old(trace) < trace && Breaker.End(trace[|trace| - 1]) == clock.now
      ensures var last := trace[|trace| - 1]; last.Finish? && last.call == call && last.failed == failed
    {
      OtherGoroutines(clock, {call});
      ghost var before := trace;
      AfterAttempt(clock, call, failed);
      assert trace[..|before|] == before;
    }

    /**
     Do: a refused attempt does not run the operation and returns the breaker's
     error; an admitted one runs it once, without the lock, records its outcome
     once and returns it.
     */
    method Do(clock: Clock, operation: () -> Result<string, Error>)
      returns (r: Result<string, Error>, ran: bool, call: nat)
      requires Valid(clock)
      modifies this, clock
      ensures Valid(clock) && clock.now >= old(clock.now)
      ensures old(trace) <= trace && |old(trace)| <= call < |trace| && trace[call].Begin?
      ensures old(clock.now) <= trace[call].at
      ensures ran == !Refused(threshold, trace, call)
      ensures !ran ==> r == Err(CircuitOpen) && |trace| == call + 1
      ensures ran ==> r == operation()
      ensures ran ==> call + 1 < |trace| && trace[|trace| - 1].Finish? &&
                      trace[|trace| - 1].call == call && trace[|trace| - 1].failed == r.Err?
      ensures Breaker.End(trace[|trace| - 1]) == clock.now
    {
      ran, call := Enter(clock);
      if !ran {
        return Err(CircuitOpen), false, call;
      }
      ghost var begun := trace;
      r := operation();
      Leave(clock, call, r.Err?);
      RefusedKept(threshold, begun, trace, call);
    }
  }

  lemma RefusedKept(threshold: real, es: seq<Event>, fs: seq<Event>, k: nat)
    requires es <= fs && k < |es|
    ensures Refused(threshold, fs, k) == Refused(threshold, es, k)
  {
    assert fs[..k] == es[..k];
  }

  /** pruneBefore: on stamps in order, exactly the stamps that are not before the cutoff. */
  method PruneBefore(ts: seq<Time>, cutoff: Time) returns (r: seq<Time>)
    ensures r == Breaker.Prune(ts, cutoff)
    ensures forall now :: Ascending(ts, now) ==> r == Since(ts, cutoff)
  {
    var i := 0;
    while i < |ts| && ts[i] < cutoff
      invariant 0 <= i <= |ts|
      invariant Breaker.Prune(ts, cutoff) == Breaker.Prune(ts[i..], cutoff)
    {
      i := i + 1;
    }
    forall now | Ascending(ts, now) ensures Breaker.Prune(ts, cutoff) == Since(ts, cutoff) {
      PruneIsSince(ts, cutoff, now);
    }
    if i == 0 {
      return ts;
    }
    return ts[i..];
  }
}
