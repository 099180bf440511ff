/**
 Properties of every run of the circuit breaker: any number of calls, any
 interleaving of their critical sections, late outcomes, forced transitions and
 queries.  Only the order of the clock is assumed (Timed).
 */
module BreakerRuns {
  import opened Common
  import opened Breaker
  import opened Ledger

  // ---- hold-off ---------------------------------------------------------------

  /** The events that set lastFailure: a recorded failure and ForceOpen. */
  predicate IsStamp(e: Event) {
    e.ForceOpen? || (e.Finish? && e.failed)
  }

  /** The time of the last failure or ForceOpen of a run. */
  function LastStamp(es: seq<Event>): Option<Time> {
    if es == [] then None
    else
      var n := |es| - 1;
      if IsStamp(es[n]) then Some(es[n].at) else LastStamp(es[..n])
  }

  /** lastFailure is the time of the run's last failure or ForceOpen; an open breaker has one. */
  lemma {:induction false} LastFailureIsLastStamp(threshold: real, es: seq<Event>)
    ensures Exec(threshold, es).lastFailure == LastStamp(es)
    ensures Exec(threshold, es).state == Open ==> LastStamp(es).Some?
    ensures !Exec(threshold, es).state.Other?
  {
    if es != [] {
      LastFailureIsLastStamp(threshold, es[..|es| - 1]);
    }
  }

  /** Stamps never lie in the future, and a stamp is never lost. */
  lemma {:induction false} LastStampAfter(es: seq<Event>, now: Time, j: nat, k: nat)
    requires Timed(es, now) && j < k <= |es| && IsStamp(es[j])
    ensures LastStamp(es[..k]).Some? && es[j].at <= LastStamp(es[..k]).value
    decreases k
  {
    assert es[..k][..k - 1] == es[..k - 1];
    if j < k - 1 {
      LastStampAfter(es, now, j, k - 1);
      TimesOrdered(es, now, j, k - 1);
      TimedPrefix(es, now, j);
    }
  }

  /**
   Admission at an open breaker, exactly: an attempt gets through if and only if
   more than the open period separates it from the latest failure or ForceOpen
   of the whole run, so every late failure lengthens the wait.  A rejected
   attempt leaves the breaker as it was.
   */
  lemma OpenAdmission(threshold: real, es: seq<Event>, k: nat)
    requires k < |es| && es[k].Begin? && Exec(threshold, es[..k]).state == Open
    ensures LastStamp(es[..k]).Some?
    ensures var before := Exec(threshold, es[..k]);
            var seen := Observe(before, es[k]);
            if es[k].at > LastStamp(es[..k]).value + 30 * SECOND
            then seen == Observation(Admitted, HalfOpen)
            else seen == Observation(Rejected(CircuitOpen), Open) && Exec(threshold, es[..k + 1]) == before
  {
    LastFailureIsLastStamp(threshold, es[..k]);
    ExecStep(threshold, es, k);
  }

  /** A breaker becomes open only by a failure or by ForceOpen. */
  lemma OpensOnlyByStamp(threshold: real, es: seq<Event>, j: nat)
    requires j < |es|
    requires Exec(threshold, es[..j]).state != Open && Exec(threshold, es[..j + 1]).state == Open
    ensures IsStamp(es[j])
  {
    ExecStep(threshold, es, j);
  }

  lemma OpenStep(b: Breaker, e: Event)
    requires b.state == Open && !e.ForceClose?
    requires e.Begin? ==> !PeriodElapsed(b, e.at)
    ensures Step(b, e).state == Open
  {}

  /** One event of the period after the stamp es[j] leaves an open breaker open. */
  lemma OpenStepOfRun(threshold: real, es: seq<Event>, now: Time, j: nat, k: nat)
    requires Timed(es, now) && j < k < |es| && IsStamp(es[j])
    requires Exec(threshold, es[..k]).state == Open && !es[k].ForceClose?
    requires es[k].Begin? ==> es[k].at <= es[j].at + 30 * SECOND
    ensures Exec(threshold, es[..k + 1]).state == Open
  {
    var b := Exec(threshold, es[..k]);
    assert es[k].Begin? ==> !PeriodElapsed(b, es[k].at) by {
      LastStampAfter(es, now, j, k);
      LastFailureIsLastStamp(threshold, es[..k]);
    }
    OpenStep(b, es[k]);
    ExecStep(threshold, es, k);
  }

  /** While nothing forces it closed, an open breaker stays open for the whole period. */
  lemma {:induction false} StaysOpen(threshold: real, es: seq<Event>, now: Time, j: nat, k: nat)
    requires Timed(es, now) && j < k <= |es|
    requires IsStamp(es[j]) && Exec(threshold, es[..j + 1]).state == Open
    requires forall m :: j < m < k ==> !es[m].ForceClose?
    requires forall m :: j < m < k && es[m].Begin? ==> es[m].at <= es[j].at + 30 * SECOND
    ensures Exec(threshold, es[..k]).state == Open
    decreases k
  {
    if j + 1 < k {
      StaysOpen(threshold, es, now, j, k - 1);
      OpenStepOfRun(threshold, es, now, j, k - 1);
    }
  }

  /**
   Hold-off over every interleaving: if a failure or ForceOpen at time T leaves
   the breaker open and no ForceClose follows, every attempt made up to and
   including T + 30s is rejected, whatever the other calls record meanwhile.
   */
  lemma HoldOff(threshold: real, es: seq<Event>, now: Time, j: nat, k: nat)
    requires Timed(es, now) && j < k < |es|
    requires IsStamp(es[j]) && Exec(threshold, es[..j + 1]).state == Open
    requires forall m :: j < m < k ==> !es[m].ForceClose?
    requires es[k].Begin? && es[k].at <= es[j].at + 30 * SECOND
    ensures Observe(Exec(threshold, es[..k]), es[k]) == Observation(Rejected(CircuitOpen), Open)
    ensures Exec(threshold, es[..k + 1]) == Exec(threshold, es[..k])
  {
    forall m | j < m < k && es[m].Begin? ensures es[m].at <= es[j].at + 30 * SECOND {
      TimesOrdered(es, now, m, k);
    }
    StaysOpen(threshold, es, now, j, k);
    LastStampAfter(es, now, j, k);
    OpenAdmission(threshold, es, k);
  }

  /** The same from the moment the breaker becomes open, however it became so. */
  lemma HoldOffOnceOpen(threshold: real, es: seq<Event>, now: Time, j: nat, k: nat)
    requires Timed(es, now) && j < k < |es|
    requires Exec(threshold, es[..j]).state != Open && Exec(threshold, es[..j + 1]).state == Open
    requires forall m :: j < m < k ==> !es[m].ForceClose?
    requires es[k].Begin? && es[k].at <= es[j].at + 30 * SECOND
    ensures Observe(Exec(threshold, es[..k]), es[k]) == Observation(Rejected(CircuitOpen), Open)
  {
    OpensOnlyByStamp(threshold, es, j);
    HoldOff(threshold, es, now, j, k);
  }

  // ---- transitions ------------------------------------------------------------

  predicate Forced(e: Event) { e.ForceOpen? || e.ForceClose? }

  /**
   The unforced transitions, exactly: when each of the four happens, and that
   nothing else changes the state.  A success closes a half-open breaker even if
   its attempt was admitted before the breaker tripped.
   */
  lemma LegalTransitions(threshold: real, es: seq<Event>, now: Time, k: nat)
    requires Timed(es, now) && k < |es| && !Forced(es[k])
    ensures var b, c, e := Exec(threshold, es[..k]), Exec(threshold, es[..k + 1]), es[k];
            var log := LedgerExec(threshold, es[..k]).log;
            var trips := e.Finish? && e.failed && Trips(threshold, log + [Outcome(true, e.at)], e.at);
            var probes := e.Begin? && LastStamp(es[..k]).Some? && e.at > LastStamp(es[..k]).value + 30 * SECOND;
            match b.state
            case Closed => c.state == if trips then Open else Closed
            case Open => c.state == if probes then HalfOpen else Open
            case HalfOpen => c.state == if e.Finish? then (if e.failed then Open else Closed) else HalfOpen
            case Other(_) => false
  {
    ExecStep(threshold, es, k);
    LastFailureIsLastStamp(threshold, es[..k]);
    TimedPrefix(es, now, k);
    var cutoff := RunRefines(threshold, es[..k], Start(es[k]));
    StepRefines(Exec(threshold, es[..k]), LedgerExec(threshold, es[..k]), cutoff, es[k]);
    LedgerThreshold(threshold, es[..k]);
  }

  lemma {:induction false} LedgerThreshold(threshold: real, es: seq<Event>)
    ensures LedgerExec(threshold, es).threshold == threshold
  {
    if es != [] {
      LedgerThreshold(threshold, es[..|es| - 1]);
    }
  }

  /** The branch for an invalid state is unreachable: no call is ever refused that way. */
  lemma NeverInvalid(threshold: real, es: seq<Event>, k: nat)
    requires k < |es|
    ensures Observe(Exec(threshold, es[..k]), es[k]).answer.Rejected?
       ==> Observe(Exec(threshold, es[..k]), es[k]).answer == Rejected(CircuitOpen)
  {
    LastFailureIsLastStamp(threshold, es[..k]);
  }

  /** Closed is entered, or re-entered by force, with empty windows only. */
  lemma ClosedStartsEmpty(threshold: real, es: seq<Event>, k: nat)
    requires k < |es| && Exec(threshold, es[..k + 1]).state == Closed
    requires Exec(threshold, es[..k]).state != Closed || es[k].ForceClose?
    ensures Exec(threshold, es[..k + 1]).failures == [] == Exec(threshold, es[..k + 1]).successes
  {
    ExecStep(threshold, es, k);
  }

  // ---- the trip condition -----------------------------------------------------

  /** Every failure of the log left the rate over its own window below the threshold. */
  ghost predicate EveryFailureBelow(threshold: real, log: seq<Outcome>) {
    forall i :: 0 <= i < |log| && log[i].failed ==> !Trips(threshold, log[..i + 1], log[i].at)
  }

  /**
   While closed, every failure recorded since Closed was entered left the rate
   over its own 60s window below the threshold.
   */
  lemma {:induction false} ClosedHistoryBelow(threshold: real, es: seq<Event>)
    ensures LedgerExec(threshold, es).state == Closed ==>
              EveryFailureBelow(threshold, LedgerExec(threshold, es).log)
  {
    if es != [] {
      hide EveryFailureBelow, LedgerStep;
      var n := |es| - 1;
      ClosedHistoryBelow(threshold, es[..n]);
      LedgerThreshold(threshold, es[..n]);
      StillBelow(LedgerExec(threshold, es[..n]), es[n]);
    }
  }

  lemma StillBelow(l: Ledger, e: Event)
    requires l.state == Closed ==> EveryFailureBelow(l.threshold, l.log)
    ensures LedgerStep(l, e).state == Closed ==> EveryFailureBelow(l.threshold, LedgerStep(l, e).log)
  {
    if e.Finish? && l.state == Closed && LedgerStep(l, e).state == Closed {
      BelowSnoc(l.threshold, l.log, Outcome(e.failed, e.at));
    }
  }

  lemma BelowSnoc(threshold: real, log: seq<Outcome>, o: Outcome)
    requires EveryFailureBelow(threshold, log) && (o.failed ==> !Trips(threshold, log + [o], o.at))
    ensures EveryFailureBelow(threshold, log + [o])
  {
    hide Trips;
    var more, n := log + [o], |log|;
    forall i | 0 <= i < |more| && more[i].failed ensures !Trips(threshold, more[..i + 1], more[i].at) {
      assert i < n ==> more[..i + 1] == log[..i + 1];
      assert i == n ==> more[..i + 1] == more;
    }
  }

  /** The trip condition in whole numbers: failures against threshold * total. */
  lemma TripsCounts(threshold: real, log: seq<Outcome>, at: Time)
    requires log != [] && log[|log| - 1] == Outcome(true, at)
    ensures var f, s := |InWindow(log, true, at)|, |InWindow(log, false, at)|;
            f > 0 && (Trips(threshold, log, at) <==> f as real >= threshold * (f + s) as real)
  {
    hide InWindow;
    LastInWindow(log, at);
    RateReaches(|InWindow(log, true, at)|, |InWindow(log, false, at)|, threshold);
  }

  lemma LastInWindow(log: seq<Outcome>, at: Time)
    requires log != [] && log[|log| - 1] == Outcome(true, at)
    ensures InWindow(log, true, at) != [] && InWindow(log, true, at + 60 * SECOND) != []
  {
    var ts := Stamps(log, true);
    assert ts[|ts| - 1] == at;
    SinceKeepsLast(ts, at - 60 * SECOND);
    SinceKeepsLast(ts, at);
  }

  lemma SinceKeepsLast(ts: seq<Time>, cutoff: Time)
    requires ts != [] && ts[|ts| - 1] >= cutoff
    ensures Since(ts, cutoff) != []
  {}

  lemma RateAtMostOne(failures: nat, successes: nat, threshold: real)
    requires threshold > 1.0
    ensures FailureRate(failures, successes) < threshold
  {
    if failures + successes > 0 {
      RateReaches(failures, successes, threshold);
      assert (threshold - 1.0) * (failures + successes) as real > 0.0;
    }
  }

  /** With a threshold above one and no ForceOpen the breaker never leaves Closed. */
  lemma {:induction false} AboveOneNeverTrips(threshold: real, es: seq<Event>)
    requires threshold > 1.0 && forall k :: 0 <= k < |es| ==> !es[k].ForceOpen?
    ensures Exec(threshold, es).state == Closed && Exec(threshold, es).threshold == threshold
  {
    if es != [] {
      var n := |es| - 1;
      AboveOneNeverTrips(threshold, es[..n]);
      var e := es[n];
      if e.Finish? && e.failed {
        var b := Exec(threshold, es[..n]);
        var c := PruneAll(b.(failures := b.failures + [e.at], lastFailure := Some(e.at)), e.at);
        RateAtMostOne(|c.failures|, |c.successes|, threshold);
      }
    }
  }

  /**
   "Closed means the rate is below the threshold" is not what the code keeps: the
   rate is only tested when a failure is recorded, and it rises without a test
   when successes age out of the window.
   */
  lemma ClosedRateCanReachThreshold()
    ensures var es := AgeingRun();
            && Timed(es, 61 * SECOND) && WellFormed(0.5, es)
            && Exec(0.5, es).state == Closed
            && RateAt(Exec(0.5, es), 61 * SECOND) == 1.0
  {
    AgeingRunStates();
    var ts := [0, 0];
    assert ts[1..] == [0] && [0][1..] == [];
    assert Prune(ts[1..], SECOND) == [];
  }

  /** Two successes, then a failure 30s later. */
  function AgeingRun(): seq<Event> {
    [Begin(0), Finish(0, false, 0, 0), Begin(0), Finish(2, false, 0, 0),
     Begin(30 * SECOND), Finish(4, true, 30 * SECOND, 30 * SECOND)]
  }

  lemma AgeingRunStates()
    ensures Timed(AgeingRun(), 61 * SECOND) && WellFormed(0.5, AgeingRun())
    ensures Exec(0.5, AgeingRun()) == Breaker(0.5, [30 * SECOND], [0, 0], Some(30 * SECOND), Closed)
  {
    hide Exec, Timed, WellFormed, InFlight;
    Fresh(0.5);
    var es, b := Attempted([], 0, New(0.5), false, 0);
    es, b := Attempted(es, 0, b, false, 0);
    es, b := Attempted(es, 0, b, true, 30 * SECOND);
    TimedLater(es, 30 * SECOND, 61 * SECOND);
    assert es == AgeingRun();
  }

  lemma Fresh(threshold: real)
    ensures Exec(threshold, []) == New(threshold) && Timed([], 0) && WellFormed(threshold, [])
  {}

  /** A closed breaker records one more attempt, begun and finished at the same time. */
  lemma Attempted(es: seq<Event>, now: Time, b: Breaker, failed: bool, at: Time) returns (fs: seq<Event>, c: Breaker)
    requires Timed(es, now) && WellFormed(b.threshold, es) && Exec(b.threshold, es) == b
    requires b.state == Closed && now <= at
    ensures fs == es + [Begin(at), Finish(|es|, failed, at, at)] && c == Step(b, Finish(|es|, failed, at, at))
    ensures Timed(fs, at) && WellFormed(b.threshold, fs) && Exec(b.threshold, fs) == c
  {
    var e, f := Begin(at), Finish(|es|, failed, at, at);
    var begun := es + [e];
    TimedLater(es, now, at);
    TimedSnoc(es, e, at);
    TimedSnoc(begun, f, at);
    ExecSnoc(b.threshold, es, e);
    ExecSnoc(b.threshold, begun, f);
    assert begun[..|es|] == es;
    assert |es| in InFlight(b.threshold, begun);
    WellFormedSnoc(b.threshold, es, e);
    WellFormedSnoc(b.threshold, begun, f);
    fs, c := begun + [f], Step(b, f);
    assert fs == es + [e, f];
  }

  /** The rate that GetFailureRate answers at a given time. */
  function RateAt(b: Breaker, at: Time): real {
    FailureRate(|PruneAll(b, at).failures|, |PruneAll(b, at).successes|)
  }

  /** If nothing more is recorded, GetFailureRate answers less than the threshold for ever. */
  ghost predicate StaysBelow(b: Breaker, now: Time) {
    forall later :: later >= now ==> RateAt(b, later) < b.threshold
  }

  /** The rate is below the threshold at each moment at which a failure of the window is about to leave it. */
  ghost predicate BelowAtLeaving(threshold: real, log: seq<Outcome>, now: Time) {
    forall t :: t in InWindow(log, true, now) ==> WindowRate(log, t + 60 * SECOND) < threshold
  }

  /**
   When the rate does stay below the threshold, exactly: if and only if it is below
   at the finitely many moments at which a failure is about to leave the window.
   */
  lemma StaysBelowExactly(threshold: real, es: seq<Event>, now: Time)
    requires Timed(es, now) && threshold > 0.0
    ensures StaysBelow(Exec(threshold, es), now) <==> BelowAtLeaving(threshold, LedgerExec(threshold, es).log, now)
  {
    var b, log := Exec(threshold, es), LedgerExec(threshold, es).log;
    ThresholdKept(threshold, es);
    RatesAreWindowRates(threshold, es, now);
    LogStaysBelow(b, log, now);
  }

  lemma RatesAreWindowRates(threshold: real, es: seq<Event>, now: Time)
    requires Timed(es, now)
    ensures forall later :: later >= now ==>
              RateAt(Exec(threshold, es), later) == WindowRate(LedgerExec(threshold, es).log, later)
  {
    hide RateAt, WindowRate;
    forall later | later >= now
      ensures RateAt(Exec(threshold, es), later) == WindowRate(LedgerExec(threshold, es).log, later)
    {
      RateAtIsWindowRate(threshold, es, now, later);
    }
  }

  lemma {:induction false} ThresholdKept(threshold: real, es: seq<Event>)
    ensures Exec(threshold, es).threshold == threshold
  {
    if es != [] {
      ThresholdKept(threshold, es[..|es| - 1]);
    }
  }

  lemma LogStaysBelow(b: Breaker, log: seq<Outcome>, now: Time)
    requires b.threshold > 0.0 && forall later :: later >= now ==> RateAt(b, later) == WindowRate(log, later)
    ensures StaysBelow(b, now) <==> BelowAtLeaving(b.threshold, log, now)
  {
    hide RateAt, WindowRate, InWindow;
    if BelowAtLeaving(b.threshold, log, now) {
      forall later | later >= now ensures RateAt(b, later) < b.threshold {
        BelowUntilLeaving(b.threshold, log, now, later);
      }
    }
    if StaysBelow(b, now) {
      forall t | t in InWindow(log, true, now) ensures WindowRate(log, t + 60 * SECOND) < b.threshold {
        InWindowSince(log, now, t);
        assert RateAt(b, t + 60 * SECOND) < b.threshold;
      }
    }
  }

  lemma InWindowSince(log: seq<Outcome>, now: Time, t: Time)
    requires t in InWindow(log, true, now)
    ensures t + 60 * SECOND >= now
  {
    SinceMembers(Stamps(log, true), now - 60 * SECOND);
  }

  lemma BelowUntilLeaving(threshold: real, log: seq<Outcome>, now: Time, later: Time)
    requires threshold > 0.0 && now <= later && BelowAtLeaving(threshold, log, now)
    ensures WindowRate(log, later) < threshold
  {
    var ts := Stamps(log, true);
    SinceMembers(ts, now - 60 * SECOND);
    if InWindow(log, true, later) != [] {
      SinceMembers(ts, later - 60 * SECOND);
      assert InWindow(log, true, later)[0] in InWindow(log, true, later);
      var t := Earliest(ts, later - 60 * SECOND, InWindow(log, true, later)[0]);
      SinceFirst(ts, later - 60 * SECOND, t);
      assert t in InWindow(log, true, now);
      BelowBeforeLeaving(threshold, log, later, t);
    }
  }

  /**
   In particular every failure that leaves the breaker closed is an instance: if
   all successes are earlier, 60s after it the rate is 1.
   */
  lemma LoneFailureReachesOne(log: seq<Outcome>, at: Time)
    requires log != [] && log[|log| - 1] == Outcome(true, at)
    requires forall i :: 0 <= i < |log| && !log[i].failed ==> log[i].at < at
    ensures WindowRate(log, at + 60 * SECOND) == 1.0
  {
    SuccessesBefore(log, at);
    LastInWindow(log, at);
    RateOfFailures(|InWindow(log, true, at + 60 * SECOND)|);
  }

  lemma RateOfFailures(failures: nat)
    requires failures > 0
    ensures FailureRate(failures, 0) == 1.0
  {
    var f := failures as real;
    assert f / f == 1.0;
  }

  /**
   Every failure that a closed breaker tolerates leads there, unless a success is
   as late: 60s after the failure, with nothing more recorded, the breaker is
   closed at rate 1.
   */
  lemma ToleratedFailureReachesOne(threshold: real, es: seq<Event>, now: Time)
    requires Timed(es, now) && es != [] && es[|es| - 1].Finish? && es[|es| - 1].failed
    requires Exec(threshold, es).state == Closed
    requires forall t :: t in Exec(threshold, es).successes ==> t < es[|es| - 1].at
    ensures RateAt(Exec(threshold, es), es[|es| - 1].at + 60 * SECOND) == 1.0
  {
    var n := |es| - 1;
    var at, log := es[n].at, LedgerExec(threshold, es).log;
    var cutoff := RunRefines(threshold, es, now);
    TimedPrefix(es, now, n);
    assert es[..n + 1] == es;
    RateAtIsWindowRate(threshold, es, at, at + 60 * SECOND);
    LedgerExecSnoc(threshold, es);
    SinceMembers(Stamps(log, false), cutoff);
    StampsMembers(log, false);
    LoneFailureReachesOne(log, at);
  }

  lemma LedgerExecSnoc(threshold: real, es: seq<Event>)
    requires es != [] && es[|es| - 1].Finish? && es[|es| - 1].failed
    ensures LedgerExec(threshold, es).log
         == LedgerExec(threshold, es[..|es| - 1]).log + [Outcome(true, es[|es| - 1].at)]
  {}

  lemma {:induction false} StampsMembers(log: seq<Outcome>, failed: bool)
    ensures forall i :: 0 <= i < |log| && log[i].failed == failed ==> log[i].at in Stamps(log, failed)
  {
    if log != [] {
      StampsMembers(log[..|log| - 1], failed);
    }
  }

  lemma {:induction false} SuccessesBefore(log: seq<Outcome>, at: Time)
    requires forall i :: 0 <= i < |log| && !log[i].failed ==> log[i].at < at
    ensures Since(Stamps(log, false), at) == []
  {
    if log != [] {
      var n := |log| - 1;
      SuccessesBefore(log[..n], at);
      var ts := Stamps(log[..n], false);
      if log[n].failed {
        assert Stamps(log, false) == ts;
      } else {
        assert Stamps(log, false)[..|ts|] == ts;
      }
    }
  }

  lemma RateAtIsWindowRate(threshold: real, es: seq<Event>, now: Time, later: Time)
    requires Timed(es, now) && now <= later
    ensures RateAt(Exec(threshold, es), later) == WindowRate(LedgerExec(threshold, es).log, later)
  {
    TimedLater(es, now, later);
    var cutoff := RunRefines(threshold, es, later);
    ObserveRefines(Exec(threshold, es), LedgerExec(threshold, es), cutoff, Query(later));
  }

  lemma {:induction false} SinceMembers(ts: seq<Time>, cutoff: Time)
    ensures forall t :: t in Since(ts, cutoff) <==> t in ts && t >= cutoff
  {
    if ts != [] {
      var n := |ts| - 1;
      SinceMembers(ts[..n], cutoff);
      assert ts == ts[..n] + [ts[n]];
    }
  }

  /** The earliest stamp that is not before the cutoff, if some stamp is not. */
  lemma {:induction false} Earliest(ts: seq<Time>, cutoff: Time, some: Time) returns (first: Time)
    requires some in ts && cutoff <= some
    ensures first in ts && cutoff <= first
    ensures forall t :: t in ts && cutoff <= t ==> first <= t
  {
    var n := |ts| - 1;
    var last := ts[n];
    assert ts == ts[..n] + [last];
    if t :| t in ts[..n] && cutoff <= t {
      first := Earliest(ts[..n], cutoff, t);
      first := if cutoff <= last < first then last else first;
    } else {
      first := last;
    }
  }

  /** No stamp lies between the two cutoffs. */
  lemma {:induction false} SinceFirst(ts: seq<Time>, cutoff: Time, first: Time)
    requires cutoff <= first && forall t :: t in ts && cutoff <= t ==> first <= t
    ensures Since(ts, cutoff) == Since(ts, first)
  {
    if ts != [] {
      var n := |ts| - 1;
      assert forall t :: t in ts[..n] ==> t in ts;
      assert ts[n] in ts;
      SinceFirst(ts[..n], cutoff, first);
    }
  }

  /** Until its next failure leaves, the window loses nothing but successes. */
  lemma BelowBeforeLeaving(threshold: real, log: seq<Outcome>, now: Time, t: Time)
    requires threshold > 0.0 && now - 60 * SECOND <= t
    requires InWindow(log, true, t + 60 * SECOND) == InWindow(log, true, now)
    requires WindowRate(log, t + 60 * SECOND) < threshold
    ensures WindowRate(log, now) < threshold
  {
    SinceSince(Stamps(log, false), now - 60 * SECOND, t);
    var f := |InWindow(log, true, now)|;
    RateFalls(f, |InWindow(log, false, t + 60 * SECOND)|, f, |InWindow(log, false, now)|, threshold);
  }

  function Product(x: real, y: real): real { x * y }

  lemma ProductGrows(a: real, x: real, y: real)
    requires a >= 0.0 && x <= y
    ensures Product(a, x) <= Product(a, y)
  {
    assert a * (y - x) >= 0.0;
  }

  /** Failures below t of all, as the part 1 - t of the failures below the part t of the successes. */
  lemma SplitShare(t: real, f: real, s: real)
    ensures f < Product(t, f + s) <==> Product(1.0 - t, f) < Product(t, s)
  {
    assert t * (f + s) == t * f + t * s;
    assert (1.0 - t) * f == f - t * f;
  }

  lemma FewerFailures(t: real, f0: real, s0: real, f: real, s: real)
    requires 0.0 < t <= 1.0 && f <= f0 && s0 <= s
    requires f0 < Product(t, f0 + s0)
    ensures f < Product(t, f + s)
  {
    hide Product;
    calc {
      Product(1.0 - t, f);
    <= { ProductGrows(1.0 - t, f, f0); }
      Product(1.0 - t, f0);
    <  { SplitShare(t, f0, s0); }
      Product(t, s0);
    <= { ProductGrows(t, s0, s); }
      Product(t, s);
    }
    SplitShare(t, f, s);
  }

  lemma RateFalls(f0: nat, s0: nat, f: nat, s: nat, threshold: real)
    requires threshold > 0.0 && f <= f0 && s >= s0
    requires FailureRate(f0, s0) < threshold
    ensures FailureRate(f, s) < threshold
  {
    if threshold > 1.0 {
      RateAtMostOne(f, s, threshold);
    } else if f > 0 {
      RateReaches(f0, s0, threshold);
      RateReaches(f, s, threshold);
      assert (f0 + s0) as real == f0 as real + s0 as real;
      assert (f + s) as real == f as real + s as real;
      FewerFailures(threshold, f0 as real, s0 as real, f as real, s as real);
    }
  }

  lemma BelowAfterFailure(threshold: real, log: seq<Outcome>, now: Time)
    requires threshold > 0.0 && log != [] && log[|log| - 1].at <= now
    requires WindowRate(log, log[|log| - 1].at) < threshold
    requires forall i :: 0 <= i < |log| && !log[i].failed ==> log[i].at >= now - 60 * SECOND
    ensures WindowRate(log, now) < threshold
  {
    var at := log[|log| - 1].at;
    WindowMoves(log, at, now);
    RateFalls(|InWindow(log, true, at)|, |InWindow(log, false, at)|,
              |InWindow(log, true, now)|, |InWindow(log, false, now)|, threshold);
  }

  lemma BelowAfterSuccess(threshold: real, log: seq<Outcome>, now: Time)
    requires threshold > 0.0 && log != [] && !log[|log| - 1].failed && log[|log| - 1].at >= now - 60 * SECOND
    requires WindowRate(log[..|log| - 1], now) < threshold
    ensures WindowRate(log, now) < threshold
  {
    AppendedSuccess(log, now);
    var f, s := |InWindow(log, true, now)|, |InWindow(log, false, now)|;
    RateFalls(f, s - 1, f, s, threshold);
  }

  /**
   What holds instead: as long as no success recorded since Closed was entered
   has aged out, the rate stays below the threshold at every later time.
   */
  lemma {:induction false} BelowUntilSuccessAges(threshold: real, log: seq<Outcome>, now: Time)
    requires threshold > 0.0 && EveryFailureBelow(threshold, log)
    requires forall i :: 0 <= i < |log| ==> log[i].at <= now
    requires forall i :: 0 <= i < |log| && !log[i].failed ==> log[i].at >= now - 60 * SECOND
    ensures WindowRate(log, now) < threshold
  {
    if log != [] {
      var n := |log| - 1;
      if log[n].failed {
        assert log[..n + 1] == log;
        assert !Trips(threshold, log[..n + 1], log[n].at);
        BelowAfterFailure(threshold, log, now);
      } else {
        EveryFailureBelowPrefix(threshold, log, n);
        BelowUntilSuccessAges(threshold, log[..n], now);
        BelowAfterSuccess(threshold, log, now);
      }
    }
  }

  /**
   For the breaker: closed after a run, it answers less than the threshold for as
   long as no success recorded since it was closed has left the window.
   */
  lemma ClosedStaysBelow(threshold: real, es: seq<Event>, now: Time, later: Time)
    requires Timed(es, now) && now <= later && threshold > 0.0 && Exec(threshold, es).state == Closed
    requires forall t :: t in Stamps(LedgerExec(threshold, es).log, false) ==> t >= later - 60 * SECOND
    ensures RateAt(Exec(threshold, es), later) < threshold
  {
    var log := LedgerExec(threshold, es).log;
    var cutoff := RunRefines(threshold, es, now);
    ClosedHistoryBelow(threshold, es);
    StampsMembers(log, false);
    LogBefore(log, now);
    RateAtIsWindowRate(threshold, es, now, later);
    BelowUntilSuccessAges(threshold, log, later);
  }

  lemma LogBefore(log: seq<Outcome>, now: Time)
    requires Ascending(Stamps(log, true), now) && Ascending(Stamps(log, false), now)
    ensures forall i :: 0 <= i < |log| ==> log[i].at <= now
  {
    StampsMembers(log, true);
    StampsMembers(log, false);
    AscendingBound(Stamps(log, true), now);
    AscendingBound(Stamps(log, false), now);
    forall i | 0 <= i < |log| ensures log[i].at <= now {
      assert log[i].at in Stamps(log, log[i].failed);
    }
  }

  lemma AscendingBound(ts: seq<Time>, now: Time)
    requires Ascending(ts, now)
    ensures forall t :: t in ts ==> t <= now
  {
    forall i | 0 <= i < |ts| ensures ts[i] <= now {
      AscendingAt(ts, now, i);
    }
  }

  lemma EveryFailureBelowPrefix(threshold: real, log: seq<Outcome>, n: nat)
    requires EveryFailureBelow(threshold, log) && n <= |log|
    ensures EveryFailureBelow(threshold, log[..n])
  {
    forall i | 0 <= i < n && log[..n][i].failed
      ensures !Trips(threshold, log[..n][..i + 1], log[..n][i].at)
    {
      assert log[..n][..i + 1] == log[..i + 1];
    }
  }

  /** Moving the window on loses failures only, if no success ages out. */
  lemma WindowMoves(log: seq<Outcome>, at: Time, now: Time)
    requires at <= now
    requires forall i :: 0 <= i < |log| && !log[i].failed ==> log[i].at >= now - 60 * SECOND
    ensures |InWindow(log, true, now)| <= |InWindow(log, true, at)|
    ensures InWindow(log, false, now) == InWindow(log, false, at)
  {
    SinceSince(Stamps(log, true), at - 60 * SECOND, now - 60 * SECOND);
    StampsWithin(log, false, now - 60 * SECOND);
    SinceEverything(Stamps(log, false), now - 60 * SECOND);
    SinceEverything(Stamps(log, false), at - 60 * SECOND);
  }

  lemma {:induction false} StampsWithin(log: seq<Outcome>, failed: bool, cutoff: Time)
    requires forall i :: 0 <= i < |log| && log[i].failed == failed ==> log[i].at >= cutoff
    ensures forall i :: 0 <= i < |Stamps(log, failed)| ==> Stamps(log, failed)[i] >= cutoff
  {
    if log != [] {
      StampsWithin(log[..|log| - 1], failed, cutoff);
    }
  }

  lemma AppendedSuccess(log: seq<Outcome>, now: Time)
    requires log != [] && !log[|log| - 1].failed && log[|log| - 1].at >= now - 60 * SECOND
    ensures InWindow(log, true, now) == InWindow(log[..|log| - 1], true, now)
    ensures InWindow(log, false, now) == InWindow(log[..|log| - 1], false, now) + [log[|log| - 1].at]
  {
    var n := |log| - 1;
    var ts := Stamps(log[..n], false);
    assert (ts + [log[n].at])[..|ts|] == ts;
    assert Stamps(log[..n], true) + [] == Stamps(log[..n], true);
  }

  // ---- calls in flight ----------------------------------------------------------

  predicate Refused(threshold: real, es: seq<Event>, k: nat)
    requires k < |es|
  {
    es[k].Begin? && Observe(Exec(threshold, es[..k]), es[k]).answer.Rejected?
  }

  /** The calls, named by the index of their Begin, that are admitted and not yet recorded. */
  function InFlight(threshold: real, es: seq<Event>): set<nat> {
    if es == [] then {}
    else
      var n := |es| - 1;
      var before := InFlight(threshold, es[..n]);
      match es[n]
      case Begin(_) => if Refused(threshold, es, n) then before else before + {n}
      case Finish(call, _, _, _) => before - {call}
      case _ => before
  }

  lemma InFlightSnoc(threshold: real, es: seq<Event>, e: Event)
    ensures InFlight(threshold, es + [e]) ==
              if e.Finish? then InFlight(threshold, es) - {e.call}
              else if e.Begin? && !Refused(threshold, es + [e], |es|) then InFlight(threshold, es) + {|es|}
              else InFlight(threshold, es)
  {
    assert (es + [e])[..|es|] == es;
  }

  /** Do records each admitted attempt once: every Finish belongs to a call in flight. */
  predicate WellFormed(threshold: real, es: seq<Event>) {
    forall k :: 0 <= k < |es| && es[k].Finish? ==> es[k].call in InFlight(threshold, es[..k])
  }

  lemma WellFormedPrefix(threshold: real, es: seq<Event>, k: nat)
    requires WellFormed(threshold, es) && k <= |es|
    ensures WellFormed(threshold, es[..k])
  {
    forall m | 0 <= m < k && es[..k][m].Finish?
      ensures es[..k][m].call in InFlight(threshold, es[..k][..m])
    {
      assert es[..k][..m] == es[..m];
    }
  }

  lemma WellFormedSnoc(threshold: real, es: seq<Event>, e: Event)
    requires WellFormed(threshold, es)
    requires e.Finish? ==> e.call in InFlight(threshold, es)
    ensures WellFormed(threshold, es + [e])
  {
    var fs := es + [e];
    forall k | 0 <= k < |fs| && fs[k].Finish? ensures fs[k].call in InFlight(threshold, fs[..k]) {
      assert fs[..k] == es[..k];
      assert k == |es| ==> es[..k] == es;
    }
  }

  /** Call j was admitted and nothing has recorded its outcome. */
  predicate Pending(threshold: real, es: seq<Event>, j: nat) {
    && j < |es| && es[j].Begin? && !Refused(threshold, es, j)
    && forall k :: j < k < |es| && es[k].Finish? ==> es[k].call != j
  }

  lemma PendingSnoc(threshold: real, es: seq<Event>, j: nat)
    requires es != []
    ensures var n := |es| - 1;
            Pending(threshold, es, j) ==
              if j < n then Pending(threshold, es[..n], j) && !(es[n].Finish? && es[n].call == j)
              else j == n && es[n].Begin? && !Refused(threshold, es, n)
  {
    var n := |es| - 1;
    if j < n {
      assert es[..n][..j] == es[..j];
      assert forall k :: 0 <= k < n ==> es[..n][k] == es[k];
      if Pending(threshold, es[..n], j) && !(es[n].Finish? && es[n].call == j) {
        forall k | j < k < |es| && es[k].Finish? ensures es[k].call != j {
          assert k < n ==> es[..n][k] == es[k];
        }
      }
    }
  }

  /**
   The fate of every call, exactly: in flight from its admission until the one
   Finish that records it.
   */
  lemma {:induction false} FateOfCalls(threshold: real, es: seq<Event>)
    requires WellFormed(threshold, es)
    ensures forall j: nat :: j in InFlight(threshold, es) <==> Pending(threshold, es, j)
  {
    if es != [] {
      var n := |es| - 1;
      WellFormedPrefix(threshold, es, n);
      FateOfCalls(threshold, es[..n]);
      forall j: nat ensures j in InFlight(threshold, es) <==> Pending(threshold, es, j) {
        PendingSnoc(threshold, es, j);
        assert j in InFlight(threshold, es[..n]) <==> Pending(threshold, es[..n], j);
      }
    }
  }

  /** No call is recorded twice. */
  lemma RecordedOnce(threshold: real, es: seq<Event>, k: nat, m: nat)
    requires WellFormed(threshold, es) && k < m < |es| && es[k].Finish? && es[m].Finish?
    ensures es[k].call != es[m].call
  {
    WellFormedPrefix(threshold, es, m);
    WellFormedPrefix(threshold, es, k);
    FateOfCalls(threshold, es[..m]);
    FateOfCalls(threshold, es[..k]);
    assert es[..m][k] == es[k];
  }
}
