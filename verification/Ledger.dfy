/**
 A reference breaker that never prunes: it keeps every outcome since the last
 reset in one log and filters the log whenever a rate is needed.  The breaker of
 resilience.go, whose two slices are pruned destructively by whoever happens to
 take the lock, is shown to be indistinguishable from it.
 */
module Ledger {
  import opened Common
  import opened Breaker

  datatype Outcome = Outcome(failed: bool, at: Time)

  datatype Ledger = Ledger(threshold: real, log: seq<Outcome>, lastFailure: Option<Time>, state: CircuitState)

  /** The stamps of one kind of outcome, in the order of the log. */
  function Stamps(log: seq<Outcome>, failed: bool): (ts: seq<Time>)
    ensures |ts| <= |log|
  {
    if log == [] then []
    else
      var n := |log| - 1;
      Stamps(log[..n], failed) + if log[n].failed == failed then [log[n].at] else []
  }

  /** The stamps that are not before the cutoff. */
  function Since(ts: seq<Time>, cutoff: Time): (r: seq<Time>)
    ensures |r| <= |ts|
  {
    if ts == [] then []
    else
      var n := |ts| - 1;
      Since(ts[..n], cutoff) + if ts[n] >= cutoff then [ts[n]] else []
  }

  /** The outcomes of one kind inside the rolling window that ends at now. */
  function InWindow(log: seq<Outcome>, failed: bool, now: Time): seq<Time> {
    Since(Stamps(log, failed), now - 60 * SECOND)
  }

  function WindowRate(log: seq<Outcome>, now: Time): real {
    FailureRate(|InWindow(log, true, now)|, |InWindow(log, false, now)|)
  }

  /** A log whose last outcome is a failure at time at reaches the threshold. */
  predicate Trips(threshold: real, log: seq<Outcome>, at: Time) {
    WindowRate(log, at) >= threshold
  }

  function NewLedger(threshold: real): Ledger {
    Ledger(threshold, [], None, Closed)
  }

  predicate Ripe(l: Ledger, now: Time) {
    l.lastFailure.None? || now - l.lastFailure.value > 30 * SECOND
  }

  /** Only Finish and the two Force events change the log; queries change nothing. */
  function LedgerStep(l: Ledger, e: Event): Ledger {
    match e
    case Begin(now) => if l.state == Open && Ripe(l, now) then l.(state := HalfOpen) else l
    case Finish(_, true, now, _) =>
      var log := l.log + [Outcome(true, now)];
      var state :=
        if (l.state == Closed && Trips(l.threshold, log, now)) || l.state == HalfOpen then Open else l.state;
      l.(log := log, lastFailure := Some(now), state := state)
    case Finish(_, false, now, _) =>
      if l.state == HalfOpen then l.(log := [], state := Closed)
      else l.(log := l.log + [Outcome(false, now)])
    case Query(_) => l
    case ForceOpen(now) => l.(state := Open, lastFailure := Some(now))
    case ForceClose(_) => l.(log := [], state := Closed)
  }

  function LedgerObserve(l: Ledger, e: Event): Observation {
    var answer :=
      match e
      case Begin(now) =>
        (match l.state
         case Open => if Ripe(l, now) then Admitted else Rejected(CircuitOpen)
         case HalfOpen => Admitted
         case Closed => Admitted
         case Other(code) => Rejected(InvalidCircuitState(code)))
      case Query(now) => Rate(WindowRate(l.log, now))
      case _ => Unit;
    Observation(answer, LedgerStep(l, e).state)
  }

  function LedgerExec(threshold: real, es: seq<Event>): Ledger {
    if es == [] then NewLedger(threshold)
    else LedgerStep(LedgerExec(threshold, es[..|es| - 1]), es[|es| - 1])
  }

  function LedgerObservations(threshold: real, es: seq<Event>): (os: seq<Observation>)
    ensures |os| == |es|
  {
    if es == [] then []
    else
      var n := |es| - 1;
      LedgerObservations(threshold, es[..n]) + [LedgerObserve(LedgerExec(threshold, es[..n]), es[n])]
  }

  // ---- stamps in order: the prefix scan is a filter ---------------------------

  /** Non-decreasing stamps, none after now. */
  predicate Ascending(ts: seq<Time>, now: Time) {
    ts == [] ||
    var n := |ts| - 1;
    ts[n] <= now && Ascending(ts[..n], ts[n])
  }

  lemma AscendingLater(ts: seq<Time>, now: Time, later: Time)
    requires Ascending(ts, now) && now <= later
    ensures Ascending(ts, later)
  {}

  lemma {:induction false} AscendingAt(ts: seq<Time>, now: Time, i: nat)
    requires Ascending(ts, now) && i < |ts|
    ensures ts[i] <= now
  {
    if i < |ts| - 1 {
      AscendingAt(ts[..|ts| - 1], ts[|ts| - 1], i);
    }
  }

  lemma {:induction false} SinceAscending(ts: seq<Time>, cutoff: Time, now: Time)
    requires Ascending(ts, now)
    ensures Ascending(Since(ts, cutoff), now)
  {
    if ts != [] {
      var n := |ts| - 1;
      SinceAscending(ts[..n], cutoff, ts[n]);
      var r := Since(ts[..n], cutoff);
      if ts[n] >= cutoff {
        assert (r + [ts[n]])[..|r|] == r;
      } else {
        AscendingLater(r, ts[n], now);
        assert r + [] == r;
      }
    }
  }

  /** Filtering by an earlier cutoff first makes no difference. */
  lemma {:induction false} SinceSince(ts: seq<Time>, early: Time, late: Time)
    requires early <= late
    ensures Since(Since(ts, early), late) == Since(ts, late)
  {
    if ts != [] {
      var n := |ts| - 1;
      SinceSince(ts[..n], early, late);
      var r := Since(ts[..n], early);
      if ts[n] >= early {
        assert (r + [ts[n]])[..|r|] == r;
      } else {
        assert r + [] == r;
      }
    }
  }

  lemma {:induction false} SinceNothing(ts: seq<Time>, cutoff: Time, now: Time)
    requires Ascending(ts, now) && now < cutoff
    ensures Since(ts, cutoff) == []
  {
    if ts != [] {
      SinceNothing(ts[..|ts| - 1], cutoff, ts[|ts| - 1]);
    }
  }

  lemma {:induction false} SinceEverything(ts: seq<Time>, cutoff: Time)
    requires forall i :: 0 <= i < |ts| ==> ts[i] >= cutoff
    ensures Since(ts, cutoff) == ts
  {
    if ts != [] {
      SinceEverything(ts[..|ts| - 1], cutoff);
    }
  }

  /** Since, unrolled from the front. */
  lemma {:induction false} SinceHead(ts: seq<Time>, cutoff: Time)
    requires ts != []
    ensures Since(ts, cutoff) == (if ts[0] >= cutoff then [ts[0]] else []) + Since(ts[1..], cutoff)
  {
    var n := |ts| - 1;
    if n > 0 {
      SinceHead(ts[..n], cutoff);
      assert ts[..n][1..] == ts[1..][..n - 1];
    }
  }

  lemma {:induction false} AscendingTail(ts: seq<Time>, now: Time)
    requires Ascending(ts, now) && ts != []
    ensures Ascending(ts[1..], now)
    ensures forall i :: 0 <= i < |ts| ==> ts[0] <= ts[i]
  {
    var n := |ts| - 1;
    if n > 0 {
      AscendingTail(ts[..n], ts[n]);
      assert ts[..n][1..] == ts[1..][..n - 1];
      AscendingAt(ts[..n], ts[n], 0);
      forall i | 0 <= i < |ts| ensures ts[0] <= ts[i] {
        assert i < n ==> ts[i] == ts[..n][i];
      }
    }
  }

  /** On stamps in order the front scan of pruneBefore keeps exactly the stamps since the cutoff. */
  lemma {:induction false} PruneIsSince(ts: seq<Time>, cutoff: Time, now: Time)
    requires Ascending(ts, now)
    ensures Prune(ts, cutoff) == Since(ts, cutoff)
  {
    if ts != [] {
      AscendingTail(ts, now);
      if ts[0] < cutoff {
        PruneIsSince(ts[1..], cutoff, now);
        SinceHead(ts, cutoff);
      } else {
        SinceEverything(ts, cutoff);
      }
    }
  }

  // ---- the refinement ---------------------------------------------------------

  /** The slices are the full log filtered by the last prune's cutoff. */
  ghost predicate Refines(b: Breaker, l: Ledger, cutoff: Time, now: Time) {
    && cutoff <= now - 60 * SECOND
    && b.threshold == l.threshold && b.lastFailure == l.lastFailure && b.state == l.state
    && Ascending(Stamps(l.log, true), now) && Ascending(Stamps(l.log, false), now)
    && b.failures == Since(Stamps(l.log, true), cutoff)
    && b.successes == Since(Stamps(l.log, false), cutoff)
  }

  lemma RefinesLater(b: Breaker, l: Ledger, cutoff: Time, now: Time, later: Time)
    requires Refines(b, l, cutoff, now) && now <= later
    ensures Refines(b, l, cutoff, later)
  {
    AscendingLater(Stamps(l.log, true), now, later);
    AscendingLater(Stamps(l.log, false), now, later);
  }

  /** Pruning stamps that were pruned before is filtering the full list once. */
  lemma PruneSince(ts: seq<Time>, early: Time, late: Time, now: Time)
    requires Ascending(ts, now) && early <= late
    ensures Prune(Since(ts, early), late) == Since(ts, late)
  {
    SinceAscending(ts, early, now);
    PruneIsSince(Since(ts, early), late, now);
    SinceSince(ts, early, late);
  }

  /** Pruning only moves the cutoff. */
  lemma PruneRefines(b: Breaker, l: Ledger, cutoff: Time, now: Time)
    requires Refines(b, l, cutoff, now)
    ensures Refines(PruneAll(b, now), l, now - 60 * SECOND, now)
  {
    PruneSince(Stamps(l.log, true), cutoff, now - 60 * SECOND, now);
    PruneSince(Stamps(l.log, false), cutoff, now - 60 * SECOND, now);
  }

  /** Appending an outcome to the log appends its stamp to the stamps of its kind. */
  lemma AppendStamp(log: seq<Outcome>, o: Outcome, failed: bool, cutoff: Time)
    requires Ascending(Stamps(log, failed), o.at) && cutoff <= o.at
    ensures Ascending(Stamps(log + [o], failed), o.at)
    ensures Since(Stamps(log + [o], failed), cutoff)
         == Since(Stamps(log, failed), cutoff) + if o.failed == failed then [o.at] else []
  {
    var ts := Stamps(log, failed);
    StampsSnoc(log, o, failed);
    if o.failed == failed {
      AscendingSnoc(ts, o.at);
      SinceSnoc(ts, o.at, cutoff);
    } else {
      assert Since(ts, cutoff) + [] == Since(ts, cutoff);
    }
  }

  lemma StampsSnoc(log: seq<Outcome>, o: Outcome, failed: bool)
    ensures Stamps(log + [o], failed)
         == if o.failed == failed then Stamps(log, failed) + [o.at] else Stamps(log, failed)
  {
    assert (log + [o])[..|log|] == log;
    assert Stamps(log, failed) + [] == Stamps(log, failed);
  }

  lemma AscendingSnoc(ts: seq<Time>, t: Time)
    requires Ascending(ts, t)
    ensures Ascending(ts + [t], t)
  {
    assert (ts + [t])[..|ts|] == ts;
  }

  lemma SinceSnoc(ts: seq<Time>, t: Time, cutoff: Time)
    requires cutoff <= t
    ensures Since(ts + [t], cutoff) == Since(ts, cutoff) + [t]
  {
    assert (ts + [t])[..|ts|] == ts;
  }

  /** Appending an outcome to a slice and to the log keeps them in step. */
  lemma AppendRefines(b: Breaker, l: Ledger, cutoff: Time, o: Outcome)
    requires Refines(b, l, cutoff, o.at)
    ensures var c := if o.failed then b.(failures := b.failures + [o.at], lastFailure := Some(o.at))
                     else b.(successes := b.successes + [o.at]);
            var m := l.(log := l.log + [o], lastFailure := if o.failed then Some(o.at) else l.lastFailure);
            Refines(c, m, cutoff, o.at)
  {
    AppendStamp(l.log, o, true, cutoff);
    AppendStamp(l.log, o, false, cutoff);
  }

  /** The cutoff after an event: outcomes and queries prune, the rest do not. */
  function NextCutoff(cutoff: Time, e: Event): Time {
    if e.Finish? || e.Query? then End(e) - 60 * SECOND else cutoff
  }

  lemma FailureRefines(b: Breaker, l: Ledger, cutoff: Time, e: Event)
    requires e.Finish? && e.failed && Refines(b, l, cutoff, e.at)
    ensures Refines(Step(b, e), LedgerStep(l, e), e.at - 60 * SECOND, e.at)
  {
    var log := l.log + [Outcome(true, e.at)];
    var c := b.(failures := b.failures + [e.at], lastFailure := Some(e.at));
    assert Refines(PruneAll(c, e.at), l.(log := log, lastFailure := Some(e.at)), e.at - 60 * SECOND, e.at) by {
      AppendRefines(b, l, cutoff, Outcome(true, e.at));
      PruneRefines(c, l.(log := log, lastFailure := Some(e.at)), cutoff, e.at);
    }
  }

  /** A reset empties slices and log alike. */
  lemma ResetRefines(b: Breaker, l: Ledger, cutoff: Time, now: Time)
    requires Refines(b, l, cutoff, now)
    ensures Refines(b.(state := Closed, failures := [], successes := []), l.(log := [], state := Closed), cutoff, now)
  {}

  lemma SuccessRefines(b: Breaker, l: Ledger, cutoff: Time, e: Event)
    requires e.Finish? && !e.failed && e.at <= e.prunedAt && Refines(b, l, cutoff, e.at)
    ensures Refines(Step(b, e), LedgerStep(l, e), e.prunedAt - 60 * SECOND, e.prunedAt)
  {
    var c, m := b.(successes := b.successes + [e.at]), l.(log := l.log + [Outcome(false, e.at)]);
    var d := PruneAll(c, e.prunedAt);
    assert Refines(d, m, e.prunedAt - 60 * SECOND, e.prunedAt) by {
      AppendRefines(b, l, cutoff, Outcome(false, e.at));
      RefinesLater(c, m, cutoff, e.at, e.prunedAt);
      PruneRefines(c, m, cutoff, e.prunedAt);
    }
    if d.state == HalfOpen {
      ResetRefines(d, m, e.prunedAt - 60 * SECOND, e.prunedAt);
    }
  }

  lemma BeginRefines(b: Breaker, l: Ledger, cutoff: Time, e: Event)
    requires e.Begin? && Refines(b, l, cutoff, e.at)
    ensures Refines(Step(b, e), LedgerStep(l, e), cutoff, e.at)
  {}

  lemma ForceRefines(b: Breaker, l: Ledger, cutoff: Time, e: Event)
    requires (e.ForceOpen? || e.ForceClose?) && Refines(b, l, cutoff, e.at)
    ensures Refines(Step(b, e), LedgerStep(l, e), cutoff, e.at)
  {
    if e.ForceClose? { ResetRefines(b, l, cutoff, e.at); }
  }

  /** One event, whatever its kind, keeps the two breakers in step. */
  lemma StepRefines(b: Breaker, l: Ledger, cutoff: Time, e: Event)
    requires Start(e) <= End(e) && Refines(b, l, cutoff, Start(e))
    ensures Refines(Step(b, e), LedgerStep(l, e), NextCutoff(cutoff, e), End(e))
  {
    hide Refines;
    match e
    case Begin(_) => BeginRefines(b, l, cutoff, e);
    case Query(now) => PruneRefines(b, l, cutoff, now);
    case ForceOpen(_) => ForceRefines(b, l, cutoff, e);
    case ForceClose(_) => ForceRefines(b, l, cutoff, e);
    case Finish(_, failed, _, _) =>
      if failed { FailureRefines(b, l, cutoff, e); } else { SuccessRefines(b, l, cutoff, e); }
  }

  /** Breakers in step show the same for the next event. */
  lemma ObserveRefines(b: Breaker, l: Ledger, cutoff: Time, e: Event)
    requires Start(e) <= End(e) && Refines(b, l, cutoff, Start(e))
    ensures Observe(b, e) == LedgerObserve(l, e)
  {
    StepRefines(b, l, cutoff, e);
  }

  /**
   Rolling-window refinement: after any run the slices hold, in order, exactly the
   outcomes since the last reset that are not before some cutoff, and that cutoff
   is one window before the last recorded outcome or query if the run ends in one.
   */
  lemma {:induction false} RunRefines(threshold: real, es: seq<Event>, now: Time) returns (cutoff: Time)
    requires Timed(es, now)
    ensures Refines(Exec(threshold, es), LedgerExec(threshold, es), cutoff, now)
    ensures es != [] && (es[|es| - 1].Query? || es[|es| - 1].Finish?) ==> cutoff == End(es[|es| - 1]) - 60 * SECOND
  {
    if es == [] {
      cutoff := now - 60 * SECOND;
    } else {
      var n := |es| - 1;
      cutoff := RunRefines(threshold, es[..n], Start(es[n]));
      var b, l := Exec(threshold, es[..n]), LedgerExec(threshold, es[..n]);
      StepRefines(b, l, cutoff, es[n]);
      cutoff := NextCutoff(cutoff, es[n]);
      RefinesLater(Step(b, es[n]), LedgerStep(l, es[n]), cutoff, End(es[n]), now);
    }
  }

  /** The pruned breaker and the one that never prunes show the same along every run. */
  lemma {:induction false} SameObservations(threshold: real, es: seq<Event>, now: Time)
    requires Timed(es, now)
    ensures Observations(threshold, es) == LedgerObservations(threshold, es)
  {
    if es != [] {
      var n := |es| - 1;
      SameObservations(threshold, es[..n], Start(es[n]));
      var cutoff := RunRefines(threshold, es[..n], Start(es[n]));
      ObserveRefines(Exec(threshold, es[..n]), LedgerExec(threshold, es[..n]), cutoff, es[n]);
    }
  }

  // ---- queries are invisible --------------------------------------------------

  /** Only queries may be left out by the mask. */
  ghost predicate DropsOnlyQueries(es: seq<Event>, mask: seq<bool>)
    requires |mask| == |es|
  {
    forall i :: 0 <= i < |es| && !mask[i] ==> es[i].Query?
  }

  lemma {:induction false} KeepTimed(es: seq<Event>, mask: seq<bool>, now: Time)
    requires |mask| == |es| && Timed(es, now)
    ensures Timed(Keep(es, mask), now)
  {
    if es != [] {
      var n := |es| - 1;
      KeepTimed(es[..n], mask[..n], Start(es[n]));
      var kept := Keep(es[..n], mask[..n]);
      if mask[n] {
        TimedSnoc(kept, es[n], now);
      } else {
        TimedLater(kept, Start(es[n]), now);
        assert kept + [] == kept;
      }
    }
  }

  lemma {:induction false} LedgerIgnoresQueries(threshold: real, es: seq<Event>, mask: seq<bool>)
    requires |mask| == |es| && DropsOnlyQueries(es, mask)
    ensures LedgerExec(threshold, Keep(es, mask)) == LedgerExec(threshold, es)
    ensures LedgerObservations(threshold, Keep(es, mask)) == Keep(LedgerObservations(threshold, es), mask)
  {
    if es != [] {
      var n := |es| - 1;
      var os := LedgerObservations(threshold, es);
      LedgerIgnoresQueries(threshold, es[..n], mask[..n]);
      assert os[..n] == LedgerObservations(threshold, es[..n]);
      var kept := Keep(es[..n], mask[..n]);
      if mask[n] {
        assert (kept + [es[n]])[..|kept|] == kept;
      } else {
        assert kept + [] == kept;
      }
    }
  }

  /**
   Queries are invisible: leaving any of the GetFailureRate calls out of any run
   changes no admission, no state and no rate that the remaining events show,
   although every call prunes both slices for good.
   */
  lemma QueriesInvisible(threshold: real, es: seq<Event>, mask: seq<bool>, now: Time)
    requires |mask| == |es| && Timed(es, now) && DropsOnlyQueries(es, mask)
    ensures Observations(threshold, Keep(es, mask)) == Keep(Observations(threshold, es), mask)
  {
    KeepTimed(es, mask, now);
    SameObservations(threshold, es, now);
    SameObservations(threshold, Keep(es, mask), now);
    LedgerIgnoresQueries(threshold, es, mask);
  }
}
