/**
 Nothing is lost or counted twice: what becomes of every call of Do and of every
 recorded outcome, over all runs of the breaker.
 */
module Conservation {
  import opened Common
  import opened Breaker
  import opened Ledger
  import opened BreakerRuns

  // ---- calls ----------------------------------------------------------------------

  function BegunCount(es: seq<Event>): nat {
    if es == [] then 0
    else BegunCount(es[..|es| - 1]) + if es[|es| - 1].Begin? then 1 else 0
  }

  function RecordedCount(es: seq<Event>): nat {
    if es == [] then 0
    else RecordedCount(es[..|es| - 1]) + if es[|es| - 1].Finish? then 1 else 0
  }

  function RefusedCount(threshold: real, es: seq<Event>): nat {
    if es == [] then 0
    else
      var n := |es| - 1;
      RefusedCount(threshold, es[..n]) + if Refused(threshold, es, n) then 1 else 0
  }

  /** Every call of Do is exactly one of refused, in flight and recorded. */
  lemma {:induction false} CallsConserved(threshold: real, es: seq<Event>)
    requires WellFormed(threshold, es)
    ensures BegunCount(es) == RefusedCount(threshold, es) + |InFlight(threshold, es)| + RecordedCount(es)
  {
    if es != [] {
      var n := |es| - 1;
      WellFormedPrefix(threshold, es, n);
      CallsConserved(threshold, es[..n]);
      FateOfCalls(threshold, es[..n]);
      var before := InFlight(threshold, es[..n]);
      if es[n].Finish? {
        assert |before - {es[n].call}| == |before| - 1;
      } else if es[n].Begin? && !Refused(threshold, es, n) {
        assert n !in before;
      }
    }
  }

  // ---- outcomes -------------------------------------------------------------------

  /** The event empties the slices: ForceClose, or the success that closes a half-open breaker. */
  predicate Resets(b: Breaker, e: Event) {
    e.ForceClose? || (e.Finish? && !e.failed && b.state == HalfOpen)
  }

  /** The slices at the moment at which such an event empties them. */
  function AtReset(b: Breaker, e: Event): Breaker {
    if e.Finish? then PruneAll(b.(successes := b.successes + [e.at]), e.prunedAt) else b
  }

  /** The full history at that moment. */
  function LogAtReset(log: seq<Outcome>, e: Event): seq<Outcome> {
    if e.Finish? then log + [Outcome(false, e.at)] else log
  }

  /** The cutoff of the last prune; 0 before any, when there is nothing to prune. */
  function Cutoff(es: seq<Event>): Time {
    if es == [] then 0 else NextCutoff(Cutoff(es[..|es| - 1]), es[|es| - 1])
  }

  /** The outcomes that resets have taken out of the slices. */
  function Cleared(threshold: real, es: seq<Event>): nat {
    if es == [] then 0
    else
      var n := |es| - 1;
      var b := Exec(threshold, es[..n]);
      Cleared(threshold, es[..n]) +
      if Resets(b, es[n]) then |AtReset(b, es[n]).failures| + |AtReset(b, es[n]).successes| else 0
  }

  /** The outcomes of a log that are before the cutoff. */
  function AgedOut(log: seq<Outcome>, cutoff: Time): nat {
    if log == [] then 0
    else AgedOut(log[..|log| - 1], cutoff) + if log[|log| - 1].at < cutoff then 1 else 0
  }

  lemma {:induction false} LogSplits(log: seq<Outcome>, cutoff: Time)
    ensures |log| == |Since(Stamps(log, true), cutoff)| + |Since(Stamps(log, false), cutoff)| + AgedOut(log, cutoff)
  {
    if log != [] {
      var n := |log| - 1;
      LogSplits(log[..n], cutoff);
      var ts, us := Stamps(log[..n], log[n].failed), Stamps(log[..n], !log[n].failed);
      assert (ts + [log[n].at])[..|ts|] == ts;
      assert us + [] == us;
    }
  }

  /** The outcomes that were older than the window when a reset forgot them. */
  function AgedBeforeReset(threshold: real, es: seq<Event>): nat {
    if es == [] then 0
    else
      var n := |es| - 1;
      AgedBeforeReset(threshold, es[..n]) +
      if Resets(Exec(threshold, es[..n]), es[n])
      then AgedOut(LogAtReset(LedgerExec(threshold, es[..n]).log, es[n]), NextCutoff(Cutoff(es[..n]), es[n]))
      else 0
  }

  /** All outcomes that have left the window: before a reset forgot them, or since the last one. */
  function Aged(threshold: real, es: seq<Event>): nat {
    AgedBeforeReset(threshold, es) + AgedOut(LedgerExec(threshold, es).log, Cutoff(es))
  }

  ghost predicate SlicesMatch(b: Breaker, l: Ledger, cutoff: Time) {
    && b.state == l.state
    && b.failures == Since(Stamps(l.log, true), cutoff)
    && b.successes == Since(Stamps(l.log, false), cutoff)
  }

  /** The slices are the history since the last reset, filtered by the cutoff of the last prune. */
  lemma {:induction false} SlicesAreSince(threshold: real, es: seq<Event>, now: Time)
    requires Timed(es, now)
    ensures SlicesMatch(Exec(threshold, es), LedgerExec(threshold, es), Cutoff(es))
  {
    hide SlicesMatch;
    if es == [] {
      NothingMatches(threshold);
    } else {
      var n := |es| - 1;
      SlicesAreSince(threshold, es[..n], Start(es[n]));
      if es[n].Finish? || es[n].Query? {
        PruneMatches(threshold, es, now);
      } else {
        QuietMatches(threshold, es, now);
      }
    }
  }

  lemma NothingMatches(threshold: real)
    ensures SlicesMatch(New(threshold), NewLedger(threshold), 0)
  {}

  /** After an outcome or a query the slices have just been pruned. */
  lemma PruneMatches(threshold: real, es: seq<Event>, now: Time)
    requires Timed(es, now) && es != [] && (es[|es| - 1].Finish? || es[|es| - 1].Query?)
    ensures SlicesMatch(Exec(threshold, es), LedgerExec(threshold, es), Cutoff(es))
  {
    hide SlicesMatch, Refines, Step, LedgerStep;
    var cutoff := RunRefines(threshold, es, now);
    RefinesMatch(Exec(threshold, es), LedgerExec(threshold, es), cutoff, now);
  }

  /** Any other event keeps the slices or empties them. */
  lemma QuietMatches(threshold: real, es: seq<Event>, now: Time)
    requires Timed(es, now) && es != [] && !es[|es| - 1].Finish? && !es[|es| - 1].Query?
    requires var p := es[..|es| - 1]; SlicesMatch(Exec(threshold, p), LedgerExec(threshold, p), Cutoff(p))
    ensures SlicesMatch(Exec(threshold, es), LedgerExec(threshold, es), Cutoff(es))
  {
    hide SlicesMatch, Refines, Step, LedgerStep;
    var n := |es| - 1;
    var before := RunRefines(threshold, es[..n], Start(es[n]));
    MatchKept(Exec(threshold, es[..n]), LedgerExec(threshold, es[..n]), Cutoff(es[..n]), before, es[n]);
  }

  lemma RefinesMatch(b: Breaker, l: Ledger, cutoff: Time, now: Time)
    requires Refines(b, l, cutoff, now)
    ensures SlicesMatch(b, l, cutoff)
  {}

  lemma MatchKept(b: Breaker, l: Ledger, cutoff: Time, before: Time, e: Event)
    requires SlicesMatch(b, l, cutoff) && !e.Finish? && !e.Query? && Refines(b, l, before, e.at)
    ensures SlicesMatch(Step(b, e), LedgerStep(l, e), cutoff)
  {}

  /** A reset splits the history into what the slices still hold and what has aged out. */
  lemma ResetSplits(threshold: real, es: seq<Event>, now: Time)
    requires Timed(es, now) && es != [] && Resets(Exec(threshold, es[..|es| - 1]), es[|es| - 1])
    ensures var n := |es| - 1;
            var b, log := Exec(threshold, es[..n]), LedgerExec(threshold, es[..n]).log;
            |LogAtReset(log, es[n])| == |AtReset(b, es[n]).failures| + |AtReset(b, es[n]).successes|
              + AgedOut(LogAtReset(log, es[n]), NextCutoff(Cutoff(es[..n]), es[n]))
  {
    var n := |es| - 1;
    var b, l, e := Exec(threshold, es[..n]), LedgerExec(threshold, es[..n]), es[n];
    LogSplits(LogAtReset(l.log, e), NextCutoff(Cutoff(es[..n]), e));
    if e.Finish? {
      var cutoff := RunRefines(threshold, es[..n], Start(e));
      SuccessPruned(b, l, cutoff, e);
    } else {
      SlicesAreSince(threshold, es[..n], Start(e));
    }
  }

  lemma SuccessPruned(b: Breaker, l: Ledger, cutoff: Time, e: Event)
    requires e.Finish? && !e.failed && e.at <= e.prunedAt && Refines(b, l, cutoff, e.at)
    ensures AtReset(b, e).failures == Since(Stamps(LogAtReset(l.log, e), true), e.prunedAt - 60 * SECOND)
    ensures AtReset(b, e).successes == Since(Stamps(LogAtReset(l.log, e), false), e.prunedAt - 60 * SECOND)
  {
    var c, m := b.(successes := b.successes + [e.at]), l.(log := LogAtReset(l.log, e));
    AppendRefines(b, l, cutoff, Outcome(false, e.at));
    RefinesLater(c, m, cutoff, e.at, e.prunedAt);
    PruneRefines(c, m, cutoff, e.prunedAt);
  }

  /**
   Every recorded outcome is exactly one of: still in a slice, older than the
   window, or taken out of the slices by a reset.
   */
  lemma {:induction false} OutcomesConserved(threshold: real, es: seq<Event>, now: Time)
    requires Timed(es, now)
    ensures RecordedCount(es) == |Exec(threshold, es).failures| + |Exec(threshold, es).successes|
                               + Aged(threshold, es) + Cleared(threshold, es)
  {
    SlicesAreSince(threshold, es, now);
    LogSplits(LedgerExec(threshold, es).log, Cutoff(es));
    LogAndResets(threshold, es, now);
  }

  lemma {:induction false} LogAndResets(threshold: real, es: seq<Event>, now: Time)
    requires Timed(es, now)
    ensures RecordedCount(es) == |LedgerExec(threshold, es).log|
                               + AgedBeforeReset(threshold, es) + Cleared(threshold, es)
  {
    if es != [] {
      var n := |es| - 1;
      LogAndResets(threshold, es[..n], Start(es[n]));
      SlicesAreSince(threshold, es[..n], Start(es[n]));
      if Resets(Exec(threshold, es[..n]), es[n]) {
        ResetSplits(threshold, es, now);
      }
    }
  }
}
