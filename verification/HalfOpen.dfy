/**
 The half-open state over whole runs: which attempts are admitted while it lasts,
 which outcome ends it, and whose outcome that may be.
 */
module HalfOpen {
  import opened Common
  import opened Breaker
  import opened BreakerRuns

  /** The breaker is half-open before event k. */
  predicate HalfOpenAt(threshold: real, es: seq<Event>, k: nat)
    requires k <= |es|
  {
    Exec(threshold, es[..k]).state == CircuitState.HalfOpen
  }

  /** Event k makes the breaker half-open, and up to event m no outcome is recorded and nothing is forced. */
  ghost predicate Stretch(threshold: real, es: seq<Event>, k: nat, m: nat) {
    && k < m <= |es|
    && !HalfOpenAt(threshold, es, k) && HalfOpenAt(threshold, es, k + 1)
    && forall j :: k < j < m ==> es[j].Begin? || es[j].Query?
  }

  predicate AdmittedAt(threshold: real, es: seq<Event>, j: nat)
    requires j < |es|
  {
    es[j].Begin? && !Refused(threshold, es, j)
  }

  /** The calls admitted by the events from k up to m. */
  ghost function AdmittedIn(threshold: real, es: seq<Event>, k: nat, m: nat): set<nat>
    requires m <= |es|
  {
    set j: nat | k <= j < m && AdmittedAt(threshold, es, j)
  }

  /** A breaker becomes half-open by admitting an attempt, never otherwise. */
  lemma EnteredByProbe(threshold: real, es: seq<Event>, k: nat)
    requires k < |es| && !HalfOpenAt(threshold, es, k) && HalfOpenAt(threshold, es, k + 1)
    ensures Exec(threshold, es[..k]).state == Open && AdmittedAt(threshold, es, k)
  {
    ExecStep(threshold, es, k);
  }

  /** The state lasts as long as the stretch. */
  lemma {:induction false} LastsThrough(threshold: real, es: seq<Event>, k: nat, m: nat)
    requires Stretch(threshold, es, k, m)
    ensures HalfOpenAt(threshold, es, m)
  {
    hide HalfOpenAt, Exec;
    if k + 1 < m {
      LastsThrough(threshold, es, k, m - 1);
      StaysHalfOpen(threshold, es, m - 1);
    }
  }

  lemma StaysHalfOpen(threshold: real, es: seq<Event>, j: nat)
    requires j < |es| && HalfOpenAt(threshold, es, j) && (es[j].Begin? || es[j].Query?)
    ensures HalfOpenAt(threshold, es, j + 1)
  {
    ExecStep(threshold, es, j);
  }

  /**
   While the breaker is half-open every attempt is admitted; so the attempt that
   made it half-open is the only one admitted if and only if no other one came.
   */
  lemma AdmitsAll(threshold: real, es: seq<Event>, k: nat, m: nat)
    requires Stretch(threshold, es, k, m)
    ensures forall j :: k <= j < m && es[j].Begin? ==> AdmittedAt(threshold, es, j)
    ensures AdmittedIn(threshold, es, k, m) == {k} <==> forall j :: k < j < m ==> !es[j].Begin?
  {
    EnteredByProbe(threshold, es, k);
    forall j | k <= j < m && es[j].Begin? ensures AdmittedAt(threshold, es, j) {
      if k < j {
        LastsThrough(threshold, es, k, j);
      }
    }
    var admitted := AdmittedIn(threshold, es, k, m);
    assert k in admitted;
    if admitted == {k} {
      forall j | k < j < m ensures !es[j].Begin? {
        assert j !in admitted;
      }
    }
  }

  /**
   The first outcome of the stretch decides: the breaker is closed after it if it
   succeeded and open if it failed.  It may be the outcome of any call in flight;
   if it is that of a call admitted before the stretch, every attempt that the
   half-open breaker admitted is still in flight when the state changes.
   */
  lemma FirstOutcomeDecides(threshold: real, es: seq<Event>, k: nat, m: nat)
    requires WellFormed(threshold, es) && Stretch(threshold, es, k, m) && m < |es| && es[m].Finish?
    ensures Exec(threshold, es[..m + 1]).state == if es[m].failed then Open else Closed
    ensures es[m].call < m && AdmittedAt(threshold, es, es[m].call)
    ensures es[m].call in AdmittedIn(threshold, es, k, m) <==> es[m].call >= k
    ensures AdmittedIn(threshold, es, k, m) - {es[m].call} <= InFlight(threshold, es[..m + 1])
  {
    LastsThrough(threshold, es, k, m);
    ExecStep(threshold, es, m);
    RecordsAdmitted(threshold, es, m);
    hide Exec;
    WellFormedPrefix(threshold, es, m + 1);
    FateOfCalls(threshold, es[..m + 1]);
    forall j | j in AdmittedIn(threshold, es, k, m) && j != es[m].call
      ensures j in InFlight(threshold, es[..m + 1])
    {
      StillPending(threshold, es, k, m, j);
    }
  }

  /** An outcome is that of a call admitted before it. */
  lemma RecordsAdmitted(threshold: real, es: seq<Event>, m: nat)
    requires WellFormed(threshold, es) && m < |es| && es[m].Finish?
    ensures es[m].call < m && AdmittedAt(threshold, es, es[m].call)
  {
    WellFormedPrefix(threshold, es, m);
    FateOfCalls(threshold, es[..m]);
    assert Pending(threshold, es[..m], es[m].call);
    assert es[..m][..es[m].call] == es[..es[m].call];
  }

  lemma StillPending(threshold: real, es: seq<Event>, k: nat, m: nat, j: nat)
    requires Stretch(threshold, es, k, m) && m < |es| && es[m].Finish? && es[m].call != j
    requires k <= j < m && AdmittedAt(threshold, es, j)
    ensures Pending(threshold, es[..m + 1], j)
  {
    assert es[..m + 1][..j] == es[..j];
  }

  // ---- a run in which all this happens ------------------------------------------------

  /**
   Two calls are admitted at once; the second one fails and trips the breaker.  31s
   later two more are admitted, and then the first call succeeds.
   */
  function LateRun(): seq<Event> {
    [Begin(0), Begin(0), Finish(1, true, 0, 0),
     Begin(31 * SECOND), Begin(31 * SECOND), Finish(0, false, 31 * SECOND, 31 * SECOND)]
  }

  /** The half-open breaker admits both attempts and is closed by the call from before the trip. */
  lemma LateSuccessCloses()
    ensures var es := LateRun();
            && Timed(es, 31 * SECOND) && WellFormed(0.5, es)
            && Exec(0.5, es[..3]).state == Open
            && Stretch(0.5, es, 3, 5) && AdmittedIn(0.5, es, 3, 5) == {3, 4}
            && Exec(0.5, es).state == Closed && InFlight(0.5, es) == {3, 4}
  {
    hide Exec, Timed, WellFormed, InFlight;
    var es := LateRun();
    Fresh(0.5);
    NothingInFlight(0.5);
    var t, stamp := 31 * SECOND, Some(0);
    var r1 := Next([], 0, New(0.5), {}, Begin(0), New(0.5));
    var r2 := Next(r1, 0, New(0.5), {0}, Begin(0), New(0.5));
    var r3 := Next(r2, 0, New(0.5), {0, 1}, Finish(1, true, 0, 0), Breaker(0.5, [0], [], stamp, Open));
    assert {0, 1} - {1} == {0};
    var half := Breaker(0.5, [0], [], stamp, CircuitState.HalfOpen);
    var r4 := Next(r3, 0, Breaker(0.5, [0], [], stamp, Open), {0}, Begin(t), half);
    var r5 := Next(r4, t, half, {0, 3}, Begin(t), half);
    var r6 := Next(r5, t, half, {0, 3, 4}, Finish(0, false, t, t), Breaker(0.5, [], [], stamp, Closed));
    assert {0, 3, 4} - {0} == {3, 4};
    assert r3 == es[..3] && r4 == es[..4] && r6 == es && es[..5] == r5;
    AdmitsAll(0.5, es, 3, 5);
  }

  lemma NothingInFlight(threshold: real)
    ensures InFlight(threshold, []) == {}
  {}

  /** One more event of a run whose state and calls in flight are known. */
  lemma Next(es: seq<Event>, now: Time, b: Breaker, inFlight: set<nat>, e: Event, c: Breaker) returns (fs: seq<Event>)
    requires Timed(es, now) && WellFormed(b.threshold, es)
    requires Exec(b.threshold, es) == b && InFlight(b.threshold, es) == inFlight
    requires now <= Start(e) <= End(e) && (e.Finish? ==> e.call in inFlight) && Step(b, e) == c
    ensures fs == es + [e] && Timed(fs, End(e)) && WellFormed(b.threshold, fs) && Exec(b.threshold, fs) == c
    ensures InFlight(b.threshold, fs) ==
              if e.Finish? then inFlight - {e.call}
              else if e.Begin? && Observe(b, e).answer.Admitted? then inFlight + {|es|} else inFlight
  {
    fs := es + [e];
    assert fs[..|es|] == es;
    TimedLater(es, now, Start(e));
    TimedSnoc(es, e, End(e));
    ExecSnoc(b.threshold, es, e);
    WellFormedSnoc(b.threshold, es, e);
    LastFailureIsLastStamp(b.threshold, es);
  }
}
