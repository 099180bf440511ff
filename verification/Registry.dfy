/**
 WatchConfig of watchers.go: any number of callers, on any namespaces, run its
 double-checked registration concurrently with each other and with the parts of a
 cleanup that concern them.
 */
module Registry {
  import opened Common

  /**
   A ConfigWatcher as WatchConfig sees it, with the call that created it.  It runs
   once it is started with a client, until it is stopped; a Stop before the Start
   does not keep it from running, and it is the only Stop that has an effect.
   */
  datatype Watcher = Watcher(
    namespace: string, owner: nat, hasClient: bool, started: bool, stopped: bool, running: bool)

  /** A watcher is named by the number of watchers created before it. */
  datatype Point =
    | Looking                                  // before the read-locked look
    | Missed                                   // found nothing
    | Holding(own: nat)                        // has created a watcher, before the write lock
    | Losing(own: nat, existing: nat)          // found another one under the write lock
    | Winning(own: nat)                        // registered its own, before starting it
    | Returned(result: nat)
    | Refused                                  // the plugin was not initialized

  datatype Caller = Caller(namespace: string, point: Point)

  datatype State = State(
    callers: map<nat, Caller>,
    configWatchers: map<string, nat>,
    watchers: seq<Watcher>,
    initialized: bool,
    client: bool,              // the plugin has one
    locked: bool,              // a cleanup holds watcherMutex
    toStop: set<nat>)          // the registered watchers that it has yet to stop

  datatype Step =
    | Call(c: nat, namespace: string)
    | Look(c: nat)
    | Create(c: nat)
    | Register(c: nat)
    | StopOwn(c: nat)
    | StartOwn(c: nat)         // Start, up to the publication of the inner watcher
    // a cleanup
    | LockMap                  // cleanupWatchers begins
    | StopRegistered(w: nat)   // the Stop of one registered watcher, which looks for the inner one
    | Reset                    // the map is replaced and the lock released
    | DropClient
    | ClearInitialized

  predicate Enabled(s: State, e: Step) {
    match e
    case Call(c, _) => c !in s.callers
    case Look(c) => c in s.callers && s.callers[c].point.Looking? && !s.locked
    case Create(c) => c in s.callers && s.callers[c].point.Missed?
    case Register(c) => c in s.callers && s.callers[c].point.Holding? && !s.locked
    case StopOwn(c) => c in s.callers && s.callers[c].point.Losing? && s.callers[c].point.own < |s.watchers|
    case StartOwn(c) => c in s.callers && s.callers[c].point.Winning? && s.callers[c].point.own < |s.watchers|
    case LockMap => !s.locked
    case StopRegistered(w) => s.locked && w in s.toStop && w < |s.watchers|
    case Reset => s.locked && s.toStop == {}
    case DropClient => true
    case ClearInitialized => true
  }

  /** The watcher after Start. */
  function StartIt(w: Watcher): Watcher {
    w.(started := true, running := w.hasClient)
  }

  /** The watcher after Stop, of which only the first has an effect. */
  function StopIt(w: Watcher): Watcher {
    if w.stopped then w else w.(stopped := true, running := false)
  }

  /** A step of the part of a cleanup that holds the lock. */
  predicate Cleans(e: Step) { e.LockMap? || e.StopRegistered? || e.Reset? }

  /** A step of a call, not of a cleanup. */
  predicate ByCaller(e: Step) { !Cleans(e) && !e.DropClient? && !e.ClearInitialized? }

  function Move(s: State, c: nat, p: Point): State
    requires c in s.callers
  {
    s.(callers := s.callers[c := s.callers[c].(point := p)])
  }

  function Apply(s: State, e: Step): State
    requires Enabled(s, e)
  {
    match e
    case Call(c, namespace) =>
      s.(callers := s.callers[c := Caller(namespace, if s.initialized then Looking else Refused)])
    case Look(c) =>
      var ns := s.callers[c].namespace;
      if ns in s.configWatchers then Move(s, c, Returned(s.configWatchers[ns])) else Move(s, c, Missed)
    case Create(c) =>
      Move(s, c, Holding(|s.watchers|)).(
        watchers := s.watchers + [Watcher(s.callers[c].namespace, c, s.client, false, false, false)])
    case Register(c) =>
      var ns, own := s.callers[c].namespace, s.callers[c].point.own;
      if ns in s.configWatchers then Move(s, c, Losing(own, s.configWatchers[ns]))
      else Move(s, c, Winning(own)).(configWatchers := s.configWatchers[ns := own])
    case StopOwn(c) =>
      var own := s.callers[c].point.own;
      Move(s, c, Returned(s.callers[c].point.existing)).(watchers := s.watchers[own := StopIt(s.watchers[own])])
    case StartOwn(c) =>
      var own := s.callers[c].point.own;
      Move(s, c, Returned(own)).(watchers := s.watchers[own := StartIt(s.watchers[own])])
    case LockMap => s.(locked := true, toStop := set ns | ns in s.configWatchers :: s.configWatchers[ns])
    case StopRegistered(w) =>
      s.(toStop := s.toStop - {w}, watchers := s.watchers[w := StopIt(s.watchers[w])])
    case Reset => s.(configWatchers := map[], locked := false)
    case DropClient => s.(client := false)
    case ClearInitialized => s.(initialized := false)
  }

  const Nobody := State(map[], map[], [], true, true, false, {})

  function Exec(es: seq<Step>): Option<State> {
    if es == [] then Some(Nobody)
    else
      var before := Exec(es[..|es| - 1]);
      if before.Some? && Enabled(before.value, es[|es| - 1])
      then Some(Apply(before.value, es[|es| - 1])) else None
  }

  // ---- the invariant ----------------------------------------------------------------

  /** The watcher a caller has in hand, if any. */
  function Own(p: Point): Option<nat> {
    match p
    case Holding(own) => Some(own)
    case Losing(own, _) => Some(own)
    case Winning(own) => Some(own)
    case _ => None
  }

  predicate IsRegistered(s: State, w: nat) {
    w < |s.watchers| && s.watchers[w].namespace in s.configWatchers
    && s.configWatchers[s.watchers[w].namespace] == w
  }

  /** The watcher has been created by the call, and neither started nor stopped. */
  predicate IsNew(w: Watcher, namespace: string, owner: nat) {
    w == Watcher(namespace, owner, w.hasClient, false, false, false)
  }

  /** What a caller knows at its point, as long as no cleanup resets the map. */
  ghost predicate CallerInv(s: State, id: nat, c: Caller) {
    match c.point
    case Looking => true
    case Missed => true
    case Refused => true
    case Holding(own) =>
      own < |s.watchers| && IsNew(s.watchers[own], c.namespace, id) && !IsRegistered(s, own)
    case Losing(own, existing) =>
      && own < |s.watchers| && IsNew(s.watchers[own], c.namespace, id) && !IsRegistered(s, own)
      && c.namespace in s.configWatchers && s.configWatchers[c.namespace] == existing
    case Winning(own) =>
      own < |s.watchers| && IsNew(s.watchers[own], c.namespace, id) && IsRegistered(s, own)
    case Returned(result) =>
      c.namespace in s.configWatchers && s.configWatchers[c.namespace] == result
  }

  /** A watcher whose creating call has returned is started if registered, and stopped unstarted if not. */
  ghost predicate WatcherInv(s: State, w: nat)
    requires w < |s.watchers|
  {
    var it := s.watchers[w];
    && it.owner in s.callers
    && (s.callers[it.owner].point.Returned? || Own(s.callers[it.owner].point) == Some(w))
    && (s.callers[it.owner].point.Returned? ==>
          it.started == IsRegistered(s, w) && it.stopped == !IsRegistered(s, w)
          && it.running == (it.started && it.hasClient))
  }

  ghost predicate CallersInv(s: State) {
    forall c :: c in s.callers ==> CallerInv(s, c, s.callers[c])
  }

  ghost predicate TableInv(s: State) {
    forall ns :: ns in s.configWatchers ==>
      s.configWatchers[ns] < |s.watchers| && s.watchers[s.configWatchers[ns]].namespace == ns
  }

  ghost predicate WatchersInv(s: State) {
    forall w :: 0 <= w < |s.watchers| ==> WatcherInv(s, w)
  }

  ghost predicate Inv(s: State) {
    CallersInv(s) && TableInv(s) && WatchersInv(s)
  }

  lemma CallersStep(s: State, e: Step)
    requires Inv(s) && Enabled(s, e) && !Cleans(e)
    ensures CallersInv(Apply(s, e))
  {
    var t := Apply(s, e);
    forall c | c in t.callers ensures CallerInv(t, c, t.callers[c]) {
      if ByCaller(e) && e.c == c {
        CallerMoves(s, e);
      } else {
        OthersStay(s, e, c);
        hide Apply, Enabled, CallerInv;
        assert CallerInv(s, c, s.callers[c]);
        if ByCaller(e) && e.c in s.callers {
          assert CallerInv(s, e.c, s.callers[e.c]);
        }
        CallerKept(s, e, c);
      }
    }
  }

  lemma CallerMoves(s: State, e: Step)
    requires Inv(s) && Enabled(s, e) && ByCaller(e)
    ensures e.c in Apply(s, e).callers && CallerInv(Apply(s, e), e.c, Apply(s, e).callers[e.c])
  {
    if e.c in s.callers {
      assert CallerInv(s, e.c, s.callers[e.c]);
    }
  }

  lemma OthersStay(s: State, e: Step, c: nat)
    requires Enabled(s, e) && c in Apply(s, e).callers && !(ByCaller(e) && e.c == c)
    ensures c in s.callers && Apply(s, e).callers[c] == s.callers[c]
  {}

  lemma CallerKept(s: State, e: Step, c: nat)
    requires c in s.callers && CallerInv(s, c, s.callers[c]) && Enabled(s, e) && !Cleans(e)
    requires ByCaller(e) ==> e.c != c && (e.c in s.callers ==> CallerInv(s, e.c, s.callers[e.c]))
    ensures CallerInv(Apply(s, e), c, s.callers[c])
  {}

  lemma TableStep(s: State, e: Step)
    requires Inv(s) && Enabled(s, e) && !Cleans(e)
    ensures TableInv(Apply(s, e))
  {}

  lemma WatchersStep(s: State, e: Step)
    requires Inv(s) && Enabled(s, e) && !Cleans(e)
    ensures WatchersInv(Apply(s, e))
  {
    hide Apply, Enabled, WatcherInv, Inv;
    forall w | 0 <= w < |Apply(s, e).watchers| ensures WatcherInv(Apply(s, e), w) {
      WatcherStep(s, e, w);
    }
  }

  lemma WatcherStep(s: State, e: Step, w: nat)
    requires Inv(s) && Enabled(s, e) && !Cleans(e) && w < |Apply(s, e).watchers|
    ensures WatcherInv(Apply(s, e), w)
  {
    if w == |s.watchers| {
      NewWatcher(s, e);
    } else {
      assert WatcherInv(s, w);
      var c := s.watchers[w].owner;
      assert CallerInv(s, c, s.callers[c]);
      if ByCaller(e) && e.c in s.callers {
        assert CallerInv(s, e.c, s.callers[e.c]);
      }
      hide Inv, CallersInv, WatchersInv, TableInv;
      if ByCaller(e) && e.c == c {
        OwnStep(s, e, w);
      } else {
        ForeignStep(s, e, w);
      }
    }
  }

  lemma NewWatcher(s: State, e: Step)
    requires TableInv(s) && Enabled(s, e) && !Cleans(e) && |s.watchers| < |Apply(s, e).watchers|
    ensures WatcherInv(Apply(s, e), |s.watchers|)
  {}

  /** A step of the call that created the watcher. */
  lemma OwnStep(s: State, e: Step, w: nat)
    requires w < |s.watchers| && WatcherInv(s, w) && Enabled(s, e) && ByCaller(e) && e.c == s.watchers[w].owner
    requires CallerInv(s, e.c, s.callers[e.c])
    ensures WatcherInv(Apply(s, e), w)
  {}

  /** A step of anybody else. */
  lemma ForeignStep(s: State, e: Step, w: nat)
    requires w < |s.watchers| && WatcherInv(s, w) && Enabled(s, e) && !Cleans(e)
    requires CallerInv(s, s.watchers[w].owner, s.callers[s.watchers[w].owner])
    requires ByCaller(e) ==> e.c != s.watchers[w].owner && (e.c in s.callers ==> CallerInv(s, e.c, s.callers[e.c]))
    ensures WatcherInv(Apply(s, e), w)
  {
    if e.StopOwn? || e.StartOwn? {
      assert Own(s.callers[e.c].point).value != w;
    }
  }

  /** No cleanup runs. */
  predicate NoCleanup(es: seq<Step>) {
    forall k :: 0 <= k < |es| ==> !Cleans(es[k])
  }

  lemma {:induction false} RunInv(es: seq<Step>)
    requires Exec(es).Some? && NoCleanup(es)
    ensures Inv(Exec(es).value)
  {
    if es != [] {
      var n := |es| - 1;
      RunInv(es[..n]);
      CallersStep(Exec(es[..n]).value, es[n]);
      TableStep(Exec(es[..n]).value, es[n]);
      WatchersStep(Exec(es[..n]).value, es[n]);
      hide Apply, Enabled, CallersInv, TableInv, WatchersInv;
    }
  }

  // ---- deduplication ----------------------------------------------------------------

  /**
   At every moment of every run without a cleanup: only a registered watcher is ever
   started, only an unregistered one is ever stopped, and whatever a call has returned
   is the watcher registered for its namespace.
   */
  lemma Deduplicated(es: seq<Step>)
    requires Exec(es).Some? && NoCleanup(es)
    ensures var s := Exec(es).value;
            && (forall w :: 0 <= w < |s.watchers| ==>
                  && (s.watchers[w].started ==> IsRegistered(s, w) && !s.watchers[w].stopped)
                  && (s.watchers[w].stopped ==> !IsRegistered(s, w) && !s.watchers[w].started))
            && (forall c :: c in s.callers && s.callers[c].point.Returned? ==>
                  s.callers[c].namespace in s.configWatchers
                  && s.callers[c].point.result == s.configWatchers[s.callers[c].namespace])
  {
    RunInv(es);
    var s := Exec(es).value;
    forall w | 0 <= w < |s.watchers|
      ensures s.watchers[w].started ==> IsRegistered(s, w) && !s.watchers[w].stopped
      ensures s.watchers[w].stopped ==> !IsRegistered(s, w) && !s.watchers[w].started
    {
      assert WatcherInv(s, w);
      assert CallerInv(s, s.watchers[w].owner, s.callers[s.watchers[w].owner]);
    }
  }

  ghost predicate AllReturned(s: State) {
    forall c :: c in s.callers ==> s.callers[c].point.Returned? || s.callers[c].point.Refused?
  }

  /**
   Once all calls have returned: all calls for a namespace got the same watcher,
   which is registered, started and running, and every other watcher was stopped
   without ever having been started.
   */
  lemma ExactlyOneStarted(es: seq<Step>)
    requires Exec(es).Some? && NoCleanup(es) && AllReturned(Exec(es).value)
    ensures var s := Exec(es).value;
            && (forall w :: 0 <= w < |s.watchers| ==>
                  && s.watchers[w].started == IsRegistered(s, w)
                  && s.watchers[w].stopped == !IsRegistered(s, w))
            && (forall c :: c in s.callers && s.callers[c].point.Returned? ==>
                  && s.callers[c].namespace in s.configWatchers
                  && s.callers[c].point.result == s.configWatchers[s.callers[c].namespace])
            && (forall ns :: ns in s.configWatchers ==>
                  && s.configWatchers[ns] < |s.watchers|
                  && var w := s.watchers[s.configWatchers[ns]];
                     w.namespace == ns && w.started && !w.stopped && w.running == w.hasClient)
  {
    RunInv(es);
    var s := Exec(es).value;
    forall w | 0 <= w < |s.watchers|
      ensures s.watchers[w].started == IsRegistered(s, w) && s.watchers[w].stopped == !IsRegistered(s, w)
      ensures s.watchers[w].running == (s.watchers[w].started && s.watchers[w].hasClient)
    {
      OwnerReturned(s, w);
    }
    forall c | c in s.callers && s.callers[c].point.Returned?
      ensures s.callers[c].namespace in s.configWatchers
      ensures s.callers[c].point == Returned(s.configWatchers[s.callers[c].namespace])
    {
      assert CallerInv(s, c, s.callers[c]);
    }
    forall ns | ns in s.configWatchers ensures IsRegistered(s, s.configWatchers[ns]) {}
  }

  lemma OwnerReturned(s: State, w: nat)
    requires Inv(s) && AllReturned(s) && w < |s.watchers|
    ensures s.watchers[w].started == IsRegistered(s, w) && s.watchers[w].stopped == !IsRegistered(s, w)
    ensures s.watchers[w].running == (s.watchers[w].started && s.watchers[w].hasClient)
  {
    assert WatcherInv(s, w);
  }

  /**
   Until a cleanup resets the map a registration is never replaced, so a call for a
   watched namespace never rebuilds its watcher.
   */
  lemma {:induction false} RegisteredForGood(es: seq<Step>, k: nat, ns: string)
    requires Exec(es).Some? && k <= |es| && Exec(es[..k]).Some? && forall j :: k <= j < |es| ==> !es[j].Reset?
    requires ns in Exec(es[..k]).value.configWatchers
    ensures ns in Exec(es).value.configWatchers
    ensures Exec(es).value.configWatchers[ns] == Exec(es[..k]).value.configWatchers[ns]
    decreases |es|
  {
    if k == |es| {
      assert es[..k] == es;
    } else {
      assert es[..|es| - 1][..k] == es[..k];
      hide Apply, Enabled;
      RegisteredForGood(es[..|es| - 1], k, ns);
      RegistrationKept(Exec(es[..|es| - 1]).value, es[|es| - 1], ns);
    }
  }

  lemma RegistrationKept(s: State, e: Step, ns: string)
    requires Enabled(s, e) && !e.Reset? && ns in s.configWatchers
    ensures ns in Apply(s, e).configWatchers && Apply(s, e).configWatchers[ns] == s.configWatchers[ns]
  {}

  // ---- beside a cleanup -----------------------------------------------------------------

  /** What holds of the watcher in a call's hands at all times: it is its own, and not started. */
  ghost predicate OwnInv(s: State, c: nat, p: Point) {
    Own(p).Some? ==>
      var own := Own(p).value;
      own < |s.watchers| && s.watchers[own].owner == c && !s.watchers[own].started && !s.watchers[own].running
  }

  ghost predicate OwnsInv(s: State) {
    forall c :: c in s.callers ==> OwnInv(s, c, s.callers[c].point)
  }

  ghost predicate RunningInv(s: State) {
    forall w :: 0 <= w < |s.watchers| && s.watchers[w].running ==> s.watchers[w].started && s.watchers[w].hasClient
  }

  ghost predicate OwnerInv(s: State) { OwnsInv(s) && RunningInv(s) }

  lemma OwnerStep(s: State, e: Step)
    requires OwnerInv(s) && Enabled(s, e)
    ensures OwnerInv(Apply(s, e))
  {
    RunningStep(s, e);
    hide Apply, Enabled, OwnInv, RunningInv;
    forall c | c in Apply(s, e).callers ensures OwnInv(Apply(s, e), c, Apply(s, e).callers[c].point) {
      if ByCaller(e) && e.c == c {
        OwnMoves(s, e);
      } else {
        OthersStay(s, e, c);
        OwnKept(s, e, c);
      }
    }
  }

  lemma RunningStep(s: State, e: Step)
    requires RunningInv(s) && Enabled(s, e)
    requires ByCaller(e) && e.c in s.callers ==> OwnInv(s, e.c, s.callers[e.c].point)
    ensures RunningInv(Apply(s, e))
  {}

  lemma OwnMoves(s: State, e: Step)
    requires OwnerInv(s) && Enabled(s, e) && ByCaller(e)
    ensures e.c in Apply(s, e).callers && OwnInv(Apply(s, e), e.c, Apply(s, e).callers[e.c].point)
  {
    if e.c in s.callers {
      assert OwnInv(s, e.c, s.callers[e.c].point);
    }
    hide OwnsInv;
  }

  lemma OwnKept(s: State, e: Step, c: nat)
    requires OwnerInv(s) && Enabled(s, e) && c in s.callers && !(ByCaller(e) && e.c == c)
    ensures OwnInv(Apply(s, e), c, s.callers[c].point)
  {
    assert OwnInv(s, c, s.callers[c].point);
    if ByCaller(e) && e.c in s.callers {
      assert OwnInv(s, e.c, s.callers[e.c].point);
    }
    hide OwnsInv;
  }

  /** What a step does to a watcher that exists. */
  lemma WatcherMoves(s: State, e: Step, w: nat)
    requires OwnerInv(s) && Enabled(s, e) && w < |s.watchers|
    ensures w < |Apply(s, e).watchers|
    ensures var t := Apply(s, e);
            && t.watchers[w].hasClient == s.watchers[w].hasClient
            && (Begins(s, e, w) ==> t.watchers[w] == StartIt(s.watchers[w]) && !s.watchers[w].started)
            && (!Begins(s, e, w) ==> t.watchers[w].started == s.watchers[w].started)
            && (s.watchers[w].started && e != StopRegistered(w) ==> t.watchers[w] == s.watchers[w])
            && (e == StopRegistered(w) ==> t.watchers[w] == StopIt(s.watchers[w]))
  {
    if ByCaller(e) && e.c in s.callers {
      assert OwnInv(s, e.c, s.callers[e.c].point);
    }
    hide OwnsInv;
  }

  /** The step starts the watcher. */
  predicate Begins(s: State, e: Step, w: nat) {
    e.StartOwn? && e.c in s.callers && s.callers[e.c].point == Winning(w)
  }
}
