/**
 Which watchers outlive a cleanup.  cleanupWatchers (cleanup.go) stops the watchers
 that are registered and empties the map, but calls of WatchConfig that are under way
 go on, and WatchConfig does not look at destroyed.
 */
module Survivors {
  import opened Common
  import opened Registry

  function StateOf(es: seq<Step>): State
    requires Exec(es).Some?
  {
    Exec(es).value
  }

  /** Event k starts the watcher. */
  ghost predicate StartedAt(es: seq<Step>, k: nat, w: nat) {
    k < |es| && Exec(es[..k]).Some? && Begins(StateOf(es[..k]), es[k], w)
  }

  /** No cleanup stops the watcher after event k. */
  predicate NotStoppedAfter(es: seq<Step>, k: nat, w: nat) {
    forall j :: k < j < |es| ==> es[j] != StopRegistered(w)
  }

  /** Event k starts the watcher, when a cleanup has stopped it already, or none stops it afterwards. */
  ghost predicate Spared(es: seq<Step>, k: nat, w: nat) {
    && StartedAt(es, k, w) && w < |StateOf(es[..k]).watchers|
    && (StateOf(es[..k]).watchers[w].stopped || NotStoppedAfter(es, k, w))
  }

  lemma {:induction false} RunOwner(es: seq<Step>)
    requires Exec(es).Some?
    ensures OwnerInv(StateOf(es))
  {
    if es != [] {
      hide Apply, Enabled, OwnerInv;
      RunOwner(es[..|es| - 1]);
      OwnerStep(StateOf(es[..|es| - 1]), es[|es| - 1]);
    } else {
      NoOwners();
    }
  }

  lemma NoOwners()
    ensures OwnerInv(Nobody)
  {}

  lemma StartedSnoc(es: seq<Step>, k: nat, w: nat)
    requires es != [] && Exec(es).Some?
    ensures StartedAt(es, k, w) <==>
              if k < |es| - 1 then StartedAt(es[..|es| - 1], k, w)
              else k == |es| - 1 && Begins(StateOf(es[..k]), es[k], w)
  {
    if k < |es| - 1 {
      assert es[..|es| - 1][..k] == es[..k];
    }
  }

  /** One more event of a run: what it does to a watcher that exists before it. */
  lemma LastEvent(es: seq<Step>, w: nat)
    requires es != [] && Exec(es).Some? && w < |StateOf(es[..|es| - 1]).watchers|
    ensures w < |StateOf(es).watchers|
    ensures var s, t, e := StateOf(es[..|es| - 1]), StateOf(es), es[|es| - 1];
            && t.watchers[w].hasClient == s.watchers[w].hasClient
            && (Begins(s, e, w) ==> t.watchers[w] == StartIt(s.watchers[w]) && !s.watchers[w].started)
            && (!Begins(s, e, w) ==> t.watchers[w].started == s.watchers[w].started)
            && (s.watchers[w].started && e != StopRegistered(w) ==> t.watchers[w] == s.watchers[w])
            && (e == StopRegistered(w) ==> t.watchers[w] == StopIt(s.watchers[w]))
    ensures OwnerInv(StateOf(es[..|es| - 1])) && OwnerInv(StateOf(es))
  {
    hide Apply, Enabled, OwnerInv, Begins;
    var s, e := StateOf(es[..|es| - 1]), es[|es| - 1];
    RunOwner(es[..|es| - 1]);
    RunOwner(es);
    WatcherMoves(s, e, w);
  }

  lemma StartedWithin(es: seq<Step>, k: nat, w: nat)
    requires StartedAt(es, k, w)
    ensures k < |es|
  {}

  lemma BeginsExisting(s: State, e: Step, w: nat)
    requires OwnerInv(s) && Begins(s, e, w)
    ensures w < |s.watchers| && e != StopRegistered(w)
  {
    assert OwnInv(s, e.c, s.callers[e.c].point);
  }

  /** A watcher that counts as started was started by some event. */
  lemma {:induction false} StartedBy(es: seq<Step>, w: nat) returns (k: nat)
    requires Exec(es).Some? && w < |StateOf(es).watchers| && StateOf(es).watchers[w].started
    ensures StartedAt(es, k, w)
  {
    var n := |es| - 1;
    hide Apply, Enabled, OwnerInv, Begins, StartedAt;
    if w < |StateOf(es[..n]).watchers| {
      LastEvent(es, w);
      if Begins(StateOf(es[..n]), es[n], w) {
        k := n;
        StartedSnoc(es, n, w);
        assert StartedAt(es, k, w);
      } else {
        k := StartedBy(es[..n], w);
        StartedWithin(es[..n], k, w);
        StartedSnoc(es, k, w);
      }
    } else {
      NewIsUnstarted(StateOf(es[..n]), es[n], w);
      assert false;
    }
  }

  lemma NewIsUnstarted(s: State, e: Step, w: nat)
    requires Enabled(s, e) && |s.watchers| <= w < |Apply(s, e).watchers|
    ensures !Apply(s, e).watchers[w].started && !Apply(s, e).watchers[w].running
  {}

  /** The watcher after the one event that started it: it runs until a cleanup stops it for the first time. */
  lemma {:induction false} RunningSince(es: seq<Step>, k: nat, w: nat)
    requires Exec(es).Some? && StartedAt(es, k, w)
    ensures w < |StateOf(es[..k]).watchers| <= |StateOf(es).watchers|
    ensures var was, now := StateOf(es[..k]).watchers[w], StateOf(es).watchers[w];
            && now.started && now.hasClient == was.hasClient
            && (now.stopped <==> was.stopped || !NotStoppedAfter(es, k, w))
            && (now.running <==> now.hasClient && (was.stopped || NotStoppedAfter(es, k, w)))
    decreases |es|
  {
    var n := |es| - 1;
    StartedSnoc(es, k, w);
    StartedWithin(es, k, w);
    RunOwner(es[..n]);
    MoreWatchers(es);
    hide Apply, Enabled, OwnerInv, Begins, StartedAt;
    if k < n {
      assert es[..n][..k] == es[..k];
      RunningSince(es[..n], k, w);
      LastEvent(es, w);
      assert NotStoppedAfter(es, k, w) <==> NotStoppedAfter(es[..n], k, w) && es[n] != StopRegistered(w);
    } else {
      BeginsExisting(StateOf(es[..n]), es[n], w);
      LastEvent(es, w);
    }
  }

  lemma MoreWatchers(es: seq<Step>)
    requires es != [] && Exec(es).Some?
    ensures |StateOf(es[..|es| - 1]).watchers| <= |StateOf(es).watchers|
  {
    hide Apply, Enabled;
    NoneLost(StateOf(es[..|es| - 1]), es[|es| - 1]);
  }

  lemma NoneLost(s: State, e: Step)
    requires Enabled(s, e)
    ensures |s.watchers| <= |Apply(s, e).watchers|
  {}

  ghost predicate WasSpared(es: seq<Step>, w: nat) {
    exists k: nat :: Spared(es, k, w)
  }

  /**
   Exactly which watchers run after any run, cleanups included: those that were
   started with a client, after the first Stop that a cleanup made of them or without
   one to follow.  So a cleanup ends a watcher if and only if it finds it registered
   and its Stop comes after the watcher's Start.
   */
  lemma SurvivorsExactly(es: seq<Step>, w: nat)
    requires Exec(es).Some? && w < |StateOf(es).watchers|
    ensures StateOf(es).watchers[w].running <==> StateOf(es).watchers[w].hasClient && WasSpared(es, w)
  {
    RunOwner(es);
    if StateOf(es).watchers[w].running {
      var k := StartedBy(es, w);
      RunningSince(es, k, w);
      assert Spared(es, k, w);
    }
    if k: nat :| Spared(es, k, w) {
      RunningSince(es, k, w);
    }
    hide Exec, StartedAt, NotStoppedAfter;
  }

  // ---- two ways to survive ----------------------------------------------------------------

  /** A call that has created its watcher, and not registered it. */
  lemma UpToCreate(namespace: string) returns (es: seq<Step>, s: State)
    ensures Exec(es) == Some(s) && s.callers == map[0 := Caller(namespace, Holding(0))]
    ensures s.watchers == [Watcher(namespace, 0, true, false, false, false)] && s.configWatchers == map[]
    ensures !s.locked && s.initialized && s.client
  {
    hide Exec;
    NothingYet();
    es, s := Follow([], Nobody, Call(0, namespace));
    es, s := Follow(es, s, Look(0));
    es, s := Follow(es, s, Create(0));
  }

  /** The rest of a cleanup, once the watchers are dealt with. */
  lemma EndCleanup(es: seq<Step>, s: State) returns (fs: seq<Step>)
    requires Exec(es) == Some(s)
    ensures Exec(fs) == Some(s.(client := false, initialized := false))
  {
    hide Exec;
    var t: State;
    fs, t := Follow(es, s, DropClient);
    fs, t := Follow(fs, t, ClearInitialized);
  }

  /**
   A call that had found no watcher before the cleanup registers and starts its own
   after the map was replaced; the cleanup ends, and the watcher runs.
   */
  lemma LateWatcherSurvives(namespace: string) returns (es: seq<Step>)
    ensures Exec(es).Some? && !StateOf(es).initialized && !StateOf(es).client && AllReturned(StateOf(es))
    ensures StateOf(es).watchers == [Watcher(namespace, 0, true, true, false, true)]
  {
    hide Exec;
    var s: State;
    es, s := UpToCreate(namespace);
    es, s := Follow(es, s, LockMap);
    es, s := Follow(es, s, Reset);
    es, s := Follow(es, s, Register(0));
    es, s := Follow(es, s, StartOwn(0));
    es := EndCleanup(es, s);
  }

  /**
   A registered watcher that the cleanup stops before its call starts it, even while the
   cleanup still holds the lock: its only Stop is spent, and it runs.
   */
  lemma StoppedTooEarlySurvives(namespace: string) returns (es: seq<Step>)
    ensures Exec(es).Some? && !StateOf(es).initialized && !StateOf(es).client && AllReturned(StateOf(es))
    ensures StateOf(es).watchers == [Watcher(namespace, 0, true, true, true, true)]
    ensures StateOf(es).configWatchers == map[]
  {
    hide Exec;
    var s: State;
    es, s := UpToCreate(namespace);
    es, s := Follow(es, s, Register(0));
    es, s := Follow(es, s, LockMap);
    assert s.toStop == {0};
    es, s := Follow(es, s, StopRegistered(0));
    es, s := Follow(es, s, StartOwn(0));
    es, s := Follow(es, s, Reset);
    es := EndCleanup(es, s);
  }

  lemma NothingYet()
    ensures Exec([]) == Some(Nobody)
  {}

  /** One more step of a run whose state is known. */
  lemma Follow(es: seq<Step>, s: State, e: Step) returns (fs: seq<Step>, t: State)
    requires Exec(es) == Some(s) && Enabled(s, e)
    ensures fs == es + [e] && t == Apply(s, e) && Exec(fs) == Some(t)
  {
    fs, t := es + [e], Apply(s, e);
    assert fs[..|es|] == es;
  }
}
