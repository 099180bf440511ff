/**
 What calls of WatchConfig and cleanups bring about, over every run of the registry: who
 is refused, who gets a watcher at once, whom a cleanup stops, and that nobody is stuck.
 */
module RegistryRuns {
  import opened Common
  import opened Registry
  import opened Survivors

  lemma {:induction false} Prefix(es: seq<Step>, k: nat)
    requires Exec(es).Some? && k <= |es|
    ensures Exec(es[..k]).Some?
    ensures k < |es| ==> Enabled(StateOf(es[..k]), es[k]) && Exec(es[..k + 1]) == Some(Apply(StateOf(es[..k]), es[k]))
  {
    hide Enabled, Apply;
    var n := |es| - 1;
    if k == |es| {
      assert es[..k] == es;
    } else if k == n {
      assert es[..n + 1] == es;
    } else {
      Prefix(es[..n], k);
      assert es[..n][..k] == es[..k] && es[..n][..k + 1] == es[..k + 1];
    }
  }

  // ---- calls --------------------------------------------------------------------------

  lemma RefusedStays(s: State, e: Step, c: nat)
    requires Enabled(s, e) && c in s.callers
    ensures c in Apply(s, e).callers && Apply(s, e).callers[c].point.Refused? == s.callers[c].point.Refused?
  {}

  lemma {:induction false} RefusedForGood(es: seq<Step>, k: nat, c: nat)
    requires Exec(es).Some? && k <= |es| && Exec(es[..k]).Some? && c in StateOf(es[..k]).callers
    ensures c in StateOf(es).callers
    ensures StateOf(es).callers[c].point.Refused? == StateOf(es[..k]).callers[c].point.Refused?
    decreases |es|
  {
    hide Enabled, Apply;
    if k == |es| {
      assert es[..k] == es;
    } else {
      var n := |es| - 1;
      assert es[..n][..k] == es[..k] && es[..n + 1] == es;
      Prefix(es, n);
      RefusedForGood(es[..n], k, c);
      RefusedStays(StateOf(es[..n]), es[n], c);
    }
  }

  lemma CallBegins(s: State, c: nat, ns: string)
    requires Enabled(s, Call(c, ns))
    ensures c in Apply(s, Call(c, ns)).callers
    ensures Apply(s, Call(c, ns)).callers[c] == Caller(ns, if s.initialized then Looking else Refused)
  {}

  /** A call is refused if and only if the plugin was not initialized when it was made. */
  lemma RefusedExactly(es: seq<Step>, k: nat, c: nat, ns: string)
    requires Exec(es).Some? && k < |es| && es[k] == Call(c, ns)
    ensures Exec(es[..k]).Some? && c in StateOf(es).callers
    ensures StateOf(es).callers[c].point.Refused? <==> !StateOf(es[..k]).initialized
  {
    hide Enabled, Apply;
    Prefix(es, k);
    CallBegins(StateOf(es[..k]), c, ns);
    RefusedForGood(es, k + 1, c);
  }

  /** A call that finds its namespace registered returns that watcher at once, and creates none. */
  lemma LookFinds(es: seq<Step>, k: nat, c: nat)
    requires Exec(es).Some? && k < |es| && es[k] == Look(c)
    ensures Exec(es[..k]).Some? && Exec(es[..k + 1]).Some? && c in StateOf(es[..k]).callers
    ensures var s, t := StateOf(es[..k]), StateOf(es[..k + 1]);
            var ns := s.callers[c].namespace;
            && t.watchers == s.watchers && c in t.callers
            && t.callers[c].point == if ns in s.configWatchers then Returned(s.configWatchers[ns]) else Missed
  {
    Prefix(es, k);
    hide Exec;
  }

  /** What a call does next. */
  function NextOfCall(c: nat, p: Point): Step {
    match p
    case Looking => Look(c)
    case Missed => Create(c)
    case Holding(_) => Register(c)
    case Losing(_, _) => StopOwn(c)
    case _ => StartOwn(c)
  }

  /** A call that has not returned can go on, but for the wait for the lock while a cleanup holds it. */
  lemma CallGoesOn(es: seq<Step>, c: nat)
    requires Exec(es).Some? && c in StateOf(es).callers
    ensures var s := StateOf(es);
            var p := s.callers[c].point;
            !p.Returned? && !p.Refused? ==>
              (Enabled(s, NextOfCall(c, p)) <==> !(s.locked && (p.Looking? || p.Holding?)))
  {
    RunOwner(es);
    assert OwnInv(StateOf(es), c, StateOf(es).callers[c].point);
    hide Exec;
  }

  // ---- a cleanup ------------------------------------------------------------------------

  /** While a cleanup holds the lock every registered watcher is stopped or still to be stopped. */
  ghost predicate LockInv(s: State) {
    && (forall ns :: ns in s.configWatchers ==> s.configWatchers[ns] < |s.watchers|)
    && (forall w :: w in s.toStop ==> w < |s.watchers|)
    && (s.locked ==> forall ns :: ns in s.configWatchers ==>
          s.configWatchers[ns] in s.toStop || s.watchers[s.configWatchers[ns]].stopped)
  }

  lemma LockStep(s: State, e: Step)
    requires LockInv(s) && OwnerInv(s) && Enabled(s, e)
    ensures LockInv(Apply(s, e))
  {
    if ByCaller(e) && e.c in s.callers {
      assert OwnInv(s, e.c, s.callers[e.c].point);
    }
    StoppedStays(s, e);
    hide OwnsInv, RunningInv;
  }

  lemma StoppedStays(s: State, e: Step)
    requires Enabled(s, e)
    ensures |s.watchers| <= |Apply(s, e).watchers|
    ensures forall w :: 0 <= w < |s.watchers| && s.watchers[w].stopped ==> Apply(s, e).watchers[w].stopped
  {}

  lemma {:induction false} RunLock(es: seq<Step>)
    requires Exec(es).Some?
    ensures LockInv(StateOf(es))
  {
    if es == [] {
      NothingLocked();
    } else {
      hide Enabled, Apply, LockInv, OwnerInv;
      var n := |es| - 1;
      Prefix(es, n);
      assert es[..n + 1] == es;
      RunLock(es[..n]);
      RunOwner(es[..n]);
      LockStep(StateOf(es[..n]), es[n]);
    }
  }

  lemma NothingLocked()
    ensures LockInv(Nobody)
  {}

  lemma {:induction false} StoppedForGood(es: seq<Step>, k: nat, w: nat)
    requires Exec(es).Some? && k <= |es| && Exec(es[..k]).Some?
    requires w < |StateOf(es[..k]).watchers| && StateOf(es[..k]).watchers[w].stopped
    ensures w < |StateOf(es).watchers| && StateOf(es).watchers[w].stopped
    decreases |es|
  {
    hide Enabled, Apply;
    if k == |es| {
      assert es[..k] == es;
    } else {
      var n := |es| - 1;
      assert es[..n][..k] == es[..k] && es[..n + 1] == es;
      Prefix(es, n);
      StoppedForGood(es[..n], k, w);
      StoppedStays(StateOf(es[..n]), es[n]);
    }
  }

  /** Every watcher that was registered when a cleanup took the lock has been stopped when it replaces the map. */
  lemma CleanupStopsAll(es: seq<Step>, j: nat, k: nat, ns: string)
    requires Exec(es).Some? && j < k < |es| && es[j].LockMap? && es[k].Reset?
    requires forall m :: j < m < k ==> !es[m].Reset?
    requires Exec(es[..j]).Some? && ns in StateOf(es[..j]).configWatchers
    ensures var w := StateOf(es[..j]).configWatchers[ns];
            w < |StateOf(es).watchers| && StateOf(es).watchers[w].stopped
  {
    hide Apply;
    Prefix(es, k);
    assert es[..k][..j] == es[..j];
    RegisteredForGood(es[..k], j, ns);
    RunLock(es[..k]);
    AllStopped(StateOf(es[..k]), ns);
    StoppedForGood(es, k, StateOf(es[..j]).configWatchers[ns]);
  }

  lemma AllStopped(s: State, ns: string)
    requires LockInv(s) && Enabled(s, Reset) && ns in s.configWatchers
    ensures s.configWatchers[ns] < |s.watchers| && s.watchers[s.configWatchers[ns]].stopped
  {}

  /** A cleanup that holds the lock can always go on to its end. */
  lemma CleanupGoesOn(es: seq<Step>)
    requires Exec(es).Some? && StateOf(es).locked
    ensures Enabled(StateOf(es), Reset) || exists w :: Enabled(StateOf(es), StopRegistered(w))
  {
    RunLock(es);
    hide Exec;
    var s := StateOf(es);
    if w :| w in s.toStop {
      assert Enabled(s, StopRegistered(w));
    }
  }
}
