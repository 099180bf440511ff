/**
 ConfigWatcher of watchers.go around the ApolloConfigWatcher of module Watcher.
 Start and Stop each run their body once (sync.Once), so there is one starter,
 one stopper and one dispatch goroutine; their steps interleave freely with each
 other and with the steps of the inner watcher.
 */
module Dispatcher {
  import opened Common
  import opened Watcher
  import opened WatcherRuns

  /** Progress of the body of Start. */
  datatype Starting = NotBegun | Created | Published | Swapped | InnerStarted | WgAdded | Started

  /** Progress of the body of Stop. */
  datatype Stopping = Running | OuterClosed | StoppingInner | AwaitingDispatch | Stopped

  /** Program counter of dispatchLoop. */
  datatype Dispatch =
    | Absent
    | DTop                    // before the select on stopCh
    | InNext                  // before the look at the inner closed flag
    | Receiving               // in the select of Next
    | Failed                  // Next returned an error
    | Reporting               // about to call onError
    | Calling(rest: Batch)    // calling onChange for each of the rest
    | Gone

  datatype Outer = Outer(
    hasClient: bool,
    inner: State,
    starting: Starting,
    stopping: Stopping,
    dispatch: Dispatch,
    wg: int,
    sawWatcher: bool,         // what Stop found in apolloWatcher
    // history
    errorsReported: nat,
    changes: Batch)           // the onChange calls

  predicate StopClosed(o: Outer) { o.stopping != Running }

  predicate IsPublished(o: Outer) {
    o.starting != NotBegun && o.starting != Created && o.hasClient
  }

  datatype Act =
    | BeginStart | Publish | InnerStart(e: Step) | AddDispatcher | GoDispatcher
    | BeginStop | ReadWatcher | InnerStop(e: Step) | FinishStop
    | InnerLoop(e: Step)
    | DispatchCheck | NextRefused | NextEnter | NextGot | NextEnd | DispatchError | Report | Call

  function Initial(namespace: string, hasClient: bool): Outer {
    Outer(hasClient, Watcher.New(namespace), NotBegun, Running, Absent, 0, false, 0, [])
  }

  /** The call aw.Start: swap the context, run the once body, return. */
  predicate StartCallEnabled(o: Outer, e: Step) {
    match e
    case StartSwap(_) => o.starting == Published
    case StartEnter => o.starting == Swapped && Enabled(o.inner, e)
    case StartAdd => o.starting == Swapped && Enabled(o.inner, e)
    case StartLaunch => o.starting == Swapped && Enabled(o.inner, e)
    case StartReturn => o.starting == Swapped && Enabled(o.inner, e)
    case _ => false
  }

  /** The call aw.Stop. */
  predicate StopCallEnabled(o: Outer, e: Step) {
    && (e.StopEnter? || e.StopCancel? || e.StopClose? || e.StopReturn?)
    && o.stopping == StoppingInner && Enabled(o.inner, e)
  }

  predicate Can(o: Outer, a: Act) {
    match a
    case BeginStart => o.starting == NotBegun
    case Publish => o.starting == Created
    case InnerStart(e) => StartCallEnabled(o, e)
    case AddDispatcher => o.starting == InnerStarted
    case GoDispatcher => o.starting == WgAdded
    case BeginStop => o.stopping == Running
    case ReadWatcher => o.stopping == OuterClosed
    case InnerStop(e) => StopCallEnabled(o, e)
    case FinishStop => o.stopping == AwaitingDispatch && o.wg == 0
    case InnerLoop(e) => (IsLoopStep(e) || e.CancelParent?) && Enabled(o.inner, e)
    case DispatchCheck => o.dispatch == DTop
    case NextRefused => o.dispatch == InNext && Closed(o.inner)
    case NextEnter => o.dispatch == InNext && Enabled(o.inner, NextCheck)
    case NextGot => o.dispatch == Receiving && Enabled(o.inner, NextReceive)
    case NextEnd => o.dispatch == Receiving && Enabled(o.inner, NextStopped)
    case DispatchError => o.dispatch == Failed
    case Report => o.dispatch == Reporting
    case Call => o.dispatch.Calling?
  }

  function Do(o: Outer, a: Act): Outer
    requires Can(o, a)
  {
    match a
    case BeginStart => o.(starting := if o.hasClient then Created else Started)
    case Publish => o.(starting := Published)
    case InnerStart(e) =>
      o.(inner := Apply(o.inner, e),
         starting := if e.StartSwap? then Swapped else if e.StartReturn? then InnerStarted else o.starting)
    case AddDispatcher => o.(starting := WgAdded, wg := o.wg + 1)
    case GoDispatcher => o.(starting := Started, dispatch := DTop)
    case BeginStop => o.(stopping := OuterClosed)
    case ReadWatcher =>
      o.(sawWatcher := IsPublished(o), stopping := if IsPublished(o) then StoppingInner else AwaitingDispatch)
    case InnerStop(e) =>
      o.(inner := Apply(o.inner, e), stopping := if e.StopReturn? then AwaitingDispatch else o.stopping)
    case FinishStop => o.(stopping := Stopped)
    case InnerLoop(e) => o.(inner := Apply(o.inner, e))
    case DispatchCheck => if StopClosed(o) then o.(dispatch := Gone, wg := o.wg - 1) else o.(dispatch := InNext)
    case NextRefused => o.(dispatch := Failed)
    case NextEnter => o.(inner := Apply(o.inner, NextCheck), dispatch := Receiving)
    case NextGot => o.(inner := Apply(o.inner, NextReceive), dispatch := Calling(o.inner.notifyCh[0]))
    case NextEnd => o.(inner := Apply(o.inner, NextStopped), dispatch := Failed)
    case DispatchError => if StopClosed(o) then o.(dispatch := Gone, wg := o.wg - 1) else o.(dispatch := Reporting)
    case Report => o.(dispatch := Gone, wg := o.wg - 1, errorsReported := o.errorsReported + 1)
    case Call =>
      if o.dispatch.rest == [] then o.(dispatch := DTop)
      else o.(dispatch := Calling(o.dispatch.rest[1..]), changes := o.changes + [o.dispatch.rest[0]])
  }

  function Play(namespace: string, hasClient: bool, acts: seq<Act>): Option<Outer> {
    if acts == [] then Some(Initial(namespace, hasClient))
    else
      var n := |acts| - 1;
      var before := Play(namespace, hasClient, acts[..n]);
      if before.Some? && Can(before.value, acts[n]) then Some(Do(before.value, acts[n])) else None
  }

  /** The steps that a run makes the inner watcher take. */
  function InnerStep(a: Act): seq<Step> {
    match a
    case InnerStart(e) => [e]
    case InnerStop(e) => [e]
    case InnerLoop(e) => [e]
    case NextEnter => [NextCheck]
    case NextGot => [NextReceive]
    case NextEnd => [NextStopped]
    case _ => []
  }

  function InnerSteps(acts: seq<Act>): seq<Step> {
    if acts == [] then [] else InnerSteps(acts[..|acts| - 1]) + InnerStep(acts[|acts| - 1])
  }

  lemma {:induction false} PlayPrefix(namespace: string, hasClient: bool, acts: seq<Act>, k: nat)
    requires Play(namespace, hasClient, acts).Some? && k <= |acts|
    ensures Play(namespace, hasClient, acts[..k]).Some?
  {
    if k == |acts| {
      assert acts[..k] == acts;
    } else {
      PlayPrefix(namespace, hasClient, acts[..|acts| - 1], k);
      assert acts[..|acts| - 1][..k] == acts[..k];
    }
  }

  /** Composition: every run of the outer watcher is, seen from inside, a run of the inner one. */
  lemma {:induction false} InnerRun(namespace: string, hasClient: bool, acts: seq<Act>)
    requires Play(namespace, hasClient, acts).Some?
    ensures Exec(namespace, InnerSteps(acts)) == Some(Play(namespace, hasClient, acts).value.inner)
  {
    if acts != [] {
      var n := |acts| - 1;
      InnerRun(namespace, hasClient, acts[..n]);
      hide Apply, Enabled;
      InnerDo(Play(namespace, hasClient, acts[..n]).value, acts[n]);
      var steps := InnerSteps(acts[..n]);
      if InnerStep(acts[n]) == [] {
        assert steps + [] == steps;
      } else {
        assert (steps + InnerStep(acts[n]))[..|steps|] == steps;
      }
    }
  }

  /** An act is the identity on the inner watcher, or one enabled step of it. */
  lemma InnerDo(o: Outer, a: Act)
    requires Can(o, a)
    ensures InnerStep(a) == [] ==> Do(o, a).inner == o.inner
    ensures InnerStep(a) != [] ==> |InnerStep(a)| == 1 && Enabled(o.inner, InnerStep(a)[0])
                                   && Do(o, a).inner == Apply(o.inner, InnerStep(a)[0])
  {
    hide Apply, LoopEnabled;
  }

  // ---- the invariant ------------------------------------------------------------------

  function Flatten(bs: seq<Batch>): Batch {
    if bs == [] then [] else Flatten(bs[..|bs| - 1]) + bs[|bs| - 1]
  }

  predicate Dispatching(o: Outer) { o.dispatch != Absent && o.dispatch != Gone }

  /** The inner watcher is stopped only after the outer stopCh is closed. */
  ghost predicate OrderInv(o: Outer) {
    && (Closed(o.inner) ==> o.sawWatcher && StopClosed(o))
    && (o.dispatch == Failed ==> StopClosed(o))
    && o.dispatch != Reporting && o.errorsReported == 0
    && (o.dispatch != Absent ==> o.starting == Started)
    && o.wg == (if o.starting == WgAdded || Dispatching(o) then 1 else 0)
    && (o.stopping == Stopped ==> o.dispatch in {Absent, DTop, Gone})
  }

  /** What Stop found decides how far it stopped the inner watcher. */
  ghost predicate StopInv(o: Outer) {
    && (o.stopping in {Running, OuterClosed} ==> !o.sawWatcher)
    && (o.stopping == StoppingInner ==> o.sawWatcher)
    && (o.stopping in {AwaitingDispatch, Stopped} && o.sawWatcher ==> o.inner.stopReturned)
    && (o.inner.stopReturned ==> o.sawWatcher)
  }

  /** onChange is called for the received key/values in order, none skipped or repeated. */
  ghost predicate OrderOfChanges(o: Outer) {
    o.changes + Pending(o) == Flatten(o.inner.received)
  }

  lemma InnerQuiet(s: State, e: Step)
    requires Enabled(s, e) && (IsLoopStep(e) || e.CancelParent?)
    ensures Apply(s, e).stop == s.stop && Apply(s, e).stopReturned == s.stopReturned
    ensures Apply(s, e).received == s.received
  {}

  lemma OrderStep(o: Outer, a: Act)
    requires OrderInv(o) && StopInv(o) && Can(o, a)
    ensures OrderInv(Do(o, a)) && StopInv(Do(o, a))
  {
    hide Apply, Enabled;
    if a.InnerLoop? {
      InnerQuiet(o.inner, a.e);
    } else if a.InnerStart? {
      StartQuiet(o.inner, a.e);
    } else if a.InnerStop? {
      StopEffect(o.inner, a.e);
    } else if InnerStep(a) != [] {
      NextQuiet(o.inner, InnerStep(a)[0]);
    }
  }

  lemma NextQuiet(s: State, e: Step)
    requires Enabled(s, e) && (e.NextCheck? || e.NextReceive? || e.NextStopped?)
    ensures Apply(s, e).stop == s.stop && Apply(s, e).stopReturned == s.stopReturned
    ensures e.NextStopped? ==> Closed(s)
  {}

  lemma StartQuiet(s: State, e: Step)
    requires Enabled(s, e) && (e.StartSwap? || e.StartEnter? || e.StartAdd? || e.StartLaunch? || e.StartReturn?)
    ensures Apply(s, e).stop == s.stop && Apply(s, e).stopReturned == s.stopReturned
  {}

  lemma StopEffect(s: State, e: Step)
    requires Enabled(s, e) && (e.StopEnter? || e.StopCancel? || e.StopClose? || e.StopReturn?)
    ensures Closed(Apply(s, e))
    ensures Apply(s, e).stopReturned == (s.stopReturned || e.StopReturn?)
  {}

  lemma ReceivedGrows(bs: seq<Batch>, b: Batch)
    ensures Flatten(bs + [b]) == Flatten(bs) + b
  {
    assert (bs + [b])[..|bs|] == bs;
  }

  lemma InnerKeepsReceived(s: State, e: Step)
    requires Enabled(s, e) && !e.NextReceive?
    ensures Apply(s, e).received == s.received
  {}

  lemma ChangesGot(o: Outer)
    requires OrderOfChanges(o) && Can(o, NextGot) && |o.inner.notifyCh| <= 1
    ensures OrderOfChanges(Do(o, NextGot))
  {
    var b := o.inner.notifyCh[0];
    assert o.inner.notifyCh == [b];
    ReceivedGrows(o.inner.received, b);
    assert o.changes + [] == o.changes;
  }

  lemma ChangesCall(o: Outer)
    requires OrderOfChanges(o) && Can(o, Call)
    ensures OrderOfChanges(Do(o, Call))
  {
    var rest := o.dispatch.rest;
    if rest != [] {
      assert o.changes + [rest[0]] + rest[1..] == o.changes + rest;
    }
  }

  function Pending(o: Outer): Batch {
    if o.dispatch.Calling? then o.dispatch.rest else []
  }

  lemma PendingKept(o: Outer, a: Act)
    requires OrderInv(o) && Can(o, a) && !a.NextGot? && !a.Call?
    ensures Do(o, a).changes == o.changes && Pending(Do(o, a)) == Pending(o)
  {
    hide Apply, Enabled;
  }

  lemma ReceivedKept(o: Outer, a: Act)
    requires Can(o, a) && !a.NextGot?
    ensures Do(o, a).inner.received == o.inner.received
  {
    hide Do, Apply, Enabled;
    InnerDo(o, a);
    if InnerStep(a) != [] {
      InnerKeepsReceived(o.inner, InnerStep(a)[0]);
    }
  }

  lemma ChangesStep(o: Outer, a: Act)
    requires OrderInv(o) && OrderOfChanges(o) && Can(o, a) && |o.inner.notifyCh| <= 1
    ensures OrderOfChanges(Do(o, a))
  {
    if a.NextGot? {
      ChangesGot(o);
    } else if a.Call? {
      ChangesCall(o);
    } else {
      hide Can, Do, Flatten, Pending, OrderInv;
      PendingKept(o, a);
      ReceivedKept(o, a);
    }
  }

  lemma {:induction false} PlayInv(namespace: string, hasClient: bool, acts: seq<Act>)
    requires Play(namespace, hasClient, acts).Some?
    ensures var o := Play(namespace, hasClient, acts).value;
            OrderInv(o) && StopInv(o) && OrderOfChanges(o)
  {
    if acts != [] {
      var n := |acts| - 1;
      PlayInv(namespace, hasClient, acts[..n]);
      var o := Play(namespace, hasClient, acts[..n]).value;
      InnerRun(namespace, hasClient, acts[..n]);
      Delivered(namespace, InnerSteps(acts[..n]));
      hide Apply, Enabled, Can, OrderInv, StopInv, OrderOfChanges;
      OrderStep(o, acts[n]);
      ChangesStep(o, acts[n]);
    }
  }

  lemma LastAct(namespace: string, hasClient: bool, acts: seq<Act>)
    requires Play(namespace, hasClient, acts).Some? && acts != []
    ensures var n := |acts| - 1;
            && Play(namespace, hasClient, acts[..n]).Some?
            && Can(Play(namespace, hasClient, acts[..n]).value, acts[n])
            && Play(namespace, hasClient, acts).value == Do(Play(namespace, hasClient, acts[..n]).value, acts[n])
            && OrderInv(Play(namespace, hasClient, acts[..n]).value)
            && StopInv(Play(namespace, hasClient, acts[..n]).value)
  {
    hide Can, OrderInv, StopInv;
    PlayInv(namespace, hasClient, acts[..|acts| - 1]);
  }

  // ---- properties of every run -----------------------------------------------------------

  /** Silent: in every interleaving of Start, Stop and the goroutines, onError is never called. */
  lemma NeverReportsError(namespace: string, hasClient: bool, acts: seq<Act>)
    requires Play(namespace, hasClient, acts).Some?
    ensures Play(namespace, hasClient, acts).value.errorsReported == 0
  {
    PlayInv(namespace, hasClient, acts);
  }

  /**
   The onChange calls made so far are a prefix of the key/values that the inner
   watcher delivered, batch after batch, in order.
   */
  lemma ChangesFollowDeliveries(namespace: string, hasClient: bool, acts: seq<Act>)
    requires Play(namespace, hasClient, acts).Some?
    ensures var o := Play(namespace, hasClient, acts).value;
            && o.changes <= Flatten(o.inner.received)
            && (!o.dispatch.Calling? ==> o.changes == Flatten(o.inner.received))
            && o.inner.received <= Batches(o.inner.sent)
  {
    PlayInv(namespace, hasClient, acts);
    InnerRun(namespace, hasClient, acts);
    Delivered(namespace, InnerSteps(acts));
  }

  lemma StoppedDo(o: Outer, a: Act)
    requires OrderInv(o) && o.stopping == Stopped && Can(o, a)
    ensures Do(o, a).stopping == Stopped && Do(o, a).changes == o.changes && Do(o, a).sawWatcher == o.sawWatcher
  {
    hide Apply, Enabled;
  }

  /** After Stop has returned no onChange is called, whether or not Start had completed before. */
  lemma {:induction false} NoChangeAfterStop(namespace: string, hasClient: bool, acts: seq<Act>, k: nat)
    requires Play(namespace, hasClient, acts).Some? && k <= |acts|
    requires Play(namespace, hasClient, acts[..k]).Some?
    requires Play(namespace, hasClient, acts[..k]).value.stopping == Stopped
    ensures var o, p := Play(namespace, hasClient, acts[..k]).value, Play(namespace, hasClient, acts).value;
            p.stopping == Stopped && p.changes == o.changes && p.sawWatcher == o.sawWatcher
    decreases |acts|
  {
    hide *;
    if k == |acts| {
      assert acts[..k] == acts;
    } else {
      var n := |acts| - 1;
      assert acts[..n][..k] == acts[..k];
      LastAct(namespace, hasClient, acts);
      NoChangeAfterStop(namespace, hasClient, acts[..n], k);
      StoppedDo(Play(namespace, hasClient, acts[..n]).value, acts[n]);
    }
  }

  /** What Stop finds is whether Start had published the inner watcher by then. */
  lemma {:induction false} StopSeesPublished(namespace: string, hasClient: bool, acts: seq<Act>, j: nat)
    requires Play(namespace, hasClient, acts).Some? && j < |acts| && acts[j] == ReadWatcher
    requires Play(namespace, hasClient, acts[..j]).Some?
    ensures var o, p := Play(namespace, hasClient, acts[..j]).value, Play(namespace, hasClient, acts).value;
            p.sawWatcher == IsPublished(o) && p.stopping != Running && p.stopping != OuterClosed
    decreases |acts|
  {
    hide *;
    var n := |acts| - 1;
    assert acts[..n][..j] == acts[..j];
    LastAct(namespace, hasClient, acts);
    if j < n {
      StopSeesPublished(namespace, hasClient, acts[..n], j);
      ReadsOnce(Play(namespace, hasClient, acts[..n]).value, acts[n]);
    } else {
      ReadSees(Play(namespace, hasClient, acts[..n]).value);
    }
  }

  lemma ReadsOnce(o: Outer, a: Act)
    requires Can(o, a) && o.stopping != Running && o.stopping != OuterClosed
    ensures Do(o, a).sawWatcher == o.sawWatcher && Do(o, a).stopping != Running && Do(o, a).stopping != OuterClosed
  {
    hide Apply, Enabled;
  }

  lemma ReadSees(o: Outer)
    requires Can(o, ReadWatcher)
    ensures Do(o, ReadWatcher).sawWatcher == IsPublished(o)
    ensures Do(o, ReadWatcher).stopping != Running && Do(o, ReadWatcher).stopping != OuterClosed
  {}

  /**
   Teardown, exactly: once Stop has returned, the inner watcher is stopped if and
   only if Start had published it when Stop looked, and if it is, it never polls
   or sends again.
   */
  lemma StopReachesInner(namespace: string, hasClient: bool, acts: seq<Act>, k: nat)
    requires Play(namespace, hasClient, acts).Some? && k <= |acts|
    requires Play(namespace, hasClient, acts[..k]).Some?
    requires Play(namespace, hasClient, acts[..k]).value.stopping == Stopped
    ensures var o, p := Play(namespace, hasClient, acts[..k]).value, Play(namespace, hasClient, acts).value;
            && (o.inner.stopReturned <==> o.sawWatcher)
            && (p.inner.stopReturned <==> o.sawWatcher)
            && (o.sawWatcher ==> p.inner.polled == o.inner.polled && p.inner.sent == o.inner.sent)
  {
    hide Play, OrderInv, OrderOfChanges, Exec, Can, Do;
    PlayInv(namespace, hasClient, acts[..k]);
    PlayInv(namespace, hasClient, acts);
    NoChangeAfterStop(namespace, hasClient, acts, k);
    InnerRun(namespace, hasClient, acts[..k]);
    InnerRun(namespace, hasClient, acts);
    InnerStepsPrefix(acts, k);
    var o := Play(namespace, hasClient, acts[..k]).value;
    if o.sawWatcher {
      assert InnerSteps(acts)[..|InnerSteps(acts[..k])|] == InnerSteps(acts[..k]);
      StopIsFinal(namespace, InnerSteps(acts), |InnerSteps(acts[..k])|);
    }
  }

  lemma {:induction false} InnerStepsPrefix(acts: seq<Act>, k: nat)
    requires k <= |acts|
    ensures InnerSteps(acts[..k]) <= InnerSteps(acts)
  {
    if k == |acts| {
      assert acts[..k] == acts;
    } else {
      InnerStepsPrefix(acts[..|acts| - 1], k);
      assert acts[..|acts| - 1][..k] == acts[..k];
    }
  }

  // ---- the leak -------------------------------------------------------------------------

  lemma Perform(namespace: string, acts: seq<Act>, o: Outer, a: Act, p: Outer) returns (bs: seq<Act>)
    requires Play(namespace, true, acts) == Some(o) && Can(o, a) && Do(o, a) == p
    ensures bs == acts + [a] && Play(namespace, true, bs) == Some(p)
  {
    bs := acts + [a];
    assert bs[..|acts|] == acts;
  }

  lemma NoActs(namespace: string)
    ensures Play(namespace, true, []) == Some(Initial(namespace, true))
  {}

  /**
   A Stop that overtakes the publication in Start leaks the inner watcher: Stop
   has returned, Start goes on, and the long poll runs with nobody left to stop it.
   */
  lemma EarlyStopLeaks(namespace: string) returns (acts: seq<Act>)
    ensures Play(namespace, true, acts).Some?
    ensures var o := Play(namespace, true, acts).value;
            && o.stopping == Stopped && !o.sawWatcher
            && TheLoop(o.inner) == Polling(1, 0) && !Closed(o.inner)
  {
    NoActs(namespace);
    hide Play;
    var o := Initial(namespace, true);
    var stopped := o.(stopping := Stopped);
    acts := Perform(namespace, [], o, BeginStop, o.(stopping := OuterClosed));
    acts := Perform(namespace, acts, o.(stopping := OuterClosed), ReadWatcher, o.(stopping := AwaitingDispatch));
    acts := Perform(namespace, acts, o.(stopping := AwaitingDispatch), FinishStop, stopped);
    acts := Perform(namespace, acts, stopped, BeginStart, stopped.(starting := Created));
    acts := Perform(namespace, acts, stopped.(starting := Created), Publish, stopped.(starting := Published));
    acts := InnerPoll(namespace, acts, stopped.(starting := Published));
  }

  /** From the publication on, the inner watcher can be started and poll. */
  lemma InnerPoll(namespace: string, before: seq<Act>, o: Outer) returns (acts: seq<Act>)
    requires Play(namespace, true, before) == Some(o)
    requires o.starting == Published && o.inner == Watcher.New(namespace)
    ensures Play(namespace, true, acts).Some?
    ensures var p := Play(namespace, true, acts).value;
            && p.stopping == o.stopping && p.sawWatcher == o.sawWatcher
            && TheLoop(p.inner) == Polling(1, 0) && !Closed(p.inner)
  {
    hide Play;
    var i0 := o.inner;
    var i1 := i0.(watchCtx := 1, contexts := 2, cancelled := {0}, starters := 1);
    assert i0.cancelled + {0} + {} == {0};
    var i2, i3 := i1.(start := Entered), i1.(start := Watcher.Added, wg := 1);
    var i4 := i3.(start := Launched, loops := [Top]);
    var p := o.(starting := Swapped);
    acts := Perform(namespace, before, o, InnerStart(StartSwap(false)), p.(inner := i1));
    acts := Perform(namespace, acts, p.(inner := i1), InnerStart(StartEnter), p.(inner := i2));
    acts := Perform(namespace, acts, p.(inner := i2), InnerStart(StartAdd), p.(inner := i3));
    acts := Perform(namespace, acts, p.(inner := i3), InnerStart(StartLaunch), p.(inner := i4));
    acts := FirstPollOf(namespace, acts, p.(inner := i4));
  }

  lemma CheckThenPoll(s: State)
    requires s.loops == [Top] && s.stop == NotStopped && s.watchCtx == 1 && s.notificationId == 0
    ensures Enabled(s, LoopCheck(0)) && Apply(s, LoopCheck(0)) == s.(loops := [Passed])
    ensures Enabled(s.(loops := [Passed]), LoopPoll(0))
    ensures Apply(s.(loops := [Passed]), LoopPoll(0)) == s.(loops := [Polling(1, 0)], polled := s.polled + [0])
  {}

  lemma FirstPollOf(namespace: string, before: seq<Act>, o: Outer) returns (acts: seq<Act>)
    requires Play(namespace, true, before) == Some(o)
    requires o.inner.loops == [Top] && o.inner.stop == NotStopped
    requires o.inner.watchCtx == 1 && o.inner.notificationId == 0
    ensures Play(namespace, true, acts).Some?
    ensures var p := Play(namespace, true, acts).value;
            && p.stopping == o.stopping && p.sawWatcher == o.sawWatcher
            && TheLoop(p.inner) == Polling(1, 0) && !Closed(p.inner)
  {
    hide Play, Enabled, Apply;
    CheckThenPoll(o.inner);
    var i1 := o.inner.(loops := [Passed]);
    acts := Perform(namespace, before, o, InnerLoop(LoopCheck(0)), o.(inner := i1));
    acts := Perform(namespace, acts, o.(inner := i1), InnerLoop(LoopPoll(0)),
                    o.(inner := i1.(loops := [Polling(1, 0)], polled := i1.polled + [0])));
  }
}
