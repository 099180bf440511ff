/**
 That the dispatch of changes happens: a ConfigWatcher that has been started and not
 stopped has a dispatch goroutine, which is never stuck while there is something to do,
 and can always call back everything that has been sent.
 */
module DispatchRuns {
  import opened Common
  import opened Watcher
  import opened WatcherRuns
  import opened Dispatcher
  import WatchLoop

  /** The goroutine is there from the end of Start to the end of Stop, and waits in Next as counted. */
  ghost predicate AliveInv(o: Outer) {
    && (o.hasClient && o.starting == Started ==> o.dispatch != Absent)
    && (o.dispatch == Gone ==> StopClosed(o))
    && o.inner.receivers == (if o.dispatch == Receiving then 1 else 0)
  }

  lemma ReceiversOnlyByNext(s: State, e: Step)
    requires Enabled(s, e) && !e.NextCheck? && !e.NextReceive? && !e.NextStopped?
    ensures Apply(s, e).receivers == s.receivers
  {}

  lemma ReceiversByNext(s: State, e: Step)
    requires Enabled(s, e) && (e.NextCheck? || e.NextReceive? || e.NextStopped?)
    ensures Apply(s, e).receivers == s.receivers + if e.NextCheck? then 1 else -1
  {}

  lemma AliveStep(o: Outer, a: Act)
    requires AliveInv(o) && OrderInv(o) && Can(o, a)
    ensures AliveInv(Do(o, a))
  {
    PresenceStep(o, a);
    ReceiversStep(o, a);
    hide Do, Can, OrderInv;
  }

  lemma PresenceStep(o: Outer, a: Act)
    requires AliveInv(o) && OrderInv(o) && Can(o, a)
    ensures var p := Do(o, a);
            && (p.hasClient && p.starting == Started ==> p.dispatch != Absent)
            && (p.dispatch == Gone ==> StopClosed(p))
  {
    hide Apply, Enabled;
  }

  lemma ReceiversStep(o: Outer, a: Act)
    requires AliveInv(o) && OrderInv(o) && Can(o, a)
    ensures Do(o, a).inner.receivers == (if Do(o, a).dispatch == Receiving then 1 else 0)
  {
    InnerDo(o, a);
    PlaceMoves(o, a);
    hide Apply, Enabled, Do, OrderInv, Can;
    if InnerStep(a) != [] {
      var e := InnerStep(a)[0];
      if e.NextCheck? || e.NextReceive? || e.NextStopped? {
        ReceiversByNext(o.inner, e);
      } else {
        ReceiversOnlyByNext(o.inner, e);
      }
    }
  }

  /** How an act moves the goroutine into and out of the select of Next. */
  lemma PlaceMoves(o: Outer, a: Act)
    requires OrderInv(o) && Can(o, a)
    ensures a.NextEnter? ==> o.dispatch != Receiving && Do(o, a).dispatch == Receiving
    ensures a.NextGot? || a.NextEnd? ==> o.dispatch == Receiving && Do(o, a).dispatch != Receiving
    ensures !a.NextEnter? && !a.NextGot? && !a.NextEnd? ==>
              (Do(o, a).dispatch == Receiving <==> o.dispatch == Receiving)
  {
    hide Apply, Enabled;
  }

  lemma {:induction false} RunAlive(namespace: string, hasClient: bool, acts: seq<Act>)
    requires Play(namespace, hasClient, acts).Some?
    ensures AliveInv(Play(namespace, hasClient, acts).value)
    ensures Play(namespace, hasClient, acts).value.hasClient == hasClient
  {
    if acts == [] {
      NothingAlive(namespace, hasClient);
    } else {
      hide AliveInv, Can, Do, OrderInv, StopInv, OrderOfChanges;
      var n := |acts| - 1;
      RunAlive(namespace, hasClient, acts[..n]);
      PlayInv(namespace, hasClient, acts[..n]);
      AliveStep(Play(namespace, hasClient, acts[..n]).value, acts[n]);
      SameClient(Play(namespace, hasClient, acts[..n]).value, acts[n]);
    }
  }

  lemma NothingAlive(namespace: string, hasClient: bool)
    ensures AliveInv(Initial(namespace, hasClient))
  {}

  lemma SameClient(o: Outer, a: Act)
    requires Can(o, a)
    ensures Do(o, a).hasClient == o.hasClient
  {
    hide Apply, Enabled;
  }

  /** A watcher with a client that has been started and not stopped is being dispatched, over all runs. */
  lemma StartedDispatches(namespace: string, acts: seq<Act>)
    requires Play(namespace, true, acts).Some?
    ensures var o := Play(namespace, true, acts).value;
            o.starting == Started && !StopClosed(o) ==> Dispatching(o)
  {
    RunAlive(namespace, true, acts);
    hide Play;
  }

  // ---- the goroutine goes on --------------------------------------------------------------

  /** What the dispatch goroutine does next. */
  function NextAct(o: Outer): Act {
    match o.dispatch
    case DTop => DispatchCheck
    case InNext => if Closed(o.inner) then NextRefused else NextEnter
    case Receiving => if o.inner.notifyCh != [] then NextGot else NextEnd
    case Failed => DispatchError
    case Reporting => Report
    case _ => Call
  }

  /** It has nothing to do: it waits in Next, nothing has been sent, and nobody has stopped the inner watcher. */
  predicate Idle(o: Outer) {
    o.dispatch == Receiving && o.inner.notifyCh == [] && !StopChClosed(o.inner)
  }

  /** Only then is it not able to go on. */
  lemma DispatchGoesOn(namespace: string, hasClient: bool, acts: seq<Act>, o: Outer)
    requires Play(namespace, hasClient, acts) == Some(o) && Dispatching(o)
    ensures Can(o, NextAct(o)) <==> !Idle(o)
  {
    hide Play, Can, AliveInv, Dispatching, NextAct, Idle;
    RunAlive(namespace, hasClient, acts);
    NextPossible(o);
  }

  lemma NextPossible(o: Outer)
    requires AliveInv(o) && Dispatching(o)
    ensures Can(o, NextAct(o)) <==> !Idle(o)
  {}

  // ---- everything sent can be called back ---------------------------------------------------

  /** The acts that the goroutine takes until everything sent has been called back, at most. */
  function Work(o: Outer): nat {
    (match o.dispatch
     case DTop => 3
     case InNext => 2
     case Receiving => 1
     case Calling(rest) => 4 + |rest|
     case _ => 0)
    + if o.inner.notifyCh != [] then 10 + |o.inner.notifyCh[0]| else 0
  }

  predicate CaughtUp(o: Outer) { Pending(o) == [] && o.inner.notifyCh == [] }

  /** One act of the goroutine of a watcher that is not stopped is work done, and only calls back. */
  lemma WorkDone(o: Outer)
    requires Dispatching(o) && OrderInv(o) && AliveInv(o) && !StopClosed(o) && |o.inner.notifyCh| <= 1 && !CaughtUp(o)
    ensures Can(o, NextAct(o))
    ensures var p := Do(o, NextAct(o));
            && Work(p) < Work(o) && Dispatching(p) && !StopClosed(p) && p.inner.sent == o.inner.sent
  {
    if o.dispatch == InNext {
      assert Can(o, NextEnter);
    }
  }

  /** The acts of the dispatch goroutine. */
  predicate ByDispatcher(a: Act) {
    a.DispatchCheck? || a.NextRefused? || a.NextEnter? || a.NextGot? || a.NextEnd? || a.DispatchError? || a.Call?
  }

  lemma NextIsDispatch(o: Outer)
    requires Dispatching(o) && o.dispatch != Reporting
    ensures ByDispatcher(NextAct(o))
  {}

  /**
   Delivery is possible at every moment of every run: from wherever a started watcher
   that is not stopped is, its dispatch goroutine alone can go on to call back, whole
   and in order, every key/value that has been sent.
   */
  lemma {:induction false} CanCatchUp(namespace: string, acts: seq<Act>, o: Outer) returns (more: seq<Act>, p: Outer)
    requires Play(namespace, true, acts) == Some(o) && o.starting == Started && !StopClosed(o)
    ensures Play(namespace, true, acts + more) == Some(p)
    ensures forall n :: 0 <= n < |more| ==> ByDispatcher(more[n])
    ensures p.inner.sent == o.inner.sent && p.changes == Flatten(Batches(o.inner.sent))
    decreases Work(o)
  {
    hide Play, Work, ByDispatcher, CaughtUp, StopClosed;
    if CaughtUp(o) {
      more, p := [], o;
      assert acts + more == acts;
      AllCalledBack(namespace, acts, o);
    } else {
      var a, q := OneActMore(namespace, acts, o);
      more, p := CanCatchUp(namespace, acts + [a], q);
      assert acts + ([a] + more) == acts + [a] + more;
      more := [a] + more;
    }
  }

  lemma AllCalledBack(namespace: string, acts: seq<Act>, o: Outer)
    requires Play(namespace, true, acts) == Some(o) && CaughtUp(o)
    ensures o.changes == Flatten(Batches(o.inner.sent))
  {
    hide OrderInv, StopInv, Play, OrderOfChanges;
    PlayInv(namespace, true, acts);
    ChannelHoldsOne(namespace, acts);
    NothingPending(o);
  }

  lemma OneActMore(namespace: string, acts: seq<Act>, o: Outer) returns (a: Act, p: Outer)
    requires Play(namespace, true, acts) == Some(o) && o.starting == Started && !StopClosed(o) && !CaughtUp(o)
    ensures Play(namespace, true, acts + [a]) == Some(p) && ByDispatcher(a)
    ensures p.starting == Started && !StopClosed(p) && p.inner.sent == o.inner.sent && Work(p) < Work(o)
  {
    hide Play, OrderOfChanges, StopInv;
    PlayInv(namespace, true, acts);
    RunAlive(namespace, true, acts);
    ChannelHoldsOne(namespace, acts);
    StillDispatching(o);
    WorkDone(o);
    NextIsDispatch(o);
    KeepsStarted(o);
    a, p := NextAct(o), Do(o, NextAct(o));
    hide Can, Do, AliveInv, OrderInv, Work;
    PlaySnoc(namespace, acts, o, a);
  }

  lemma StillDispatching(o: Outer)
    requires AliveInv(o) && o.hasClient && o.starting == Started && !StopClosed(o)
    ensures Dispatching(o)
  {}

  lemma KeepsStarted(o: Outer)
    requires Dispatching(o) && OrderInv(o) && Can(o, NextAct(o)) && o.starting == Started
    ensures Do(o, NextAct(o)).starting == Started
  {
    hide Apply, Enabled;
  }

  lemma PlaySnoc(namespace: string, acts: seq<Act>, o: Outer, a: Act)
    requires Play(namespace, true, acts) == Some(o) && Can(o, a)
    ensures Play(namespace, true, acts + [a]) == Some(Do(o, a))
  {
    assert (acts + [a])[..|acts|] == acts;
  }

  /** The channel holds at most one batch, the one that was sent last and not yet received. */
  lemma ChannelHoldsOne(namespace: string, acts: seq<Act>)
    requires Play(namespace, true, acts).Some?
    ensures var s := Play(namespace, true, acts).value.inner; Fifo(s.notifyCh, s.sent, s.received)
  {
    InnerRun(namespace, true, acts);
    RunInv(namespace, InnerSteps(acts));
    hide Play, Exec;
  }

  lemma NothingPending(o: Outer)
    requires CaughtUp(o) && OrderOfChanges(o) && Fifo(o.inner.notifyCh, o.inner.sent, o.inner.received)
    ensures o.changes == Flatten(Batches(o.inner.sent))
  {
    assert o.changes + [] == o.changes;
    assert o.inner.received + [] == o.inner.received;
  }

  // ---- a change from the server to the callback ---------------------------------------------

  /** One more act of a run whose state is known. */
  lemma Follow(namespace: string, acts: seq<Act>, o: Outer, a: Act) returns (more: seq<Act>, p: Outer)
    requires Play(namespace, true, acts) == Some(o) && Can(o, a)
    ensures more == acts + [a] && p == Do(o, a) && Play(namespace, true, more) == Some(p)
  {
    PlaySnoc(namespace, acts, o, a);
    more, p := acts + [a], Do(o, a);
  }

  /** Start has completed: the loop is at its head, and the dispatch goroutine at its own. */
  predicate Ready(o: Outer, namespace: string) {
    && o.hasClient && o.starting == Started && o.stopping == Running && o.dispatch == DTop && o.changes == []
    && o.inner.namespace == namespace && o.inner.loops == [Top] && o.inner.stop == NotStopped
    && o.inner.sent == [] && o.inner.notifyCh == []
  }

  /** The call of the inner Start is under way. */
  predicate Launching(o: Outer, namespace: string, start: StartPhase) {
    && o == Initial(namespace, true).(inner := o.inner, starting := Swapped)
    && o.inner == Watcher.New(namespace).(
         watchCtx := 1, contexts := 2, cancelled := o.inner.cancelled, starters := 1, start := start,
         wg := if start == Added || start == Launched then 1 else 0,
         loops := if start == Launched then [Top] else [])
  }

  lemma StartSwapped(namespace: string) returns (acts: seq<Act>, o: Outer)
    ensures Play(namespace, true, acts) == Some(o) && Launching(o, namespace, NotStarted)
  {
    hide Play;
    NoActs(namespace);
    acts, o := Follow(namespace, [], Initial(namespace, true), BeginStart);
    acts, o := Follow(namespace, acts, o, Publish);
    acts, o := Follow(namespace, acts, o, InnerStart(StartSwap(false)));
  }

  lemma LoopLaunched(namespace: string) returns (acts: seq<Act>, o: Outer)
    ensures Play(namespace, true, acts) == Some(o) && Launching(o, namespace, Launched)
  {
    hide Play;
    acts, o := StartSwapped(namespace);
    acts, o := Follow(namespace, acts, o, InnerStart(StartEnter));
    acts, o := Follow(namespace, acts, o, InnerStart(StartAdd));
    acts, o := Follow(namespace, acts, o, InnerStart(StartLaunch));
  }

  lemma StartUp(namespace: string) returns (acts: seq<Act>, o: Outer)
    ensures Play(namespace, true, acts) == Some(o) && Ready(o, namespace)
  {
    hide Play;
    acts, o := LoopLaunched(namespace);
    acts, o := Follow(namespace, acts, o, InnerStart(StartReturn));
    acts, o := Follow(namespace, acts, o, AddDispatcher);
    acts, o := Follow(namespace, acts, o, GoDispatcher);
  }

  /** One more step of the loop. */
  lemma LoopFollow(namespace: string, acts: seq<Act>, o: Outer, e: Step, t: State) returns (more: seq<Act>)
    requires Play(namespace, true, acts) == Some(o)
    requires IsLoopStep(e) && Enabled(o.inner, e) && Apply(o.inner, e) == t
    ensures Play(namespace, true, more) == Some(o.(inner := t))
  {
    hide Play, Apply, Enabled;
    var p: Outer;
    more, p := Follow(namespace, acts, o, InnerLoop(e));
  }

  lemma SendOne(namespace: string, acts: seq<Act>, o: Outer, id: int, batch: Batch) returns (more: seq<Act>, p: Outer)
    requires Play(namespace, true, acts) == Some(o) && Ready(o, namespace)
    ensures Play(namespace, true, more) == Some(p) && p.starting == Started && !StopClosed(p)
    ensures |p.inner.sent| == 1 && p.inner.sent[0].batch == batch
  {
    hide Play, Apply, Enabled, ThreadsInv;
    RunStateInv(namespace, acts, o);
    var s := o.inner;
    var ns := [Notification(namespace, id)];
    assert ns[1..] == [];
    WatchLoop.Check(s);
    var s1 := WatchLoop.MoveTo(s, Passed);
    more := LoopFollow(namespace, acts, o, LoopCheck(0), s1);
    LoopStepInv(s, LoopCheck(0));
    WatchLoop.IssuePoll(s1);
    var s2 := Apply(s1, LoopPoll(0));
    more := LoopFollow(namespace, more, o.(inner := s1), LoopPoll(0), s2);
    LoopStepInv(s1, LoopPoll(0));
    WatchLoop.GetReply(s2, Notified(ns));
    var s3 := Apply(s2, LoopReply(0, Notified(ns)));
    more := LoopFollow(namespace, more, o.(inner := s2), LoopReply(0, Notified(ns)), s3);
    LoopStepInv(s2, LoopReply(0, Notified(ns)));
    more, p := SendNotified(namespace, more, o.(inner := s3), id, batch);
  }

  /** From the reply on: the notification is handled, the batch is fetched and sent. */
  lemma SendNotified(namespace: string, acts: seq<Act>, o: Outer, id: int, batch: Batch)
    returns (more: seq<Act>, p: Outer)
    requires Play(namespace, true, acts) == Some(o) && o.starting == Started && !StopClosed(o)
    requires o.inner.namespace == namespace && ThreadsInv(o.inner) && o.inner.start == Launched
    requires TheLoop(o.inner).Handling? && TheLoop(o.inner).rest == [Notification(namespace, id)]
    requires o.inner.sent == [] && o.inner.notifyCh == []
    ensures Play(namespace, true, more) == Some(p) && p.starting == Started && !StopClosed(p)
    ensures |p.inner.sent| == 1 && p.inner.sent[0].batch == batch
  {
    hide Play, Apply, Enabled, ThreadsInv;
    var s := o.inner;
    WatchLoop.TakeNext(s);
    var s1 := Apply(s, LoopHandle(0));
    more := LoopFollow(namespace, acts, o, LoopHandle(0), s1);
    LoopStepInv(s, LoopHandle(0));
    WatchLoop.FetchStep(s1, Fetched(batch));
    var s2 := Apply(s1, LoopFetched(0, Fetched(batch)));
    more := LoopFollow(namespace, more, o.(inner := s1), LoopFetched(0, Fetched(batch)), s2);
    LoopStepInv(s1, LoopFetched(0, Fetched(batch)));
    WatchLoop.Send(s2);
    var s3 := Apply(s2, LoopSend(0, false));
    more := LoopFollow(namespace, more, o.(inner := s2), LoopSend(0, false), s3);
    p := o.(inner := s3);
  }

  lemma LoopStepInv(s: State, e: Step)
    requires ThreadsInv(s) && Enabled(s, e)
    ensures ThreadsInv(Apply(s, e))
  {
    ThreadsStep(s, e);
  }

  lemma RunStateInv(namespace: string, acts: seq<Act>, o: Outer)
    requires Play(namespace, true, acts) == Some(o) && Ready(o, namespace)
    ensures ThreadsInv(o.inner) && o.inner.start == Launched
  {
    InnerRun(namespace, true, acts);
    RunInv(namespace, InnerSteps(acts));
    hide Play, Exec;
  }

  /** For every batch a run from the first Start on in which it is fetched, sent and called back whole. */
  lemma DeliveredWhole(namespace: string, id: int, batch: Batch) returns (acts: seq<Act>)
    ensures Play(namespace, true, acts).Some? && Play(namespace, true, acts).value.changes == batch
  {
    hide Play, Ready, StopClosed, Flatten;
    var o: Outer;
    acts, o := StartUp(namespace);
    acts, o := SendOne(namespace, acts, o, id, batch);
    var more, p := CanCatchUp(namespace, acts, o);
    OnlyBatch(o.inner.sent);
    acts := acts + more;
  }

  lemma OnlyBatch(sent: seq<Delivery>)
    requires |sent| == 1
    ensures Flatten(Batches(sent)) == sent[0].batch
  {
    assert sent[..0] == [] && Batches(sent) == [sent[0].batch];
  }

  // ---- and it ends after Stop -----------------------------------------------------------------

  /** The acts left to a goroutine whose watcher is stopped. */
  function Leaving(o: Outer): nat {
    match o.dispatch
    case Calling(rest) => |rest| + 2
    case InNext => 3
    case Receiving => 2 + if o.inner.notifyCh != [] then |o.inner.notifyCh[0]| + 1 else 0
    case Failed => 1
    case DTop => 1
    case _ => 0
  }

  /** Once Stop has closed both channels the goroutine can always go on, and each act brings it nearer to its end. */
  lemma StoppedDispatchEnds(o: Outer, a: Act)
    requires Dispatching(o) && OrderInv(o) && AliveInv(o) && StopClosed(o) && StopChClosed(o.inner)
    ensures Can(o, NextAct(o))
    ensures ByDispatcher(a) && Can(o, a) ==> Leaving(Do(o, a)) < Leaving(o)
  {
    NextPossible(o);
    if ByDispatcher(a) && Can(o, a) {
      LeavingLess(o, a);
    }
    hide Can, Do, OrderInv, AliveInv;
  }

  lemma LeavingLess(o: Outer, a: Act)
    requires OrderInv(o) && StopClosed(o) && StopChClosed(o.inner) && ByDispatcher(a) && Can(o, a)
    ensures Leaving(Do(o, a)) < Leaving(o)
  {
    hide Apply;
  }
}
