/**
 What the calls of Start and Stop bring about, over every run of ApolloConfigWatcher:
 a Start that has returned has launched the loop, a Stop leaves no context alive, and
 neither the calls nor the loop get stuck on their own account.
 */
module WatcherCalls {
  import opened Common
  import opened Watcher
  import opened WatcherRuns

  // ---- contexts ---------------------------------------------------------------------

  /** Contexts are replaced one by one, and every replaced one is cancelled. */
  ghost predicate ContextsInv(s: State) {
    s.watchCtx == s.contexts - 1 && forall c: nat :: c < s.watchCtx ==> c in s.cancelled
  }

  lemma ContextsStep(s: State, e: Step)
    requires ContextsInv(s) && Enabled(s, e)
    ensures ContextsInv(Apply(s, e)) && s.cancelled <= Apply(s, e).cancelled
  {
    if IsLoopStep(e) {
      hide LoopApply, LoopEnabled;
      LoopLeaves(s, e);
    }
  }

  lemma {:induction false} RunContexts(namespace: string, es: seq<Step>)
    requires Run(namespace, es)
    ensures ContextsInv(StateOf(namespace, es))
  {
    if es != [] {
      var n := |es| - 1;
      hide Apply, Enabled, ContextsInv;
      RunPrefix(namespace, es, n);
      assert es[..n + 1] == es;
      RunContexts(namespace, es[..n]);
      ContextsStep(StateOf(namespace, es[..n]), es[n]);
    } else {
      NewContexts(namespace);
    }
  }

  lemma NewContexts(namespace: string)
    ensures ContextsInv(New(namespace))
  {}

  /** A cancelled context stays cancelled. */
  lemma {:induction false} CancelledForGood(namespace: string, es: seq<Step>, k: nat, c: nat)
    requires Run(namespace, es) && k <= |es| && Exec(namespace, es[..k]).Some?
    requires c in StateOf(namespace, es[..k]).cancelled
    ensures c in StateOf(namespace, es).cancelled
    decreases |es|
  {
    if k == |es| {
      assert es[..k] == es;
    } else {
      var n := |es| - 1;
      hide Apply, Enabled, ContextsInv;
      RunPrefix(namespace, es, n);
      assert es[..n + 1] == es && es[..n][..k] == es[..k];
      CancelledForGood(namespace, es[..n], k, c);
      RunContexts(namespace, es[..n]);
      ContextsStep(StateOf(namespace, es[..n]), es[n]);
    }
  }

  /**
   Stop cancels: from its StopCancel on, every context created before it is cancelled,
   so a call of the server that fails under one of them ends the loop.
   */
  lemma StopCancelsAll(namespace: string, es: seq<Step>, k: nat, c: nat)
    requires Run(namespace, es) && k < |es| && es[k].StopCancel?
    requires Exec(namespace, es[..k]).Some? && c < StateOf(namespace, es[..k]).contexts
    ensures c in StateOf(namespace, es).cancelled
    ensures forall e :: Enabled(StateOf(namespace, es), e) && (e.LoopAfterError? || e.LoopAfterFetchError?)
                        && ContextOf(TheLoop(StateOf(namespace, es))) == c ==>
              TheLoop(Apply(StateOf(namespace, es), e)) == Exited
  {
    RunPrefix(namespace, es, k);
    RunContexts(namespace, es[..k]);
    CancelStep(StateOf(namespace, es[..k]), c);
    RunPrefix(namespace, es, k + 1);
    CancelledForGood(namespace, es, k + 1, c);
    RunInv(namespace, es);
    hide Exec;
    var s := StateOf(namespace, es);
    forall e | Enabled(s, e) && (e.LoopAfterError? || e.LoopAfterFetchError?) && ContextOf(TheLoop(s)) == c
      ensures TheLoop(Apply(s, e)) == Exited
    {
      CancelledEnds(s, e);
    }
  }

  lemma CancelStep(s: State, c: nat)
    requires ContextsInv(s) && Enabled(s, StopCancel) && c < s.contexts
    ensures c in Apply(s, StopCancel).cancelled
  {}

  lemma CancelledEnds(s: State, e: Step)
    requires ThreadsInv(s) && Enabled(s, e) && (e.LoopAfterError? || e.LoopAfterFetchError?)
    requires ContextOf(TheLoop(s)) in s.cancelled
    ensures TheLoop(Apply(s, e)) == Exited
  {
    OnlyLoop(s, e);
  }

  // ---- nobody is stuck ----------------------------------------------------------------

  /** Once some call of Start has returned, the loop has been launched, in every interleaving. */
  lemma StartLaunches(namespace: string, es: seq<Step>, k: nat)
    requires Run(namespace, es) && k < |es| && es[k].StartReturn?
    ensures StateOf(namespace, es).start == Launched && |StateOf(namespace, es).loops| == 1
  {
    LaunchedForGood(namespace, es, k);
    RunInv(namespace, es);
    hide Exec;
  }

  lemma {:induction false} LaunchedForGood(namespace: string, es: seq<Step>, k: nat)
    requires Run(namespace, es) && k < |es| && es[k].StartReturn?
    ensures StateOf(namespace, es).start == Launched
    decreases |es|
  {
    hide Apply, Enabled;
    var n := |es| - 1;
    RunPrefix(namespace, es, n);
    assert es[..n + 1] == es;
    if k < n {
      LaunchedForGood(namespace, es[..n], k);
    }
    StaysLaunched(StateOf(namespace, es[..n]), es[n]);
  }

  lemma StaysLaunched(s: State, e: Step)
    requires Enabled(s, e) && (s.start == Launched || e.StartReturn?)
    ensures Apply(s, e).start == Launched
  {}

  /** What a call of Start does next, and a call of Stop. */
  function NextOfStart(s: State): Step {
    match s.start
    case NotStarted => StartEnter
    case Entered => StartAdd
    case Added => StartLaunch
    case Launched => StartReturn
  }

  function NextOfStop(s: State): Step {
    match s.stop
    case NotStopped => StopEnter
    case Marked => StopCancel
    case ContextCancelled => StopClose
    case ChannelClosed => StopReturn
  }

  /**
   Neither call gets stuck: a Start under way can always go on, and so can a Stop, but
   for the wait for a loop that has not exited; that loop is never stuck itself.
   */
  lemma CallsGoOn(namespace: string, es: seq<Step>)
    requires Run(namespace, es)
    ensures var s := StateOf(namespace, es);
            && (s.starters > 0 ==> Enabled(s, NextOfStart(s)))
            && (s.stop != ChannelClosed ==> Enabled(s, NextOfStop(s)))
            && (s.stop == ChannelClosed && s.start != Added && TheLoop(s) == Exited ==> Enabled(s, StopReturn))
  {
    RunInv(namespace, es);
  }

  /** What the loop does next, if the server fails every call. */
  function NextOfLoop(s: State): Step {
    match TheLoop(s)
    case Waiting => LoopWake(0, true)
    case Sending(_, _, _) => LoopSend(0, StopChClosed(s))
    case _ => NextLoopStep(s)
  }

  /**
   A loop that has not exited can always take a step, given that HTTP calls return and
   timers fire, unless it has a batch to send, the channel is full and nobody stops it.
   */
  lemma LoopGoesOn(s: State)
    requires TheLoop(s) != Exited
    ensures IsLoopStep(NextOfLoop(s))
    ensures LoopEnabled(s, NextOfLoop(s)) <==> !(TheLoop(s).Sending? && s.notifyCh != [] && !StopChClosed(s))
  {}
}
