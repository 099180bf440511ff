/**
 Properties of every run of ApolloConfigWatcher, over all interleavings of Start,
 Stop, Next and the long-poll goroutine and all replies of the server.
 */
module WatcherRuns {
  import opened Common
  import opened Watcher

  ghost predicate Run(namespace: string, es: seq<Step>) { Exec(namespace, es).Some? }

  function StateOf(namespace: string, es: seq<Step>): State
    requires Exec(namespace, es).Some?
  {
    Exec(namespace, es).value
  }

  lemma {:induction false} RunPrefix(namespace: string, es: seq<Step>, k: nat)
    requires Run(namespace, es) && k <= |es|
    ensures Run(namespace, es[..k])
    ensures k < |es| ==> Enabled(StateOf(namespace, es[..k]), es[k])
    ensures k < |es| ==> Exec(namespace, es[..k + 1]) == Some(Apply(StateOf(namespace, es[..k]), es[k]))
  {
    var n := |es| - 1;
    if k == |es| {
      assert es[..k] == es;
    } else if k == n {
      assert es[..n + 1] == es;
    } else {
      RunPrefix(namespace, es[..n], k);
      assert es[..n][..k] == es[..k] && es[..n][..k + 1] == es[..k + 1];
    }
  }

  lemma {:induction false} RunInv(namespace: string, es: seq<Step>)
    requires Run(namespace, es)
    ensures Inv(StateOf(namespace, es)) && StateOf(namespace, es).namespace == namespace
  {
    hide Inv, Apply, Enabled, ThreadsInv, DeliveryInv, PollInv;
    if es == [] {
      InitInv(namespace);
    } else {
      var n := |es| - 1;
      RunPrefix(namespace, es, n);
      RunInv(namespace, es[..n]);
      InvStep(StateOf(namespace, es[..n]), es[n]);
      assert es[..n + 1] == es;
    }
  }

  lemma InitInv(namespace: string)
    ensures Inv(New(namespace)) && New(namespace).namespace == namespace
  {
    var s := New(namespace);
    hide Fifo, Causes;
    NothingSent();
    assert TheLoop(s) == Exited && s.loops == [];
  }

  lemma NothingSent()
    ensures Fifo([], [], []) && Causes([], 0, false)
  {}

  lemma InvStep(s: State, e: Step)
    requires Inv(s) && Enabled(s, e)
    ensures Inv(Apply(s, e)) && Apply(s, e).namespace == s.namespace
  {
    ThreadsStep(s, e);
    DeliveryStep(s, e);
    PollStep(s, e);
    SameNamespace(s, e);
    hide ThreadsInv, DeliveryInv, PollInv, Apply;
  }

  lemma SameNamespace(s: State, e: Step)
    requires Enabled(s, e)
    ensures Apply(s, e).namespace == s.namespace
  {}

  /** The last step of a run, with the invariant before it. */
  lemma LastStep(namespace: string, es: seq<Step>)
    requires Run(namespace, es) && es != []
    ensures var n := |es| - 1;
            && Run(namespace, es[..n]) && ThreadsInv(StateOf(namespace, es[..n]))
            && Enabled(StateOf(namespace, es[..n]), es[n])
            && Exec(namespace, es) == Some(Apply(StateOf(namespace, es[..n]), es[n]))
  {
    var n := |es| - 1;
    hide Apply, Enabled;
    RunPrefix(namespace, es, n);
    RunInv(namespace, es[..n]);
    assert es[..n + 1] == es;
  }

  // ---- delivery ---------------------------------------------------------------------

  /**
   Delivery: at most one watchLoop is ever launched, the channel holds at most
   one batch, and what Next has returned is a prefix of what was sent, in order.
   Every batch was fetched after a matching notification of its own, and batches
   and failed reloads together account for every notification seen, except the one
   in hand and one that the loop gave up when it exited.
   */
  lemma Delivered(namespace: string, es: seq<Step>)
    requires Run(namespace, es)
    ensures var s := StateOf(namespace, es);
            && |s.loops| <= 1 && |s.notifyCh| <= 1
            && Batches(s.sent) == s.received + s.notifyCh
            && (forall i :: 0 < i < |s.sent| ==> s.sent[i - 1].cause < s.sent[i].cause < |s.matched|)
            && |s.sent| + s.failedReloads <= |s.matched| <= |s.sent| + s.failedReloads + 1
            && (TheLoop(s) != Exited ==>
                  |s.matched| == |s.sent| + s.failedReloads + if InHand(TheLoop(s)) then 1 else 0)
  {
    RunInv(namespace, es);
  }

  /** Every long poll asks with the id of the last notification processed, or 0 before the first. */
  lemma {:induction false} PolledIdIsLastMatched(namespace: string, es: seq<Step>, k: nat)
    requires Run(namespace, es) && k < |es| && es[k].LoopPoll?
    ensures Run(namespace, es[..k]) && Run(namespace, es[..k + 1])
    ensures var s := StateOf(namespace, es[..k]);
            StateOf(namespace, es[..k + 1]).polled
              == s.polled + [if s.matched == [] then 0 else s.matched[|s.matched| - 1]]
  {
    hide Exec, DeliveryInv;
    RunPrefix(namespace, es, k);
    RunPrefix(namespace, es, k + 1);
    RunInv(namespace, es[..k]);
    PollAsks(StateOf(namespace, es[..k]), es[k]);
  }

  lemma PollAsks(s: State, e: Step)
    requires PollInv(s) && e.LoopPoll? && Enabled(s, e)
    ensures Apply(s, e).polled == s.polled + [if s.matched == [] then 0 else s.matched[|s.matched| - 1]]
  {}

  // ---- poll-id progress ---------------------------------------------------------------

  /** The ids for the namespace grow along the list and all exceed low. */
  predicate Climbs(ns: seq<Notification>, namespace: string, low: int) {
    ns == [] ||
    if ns[0].namespace == namespace then ns[0].id > low && Climbs(ns[1..], namespace, ns[0].id)
    else Climbs(ns[1..], namespace, low)
  }

  /** The reply has growing ids above the one the poll asked with. */
  predicate StepClimbs(s: State, e: Step) {
    e.LoopReply? && e.poll.Notified? && At(s, e.l).Polling? ==> Climbs(e.poll.ns, s.namespace, At(s, e.l).id)
  }

  ghost predicate ServerClimbs(namespace: string, es: seq<Step>) {
    forall k :: 0 <= k < |es| ==> Exec(namespace, es[..k]).Some? && StepClimbs(Exec(namespace, es[..k]).value, es[k])
  }

  function Rest(pc: Loop): seq<Notification> {
    match pc
    case Handling(_, rest) => rest
    case Fetching(_, rest) => rest
    case FetchError(_, rest) => rest
    case Sending(_, rest, _) => rest
    case _ => []
  }

  predicate Increasing(ids: seq<int>) {
    forall i :: 0 < i < |ids| ==> ids[i - 1] < ids[i]
  }

  ghost predicate ClimbInv(s: State) {
    ThreadsInv(s) && PollInv(s) && Increasing(s.matched) && Climbs(Rest(TheLoop(s)), s.namespace, s.notificationId)
  }

  lemma ClimbHandle(s: State, e: Step)
    requires ClimbInv(s) && e.LoopHandle? && LoopEnabled(s, e)
    ensures ClimbInv(LoopApply(s, e))
  {
    ThreadsLoopStep(s, e);
    PollHandle(s, e);
  }

  lemma ClimbLoopStep(s: State, e: Step)
    requires ClimbInv(s) && IsLoopStep(e) && LoopEnabled(s, e) && StepClimbs(s, e)
    ensures ClimbInv(LoopApply(s, e))
  {
    if e.LoopHandle? {
      ClimbHandle(s, e);
    } else {
      ThreadsLoopStep(s, e);
      PollLoopStep(s, e);
      ClimbQuiet(s, e);
      hide LoopApply, ThreadsInv, PollInv;
    }
  }

  lemma ClimbQuiet(s: State, e: Step)
    requires ClimbInv(s) && IsLoopStep(e) && LoopEnabled(s, e) && StepClimbs(s, e) && !e.LoopHandle?
    ensures LoopApply(s, e).matched == s.matched
    ensures Climbs(Rest(TheLoop(LoopApply(s, e))), s.namespace, s.notificationId)
    ensures LoopApply(s, e).notificationId == s.notificationId && LoopApply(s, e).namespace == s.namespace
  {}

  lemma ClimbStep(s: State, e: Step)
    requires ClimbInv(s) && Enabled(s, e) && StepClimbs(s, e)
    ensures ClimbInv(Apply(s, e))
  {
    ThreadsStep(s, e);
    PollStep(s, e);
    if IsLoopStep(e) {
      hide LoopApply;
      ClimbLoopStep(s, e);
    }
  }

  /**
   Poll-id progress: if the server only ever replies with ids that grow and
   exceed the one it was asked with, the ids processed grow strictly, so no
   notification is processed twice, through failed polls, failed reloads, pauses
   and context changes alike.
   */
  lemma {:induction false} IdsIncrease(namespace: string, es: seq<Step>)
    requires Run(namespace, es) && ServerClimbs(namespace, es)
    ensures Increasing(StateOf(namespace, es).matched) && ClimbInv(StateOf(namespace, es))
  {
    if es == [] {
      InitInv(namespace);
    } else {
      var n := |es| - 1;
      RunPrefix(namespace, es, n);
      forall k | 0 <= k < n
        ensures Exec(namespace, es[..n][..k]).Some? && StepClimbs(Exec(namespace, es[..n][..k]).value, es[..n][k])
      {
        assert es[..n][..k] == es[..k];
      }
      IdsIncrease(namespace, es[..n]);
      hide ClimbInv, Apply, Enabled, StepClimbs;
      ClimbStep(StateOf(namespace, es[..n]), es[n]);
      assert es[..n + 1] == es;
      ClimbMeans(StateOf(namespace, es));
    }
  }

  lemma ClimbMeans(s: State)
    requires ClimbInv(s)
    ensures Increasing(s.matched)
  {}

  // ---- stop is final ---------------------------------------------------------------------

  /** What can no longer happen once stopCh is closed: a loop at the head passes it, and polls. */
  lemma StoppedStep(s: State, e: Step)
    requires ThreadsInv(s) && StopChClosed(s) && Enabled(s, e)
    ensures StopChClosed(Apply(s, e))
    ensures Apply(s, e).polled == s.polled + if e.LoopPoll? then [s.notificationId] else []
    ensures e.LoopPoll? ==> TheLoop(s).Passed?
    ensures TheLoop(Apply(s, e)).Passed? ==> TheLoop(s).Passed?
    ensures s.stopReturned ==> Apply(s, e).stopReturned && !e.LoopPoll? && Apply(s, e).sent == s.sent
  {
    if IsLoopStep(e) {
      hide LoopApply;
      StoppedLoop(s, e);
    }
  }

  lemma StoppedLoop(s: State, e: Step)
    requires ThreadsInv(s) && StopChClosed(s) && IsLoopStep(e) && LoopEnabled(s, e)
    ensures LoopApply(s, e).stop == s.stop && LoopApply(s, e).stopReturned == s.stopReturned
    ensures LoopApply(s, e).polled == s.polled + if e.LoopPoll? then [s.notificationId] else []
    ensures e.LoopPoll? ==> TheLoop(s).Passed?
    ensures TheLoop(LoopApply(s, e)).Passed? ==> TheLoop(s).Passed?
    ensures s.stopReturned ==> !e.LoopPoll? && LoopApply(s, e).sent == s.sent
  {}

  /**
   Stop is final: from the moment a call of Stop has returned, in whatever order
   Start, Stop and Next were called, no long poll is issued and nothing is sent.
   */
  lemma {:induction false} StopIsFinal(namespace: string, es: seq<Step>, k: nat)
    requires Run(namespace, es) && k <= |es|
    requires Exec(namespace, es[..k]).Some? && StateOf(namespace, es[..k]).stopReturned
    ensures StateOf(namespace, es).stopReturned
    ensures StateOf(namespace, es).polled == StateOf(namespace, es[..k]).polled
    ensures StateOf(namespace, es).sent == StateOf(namespace, es[..k]).sent
    decreases |es|
  {
    if k == |es| {
      assert es[..k] == es;
    } else {
      var n := |es| - 1;
      hide Apply, Enabled, Exec, ThreadsInv;
      LastStep(namespace, es);
      assert es[..n][..k] == es[..k];
      StopIsFinal(namespace, es[..n], k);
      StopReturnedMeans(StateOf(namespace, es[..n]));
      StoppedStep(StateOf(namespace, es[..n]), es[n]);
    }
  }

  lemma StopReturnedMeans(s: State)
    requires ThreadsInv(s)
    ensures s.stopReturned ==> StopChClosed(s)
  {}

  /**
   Closing stopCh stops the polling: afterwards at most one more poll is issued,
   and only if the loop had already passed its look at stopCh.
   */
  lemma {:induction false} AtMostOneMorePoll(namespace: string, es: seq<Step>, k: nat)
    requires Run(namespace, es) && k <= |es|
    requires Exec(namespace, es[..k]).Some? && StopChClosed(StateOf(namespace, es[..k]))
    ensures var s, t := StateOf(namespace, es[..k]), StateOf(namespace, es);
            && StopChClosed(t)
            && |s.polled| <= |t.polled|
            && |t.polled| + (if TheLoop(t).Passed? then 1 else 0)
                 <= |s.polled| + (if TheLoop(s).Passed? then 1 else 0)
    decreases |es|
  {
    if k == |es| {
      assert es[..k] == es;
    } else {
      var n := |es| - 1;
      hide Apply, Enabled, Exec, ThreadsInv, StopChClosed;
      LastStep(namespace, es);
      assert es[..n][..k] == es[..k];
      AtMostOneMorePoll(namespace, es[..n], k);
      StoppedStep(StateOf(namespace, es[..n]), es[n]);
      if es[n].LoopPoll? { StoppedPoll(StateOf(namespace, es[..n]), es[n]); }
    }
  }

  lemma StoppedPoll(s: State, e: Step)
    requires ThreadsInv(s) && e.LoopPoll? && Enabled(s, e)
    ensures !TheLoop(Apply(s, e)).Passed?
  {}

  /** The steps that a stopped loop can still take, apart from the replies it has yet to get. */
  function Budget(pc: Loop): nat {
    match pc
    case Exited => 0
    case Top => 1
    case Waiting => 2
    case PollError(_) => 3
    case Polling(_, _) => 4
    case Passed => 5
    case Handling(_, rest) => 2 + 4 * |rest|
    case Sending(_, rest, _) => 3 + 4 * |rest|
    case FetchError(_, rest) => 3 + 4 * |rest|
    case Fetching(_, rest) => 4 + 4 * |rest|
  }

  /** The notifications in a reply. */
  function Replied(e: Step): nat {
    if e.LoopReply? && e.poll.Notified? then |e.poll.ns| else 0
  }

  /** Every step of a stopped loop uses up its budget; the other goroutines do not add to it. */
  lemma StoppedLoopAdvances(s: State, e: Step)
    requires ThreadsInv(s) && StopChClosed(s) && Enabled(s, e)
    ensures IsLoopStep(e) ==> Budget(TheLoop(Apply(s, e))) < Budget(TheLoop(s)) + 4 * Replied(e)
    ensures !IsLoopStep(e) ==> TheLoop(Apply(s, e)) == TheLoop(s) || (e.StartLaunch? && TheLoop(Apply(s, e)) == Top)
  {
    if IsLoopStep(e) {
      StoppedLoopStep(s, e);
    }
  }

  lemma StoppedLoopStep(s: State, e: Step)
    requires ThreadsInv(s) && StopChClosed(s) && IsLoopStep(e) && LoopEnabled(s, e)
    ensures Budget(TheLoop(LoopApply(s, e))) < Budget(TheLoop(s)) + 4 * Replied(e)
  {}

  /** A stopped loop that has not exited can always take a step, given that HTTP calls return. */
  function NextLoopStep(s: State): Step {
    match TheLoop(s)
    case Top => LoopCheck(0)
    case Passed => LoopPoll(0)
    case Polling(_, _) => LoopReply(0, PollFailed)
    case PollError(_) => LoopAfterError(0)
    case Waiting => LoopWake(0, false)
    case Handling(_, _) => LoopHandle(0)
    case Fetching(_, _) => LoopFetched(0, FetchReply.FetchFailed)
    case FetchError(_, _) => LoopAfterFetchError(0)
    case Sending(_, _, _) => LoopSend(0, true)
    case Exited => LoopCheck(0)
  }

  lemma StoppedLoopCanStep(s: State)
    requires StopChClosed(s) && TheLoop(s) != Exited
    ensures IsLoopStep(NextLoopStep(s)) && LoopEnabled(s, NextLoopStep(s))
  {}

  function LoopSteps(es: seq<Step>, k: nat): nat
    requires k <= |es|
    decreases |es|
  {
    if k == |es| then 0
    else LoopSteps(es[..|es| - 1], k) + if IsLoopStep(es[|es| - 1]) then 1 else 0
  }

  function RepliedSince(es: seq<Step>, k: nat): nat
    requires k <= |es|
    decreases |es|
  {
    if k == |es| then 0
    else RepliedSince(es[..|es| - 1], k) + Replied(es[|es| - 1])
  }

  lemma {:induction false} StoppedLoopBudget(namespace: string, es: seq<Step>, k: nat)
    requires Run(namespace, es) && k <= |es|
    requires Exec(namespace, es[..k]).Some? && StopChClosed(StateOf(namespace, es[..k]))
    ensures var s, t := StateOf(namespace, es[..k]), StateOf(namespace, es);
            LoopSteps(es, k) + Budget(TheLoop(t))
              <= Budget(TheLoop(s)) + 4 * RepliedSince(es, k) + |t.loops| - |s.loops|
    decreases |es|
  {
    if k == |es| {
      assert es[..k] == es;
    } else {
      var n := |es| - 1;
      hide Apply, Enabled, Exec, ThreadsInv, StopChClosed, Budget;
      LastStep(namespace, es);
      assert es[..n][..k] == es[..k];
      AtMostOneMorePoll(namespace, es[..n], k);
      StoppedLoopBudget(namespace, es[..n], k);
      LaunchCounts(StateOf(namespace, es[..n]), es[n]);
      StoppedLoopAdvances(StateOf(namespace, es[..n]), es[n]);
    }
  }

  /**
   Stop terminates: after stopCh is closed the loop takes no more steps than its
   program counter and the notifications still replied to it allow (a loop that
   is launched only now takes one), and until it has exited it is never stuck.
   */
  lemma StoppedLoopEnds(namespace: string, es: seq<Step>, k: nat)
    requires Run(namespace, es) && k <= |es|
    requires Exec(namespace, es[..k]).Some? && StopChClosed(StateOf(namespace, es[..k]))
    ensures var s, t := StateOf(namespace, es[..k]), StateOf(namespace, es);
            LoopSteps(es, k) + Budget(TheLoop(t))
              <= Budget(TheLoop(s)) + 4 * RepliedSince(es, k) + |t.loops| - |s.loops|
    ensures var t := StateOf(namespace, es);
            TheLoop(t) != Exited ==> IsLoopStep(NextLoopStep(t)) && LoopEnabled(t, NextLoopStep(t))
  {
    hide Enabled, LoopEnabled, NextLoopStep, Budget;
    StoppedLoopBudget(namespace, es, k);
    AtMostOneMorePoll(namespace, es, k);
    if TheLoop(StateOf(namespace, es)) != Exited {
      StoppedLoopCanStep(StateOf(namespace, es));
    }
  }

  lemma LaunchCounts(s: State, e: Step)
    requires ThreadsInv(s) && Enabled(s, e)
    ensures |Apply(s, e).loops| == |s.loops| + if e.StartLaunch? then 1 else 0
    ensures e.StartLaunch? ==> Budget(TheLoop(s)) == 0 && Budget(TheLoop(Apply(s, e))) == 1
  {
    if IsLoopStep(e) {
      hide LoopApply;
      LoopsKept(s, e);
    }
  }

  lemma LoopsKept(s: State, e: Step)
    requires IsLoopStep(e) && LoopEnabled(s, e)
    ensures |LoopApply(s, e).loops| == |s.loops|
  {}

  // ---- staying alive -----------------------------------------------------------------------

  /** The context a loop works with. */
  function ContextOf(pc: Loop): nat {
    match pc
    case Polling(ctx, _) => ctx
    case PollError(ctx) => ctx
    case Handling(ctx, _) => ctx
    case Fetching(ctx, _) => ctx
    case FetchError(ctx, _) => ctx
    case Sending(ctx, _, _) => ctx
    case _ => 1
  }

  /** The lifecycle does not cancel the contexts it hands out. */
  predicate LifecycleQuiet(es: seq<Step>) {
    forall k :: 0 <= k < |es| ==> !es[k].CancelParent? && !(es[k].StartSwap? && es[k].dead)
  }

  ghost predicate AliveInv(s: State) {
    && s.watchCtx == s.contexts - 1
    && (forall c :: c in s.cancelled ==> c < s.watchCtx || Closed(s))
    && (s.start != NotStarted || s.starters > 0 ==> s.contexts >= 2)
    && ContextOf(TheLoop(s)) >= 1
    && (s.loops != [] && TheLoop(s) == Exited ==> Closed(s) || s.contexts >= 3)
  }

  lemma AliveLoopStep(s: State, e: Step)
    requires ThreadsInv(s) && AliveInv(s) && IsLoopStep(e) && LoopEnabled(s, e)
    ensures AliveInv(LoopApply(s, e))
  {
    hide LoopApply, LoopEnabled, ContextOf;
    LoopLeaves(s, e);
    LoopKeepsContext(s, e);
    LoopExits(s, e);
    LoopsKept(s, e);
  }

  lemma LoopLeaves(s: State, e: Step)
    requires IsLoopStep(e) && LoopEnabled(s, e)
    ensures var t := LoopApply(s, e);
            && t.watchCtx == s.watchCtx && t.contexts == s.contexts && t.cancelled == s.cancelled
            && t.start == s.start && t.stop == s.stop && t.starters == s.starters
  {}

  lemma LoopKeepsContext(s: State, e: Step)
    requires ThreadsInv(s) && IsLoopStep(e) && LoopEnabled(s, e)
    ensures ContextOf(TheLoop(LoopApply(s, e))) in {1, s.watchCtx, ContextOf(TheLoop(s))}
  {}

  /** The loop exits only because stopCh is closed or its context is cancelled. */
  lemma LoopExits(s: State, e: Step)
    requires ThreadsInv(s) && IsLoopStep(e) && LoopEnabled(s, e)
    ensures s.loops != []
    ensures TheLoop(LoopApply(s, e)) == Exited ==> StopChClosed(s) || ContextOf(TheLoop(s)) in s.cancelled
  {
    OnlyLoop(s, e);
    hide ThreadsInv;
  }

  lemma OnlyLoop(s: State, e: Step)
    requires ThreadsInv(s) && IsLoopStep(e) && LoopEnabled(s, e)
    ensures |s.loops| == 1 && e.l == 0
  {
    assert At(s, e.l) != Exited;
  }

  lemma AliveStep(s: State, e: Step)
    requires ThreadsInv(s) && AliveInv(s) && Enabled(s, e)
    requires !e.CancelParent? && !(e.StartSwap? && e.dead)
    ensures AliveInv(Apply(s, e))
  {
    if IsLoopStep(e) {
      hide LoopApply;
      AliveLoopStep(s, e);
    }
  }

  function Starts(es: seq<Step>): nat {
    if es == [] then 0 else Starts(es[..|es| - 1]) + if es[|es| - 1].StartSwap? then 1 else 0
  }

  /**
   A watcher that is started once stays alive: unless the lifecycle cancels its
   context, its loop has exited only if Stop was called or Start was called again.
   */
  lemma {:induction false} AliveUntilStopped(namespace: string, es: seq<Step>)
    requires Run(namespace, es) && LifecycleQuiet(es)
    ensures AliveInv(StateOf(namespace, es)) && StateOf(namespace, es).contexts == 1 + Starts(es)
    ensures var s := StateOf(namespace, es);
            s.loops != [] && TheLoop(s) == Exited ==> Closed(s) || Starts(es) >= 2
  {
    if es == [] {
      EmptyRun(namespace);
    } else {
      var n := |es| - 1;
      hide Apply, Enabled, Exec, ThreadsInv;
      LastStep(namespace, es);
      AliveUntilStopped(namespace, es[..n]);
      ContextsCount(StateOf(namespace, es[..n]), es[n]);
      AliveStep(StateOf(namespace, es[..n]), es[n]);
    }
  }

  lemma ContextsCount(s: State, e: Step)
    requires Enabled(s, e)
    ensures Apply(s, e).contexts == s.contexts + if e.StartSwap? then 1 else 0
  {}

  // ---- when the loop ends without Stop ----------------------------------------------------

  /** Before Stop the cancelled contexts are those that a later Start has replaced. */
  ghost predicate CancelledInv(s: State) {
    !Closed(s) ==> forall c: nat :: c in s.cancelled <==> c < s.watchCtx
  }

  /** The k-th step looks at the context of a failed call, and a later Start has replaced that context. */
  ghost predicate LooksAtReplaced(namespace: string, es: seq<Step>, k: nat) {
    && k < |es| && (es[k].LoopAfterError? || es[k].LoopAfterFetchError?)
    && Exec(namespace, es[..k]).Some?
    && ContextOf(TheLoop(StateOf(namespace, es[..k]))) < StateOf(namespace, es[..k]).watchCtx
  }

  ghost predicate LookedAtReplaced(namespace: string, es: seq<Step>) {
    exists k: nat :: LooksAtReplaced(namespace, es, k)
  }

  /**
   Exactly how a loop ends before Stop is called, if the lifecycle leaves its
   contexts alone: a call of the server fails under a context that another Start
   has replaced by the time the loop looks at it.
   */
  lemma {:induction false} LoopEndsExactly(namespace: string, es: seq<Step>)
    requires Run(namespace, es) && LifecycleQuiet(es)
    ensures CancelledInv(StateOf(namespace, es))
    ensures !Closed(StateOf(namespace, es)) ==>
              (HasEnded(StateOf(namespace, es)) <==> LookedAtReplaced(namespace, es))
  {
    if es == [] {
      EmptyRun(namespace);
    } else {
      var n := |es| - 1;
      LastStep(namespace, es);
      AliveUntilStopped(namespace, es[..n]);
      LoopEndsExactly(namespace, es[..n]);
      var s := StateOf(namespace, es[..n]);
      LooksSnoc(namespace, es);
      hide Apply, Enabled, Exec, ThreadsInv, LookedAtReplaced, HasEnded, ContextOf;
      StepEnds(s, es[n]);
    }
  }

  predicate HasEnded(s: State) { s.loops != [] && TheLoop(s) == Exited }

  /** The step makes the loop look at a context that has been replaced. */
  predicate StepLooks(s: State, e: Step) {
    (e.LoopAfterError? || e.LoopAfterFetchError?) && ContextOf(TheLoop(s)) < s.watchCtx
  }

  lemma LooksSnoc(namespace: string, es: seq<Step>)
    requires Run(namespace, es) && es != [] && Run(namespace, es[..|es| - 1])
    ensures LookedAtReplaced(namespace, es)
       <==> LookedAtReplaced(namespace, es[..|es| - 1]) || StepLooks(StateOf(namespace, es[..|es| - 1]), es[|es| - 1])
  {
    hide *;
    var n := |es| - 1;
    LooksLast(namespace, es);
    if k: nat :| LooksAtReplaced(namespace, es, k) {
      LooksWithin(namespace, es, k);
      if k < n {
        LooksEarlier(namespace, es, k);
      }
    }
    if k: nat :| LooksAtReplaced(namespace, es[..n], k) {
      LooksWithin(namespace, es[..n], k);
      LooksEarlier(namespace, es, k);
    }
    SomeLook(namespace, es);
    SomeLook(namespace, es[..n]);
  }

  lemma SomeLook(namespace: string, es: seq<Step>)
    ensures LookedAtReplaced(namespace, es) <==> exists k: nat :: LooksAtReplaced(namespace, es, k)
  {}

  lemma LooksLast(namespace: string, es: seq<Step>)
    requires Run(namespace, es) && es != [] && Run(namespace, es[..|es| - 1])
    ensures LooksAtReplaced(namespace, es, |es| - 1)
       <==> StepLooks(StateOf(namespace, es[..|es| - 1]), es[|es| - 1])
  {
    hide Exec, ContextOf;
  }

  lemma LooksWithin(namespace: string, es: seq<Step>, k: nat)
    requires LooksAtReplaced(namespace, es, k)
    ensures k < |es|
  {}

  lemma LooksEarlier(namespace: string, es: seq<Step>, k: nat)
    requires k < |es| - 1
    ensures LooksAtReplaced(namespace, es, k) <==> LooksAtReplaced(namespace, es[..|es| - 1], k)
  {
    assert es[..|es| - 1][..k] == es[..k];
  }

  lemma StepEnds(s: State, e: Step)
    requires ThreadsInv(s) && CancelledInv(s) && AliveInv(s) && Enabled(s, e)
    requires !e.CancelParent? && !(e.StartSwap? && e.dead)
    ensures CancelledInv(Apply(s, e)) && (Closed(s) ==> Closed(Apply(s, e)))
    ensures !Closed(Apply(s, e)) ==> (HasEnded(Apply(s, e)) <==> HasEnded(s) || StepLooks(s, e))
  {
    if IsLoopStep(e) {
      hide LoopApply, LoopEnabled;
      LoopLeaves(s, e);
      LoopsKept(s, e);
      OnlyLoop(s, e);
      if !Closed(s) {
        LoopStepEnds(s, e);
      }
    } else {
      OtherStepEnds(s, e);
    }
  }

  lemma OtherStepEnds(s: State, e: Step)
    requires ThreadsInv(s) && CancelledInv(s) && AliveInv(s) && Enabled(s, e) && !IsLoopStep(e)
    requires !e.CancelParent? && !(e.StartSwap? && e.dead)
    ensures CancelledInv(Apply(s, e)) && (Closed(s) ==> Closed(Apply(s, e)))
    ensures HasEnded(Apply(s, e)) <==> HasEnded(s)
  {}

  lemma LoopStepEnds(s: State, e: Step)
    requires ThreadsInv(s) && CancelledInv(s) && !Closed(s) && IsLoopStep(e) && LoopEnabled(s, e)
    ensures TheLoop(s) != Exited && (TheLoop(LoopApply(s, e)) == Exited <==> StepLooks(s, e))
  {
    OnlyLoop(s, e);
    hide ThreadsInv;
  }

  // ---- runs that show what does not hold ---------------------------------------------

  lemma Extend(namespace: string, es: seq<Step>, s: State, e: Step, t: State) returns (fs: seq<Step>)
    requires Exec(namespace, es) == Some(s) && Enabled(s, e) && Apply(s, e) == t
    ensures fs == es + [e] && Exec(namespace, fs) == Some(t)
    ensures Starts(fs) == Starts(es) + if e.StartSwap? then 1 else 0
  {
    fs := es + [e];
    assert fs[..|es|] == es;
  }

  /** A loop in its first poll, after one call of Start. */
  function FirstPoll(namespace: string): State {
    New(namespace).(watchCtx := 1, contexts := 2, cancelled := {0}, wg := 1, start := Launched,
                    loops := [Polling(1, 0)], polled := [0])
  }

  lemma EmptyRun(namespace: string)
    ensures Exec(namespace, []) == Some(New(namespace)) && Starts([]) == 0
  {}

  /** A launched loop at the head, after one call of Start. */
  function JustStarted(namespace: string): State {
    FirstPoll(namespace).(loops := [Top], polled := [])
  }

  lemma Launch(namespace: string) returns (es: seq<Step>)
    ensures Exec(namespace, es) == Some(JustStarted(namespace))
    ensures Starts(es) == 1 && LifecycleQuiet(es)
  {
    EmptyRun(namespace);
    hide Exec, Starts;
    var s0 := New(namespace);
    var s1 := s0.(watchCtx := 1, contexts := 2, cancelled := {0}, starters := 1);
    assert s0.cancelled + {0} + {} == {0};
    var s2, s3 := s1.(start := Entered), s1.(start := Added, wg := 1);
    var s4 := s3.(start := Launched, loops := [Top]);
    es := Extend(namespace, [], s0, StartSwap(false), s1);
    es := Extend(namespace, es, s1, StartEnter, s2);
    es := Extend(namespace, es, s2, StartAdd, s3);
    es := Extend(namespace, es, s3, StartLaunch, s4);
    es := Extend(namespace, es, s4, StartReturn, JustStarted(namespace));
  }

  lemma Started(namespace: string) returns (es: seq<Step>)
    ensures Exec(namespace, es) == Some(FirstPoll(namespace))
    ensures Starts(es) == 1 && LifecycleQuiet(es)
  {
    hide Exec, Starts;
    es := Launch(namespace);
    var s := JustStarted(namespace);
    es := Extend(namespace, es, s, LoopCheck(0), s.(loops := [Passed]));
    es := Extend(namespace, es, s.(loops := [Passed]), LoopPoll(0), FirstPoll(namespace));
  }

  /** A second Start cancels the context of the running poll and can end the loop for good. */
  lemma SecondStartEndsLoop(namespace: string) returns (es: seq<Step>)
    ensures Run(namespace, es) && LifecycleQuiet(es) && Starts(es) == 2
    ensures TheLoop(StateOf(namespace, es)) == Exited && StateOf(namespace, es).start == Launched
    ensures !Closed(StateOf(namespace, es))
  {
    hide Exec, Starts;
    es := Started(namespace);
    var s0 := FirstPoll(namespace);
    var s1 := s0.(watchCtx := 2, contexts := 3, cancelled := {0, 1}, starters := 1);
    assert s0.cancelled + {1} + {} == {0, 1};
    var s2 := s1.(loops := [PollError(1)]);
    es := Extend(namespace, es, s0, StartSwap(false), s1);
    es := Extend(namespace, es, s1, LoopReply(0, PollFailed), s2);
    es := Extend(namespace, es, s2, LoopAfterError(0), s2.(loops := [Exited], wg := 0));
  }

  /** A loop in its first poll, after a second call of Start that came before the loop took its context. */
  function SecondPoll(namespace: string): State {
    FirstPoll(namespace).(watchCtx := 2, contexts := 3, cancelled := {0, 1}, starters := 1, loops := [Polling(2, 0)])
  }

  lemma StartedTwice(namespace: string) returns (es: seq<Step>)
    ensures Exec(namespace, es) == Some(SecondPoll(namespace))
    ensures Starts(es) == 2 && LifecycleQuiet(es)
  {
    hide Exec, Starts;
    es := Launch(namespace);
    var s0 := JustStarted(namespace);
    var s1 := s0.(watchCtx := 2, contexts := 3, cancelled := {0, 1}, starters := 1);
    assert s0.cancelled + {1} + {} == {0, 1};
    es := Extend(namespace, es, s0, StartSwap(false), s1);
    es := Extend(namespace, es, s1, LoopCheck(0), s1.(loops := [Passed]));
    es := Extend(namespace, es, s1.(loops := [Passed]), LoopPoll(0), SecondPoll(namespace));
  }

  /** Such a second Start is harmless: a failed poll does not end the loop. */
  lemma SecondStartHarmless(namespace: string) returns (es: seq<Step>)
    ensures Run(namespace, es) && LifecycleQuiet(es) && Starts(es) == 2
    ensures TheLoop(StateOf(namespace, es)) == Waiting && !Closed(StateOf(namespace, es))
  {
    hide Exec, Starts;
    es := StartedTwice(namespace);
    var s := SecondPoll(namespace);
    es := Extend(namespace, es, s, LoopReply(0, PollFailed), s.(loops := [PollError(2)]));
    es := Extend(namespace, es, s.(loops := [PollError(2)]), LoopAfterError(0), s.(loops := [Waiting]));
  }

  /** The loop at the head of the range loop again, after the reload for id has failed. */
  function ReloadFailed(namespace: string, id: int): State {
    FirstPoll(namespace).(loops := [Handling(1, [])], notificationId := id, matched := [id], failedReloads := 1)
  }

  /** The loop in the reload for id. */
  function InReload(namespace: string, id: int): State {
    FirstPoll(namespace).(loops := [Fetching(1, [])], notificationId := id, matched := [id])
  }

  lemma TakeNotification(namespace: string, id: int) returns (es: seq<Step>)
    ensures Exec(namespace, es) == Some(InReload(namespace, id))
  {
    hide Exec, Starts;
    es := Started(namespace);
    var ns := [Notification(namespace, id)];
    assert ns[1..] == [];
    var s := FirstPoll(namespace);
    es := Extend(namespace, es, s, LoopReply(0, Notified(ns)), s.(loops := [Handling(1, ns)]));
    es := Extend(namespace, es, s.(loops := [Handling(1, ns)]), LoopHandle(0), InReload(namespace, id));
  }

  lemma FailReload(namespace: string, id: int) returns (es: seq<Step>)
    ensures Exec(namespace, es) == Some(ReloadFailed(namespace, id))
  {
    hide Exec, Starts;
    es := TakeNotification(namespace, id);
    var s := InReload(namespace, id);
    var t := s.(loops := [FetchError(1, [])]);
    es := Extend(namespace, es, s, LoopFetched(0, FetchReply.FetchFailed), t);
    es := Extend(namespace, es, t, LoopAfterFetchError(0), ReloadFailed(namespace, id));
  }

  /**
   A reload that fails after its notification loses that change: the id has
   moved on, so the next poll already asks for what comes after it, and nothing
   was delivered.
   */
  lemma FailedReloadLosesChange(namespace: string, id: int) returns (es: seq<Step>)
    ensures Run(namespace, es)
    ensures StateOf(namespace, es).polled == [0, id] && StateOf(namespace, es).matched == [id]
    ensures StateOf(namespace, es).sent == [] && StateOf(namespace, es).failedReloads == 1
  {
    hide Exec, Starts;
    es := BackAtTop(namespace, id);
    var s := ReloadFailed(namespace, id);
    es := Extend(namespace, es, s.(loops := [Top]), LoopCheck(0), s.(loops := [Passed]));
    es := Extend(namespace, es, s.(loops := [Passed]), LoopPoll(0), s.(loops := [Polling(1, id)], polled := [0, id]));
  }

  lemma BackAtTop(namespace: string, id: int) returns (es: seq<Step>)
    ensures Exec(namespace, es) == Some(ReloadFailed(namespace, id).(loops := [Top]))
  {
    hide Exec, Starts;
    es := FailReload(namespace, id);
    var s := ReloadFailed(namespace, id);
    es := Extend(namespace, es, s, LoopHandle(0), s.(loops := [Top]));
  }
}
