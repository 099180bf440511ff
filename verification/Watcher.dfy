/**
 ApolloConfigWatcher of watcher_adapter.go as a concurrent step system: any
 number of goroutines call Start, Stop and Next, the long-poll goroutine runs
 beside them, and an adversary chooses every HTTP reply, every choice of a select
 with several ready cases, and when lifecycle contexts are cancelled.

 One step is one access to shared state.  Callers are anonymous, so the state
 counts the goroutines at a program point instead of naming them.
 */
module Watcher {
  import opened Common

  datatype Notification = Notification(namespace: string, id: int)

  /** The key/values of one reload, in the order in which the map was ranged over. */
  type Batch = seq<(string, string)>

  /** A batch on its way, with the index of the notification that caused its reload. */
  datatype Delivery = Delivery(cause: nat, batch: Batch)

  /** The program counter of watchLoop. Contexts are numbered in order of creation. */
  datatype Loop =
    | Top                                          // before the select on stopCh
    | Passed                                       // stopCh was open
    | Polling(ctx: nat, id: int)                   // in WatchNotifications
    | PollError(ctx: nat)
    | Waiting                                      // the 5s pause after an error
    | Handling(ctx: nat, rest: seq<Notification>)  // at the head of the range loop
    | Fetching(ctx: nat, rest: seq<Notification>)  // in GetConfig
    | FetchError(ctx: nat, rest: seq<Notification>)
    | Sending(ctx: nat, rest: seq<Notification>, batch: Batch)
    | Exited

  /** How far the body of startOnce, and of stopOnce, has come. */
  datatype StartPhase = NotStarted | Entered | Added | Launched
  datatype StopPhase = NotStopped | Marked | ContextCancelled | ChannelClosed

  datatype State = State(
    namespace: string,
    notifyCh: seq<Batch>,
    notificationId: int,
    watchCtx: nat,
    contexts: nat,              // contexts created so far
    cancelled: set<nat>,
    wg: int,
    start: StartPhase,
    stop: StopPhase,
    stopReturned: bool,         // some call of Stop has returned
    starters: nat,              // Start calls between the context swap and their return
    receivers: nat,             // Next calls past the look at closed
    loops: seq<Loop>,           // every watchLoop goroutine ever launched
    // history
    polled: seq<int>,           // the ids that the long polls asked with
    matched: seq<int>,          // the ids of the notifications processed for the namespace
    failedReloads: nat,
    sent: seq<Delivery>,
    received: seq<Batch>)

  predicate Closed(s: State) { s.stop != NotStopped }

  predicate StopChClosed(s: State) { s.stop == ChannelClosed }

  datatype PollReply = Notified(ns: seq<Notification>) | PollFailed

  datatype FetchReply = Fetched(batch: Batch) | FetchFailed

  datatype Step =
    // Start
    | StartSwap(dead: bool)     // replaces the context; dead: the caller's context was cancelled before
    | StartEnter
    | StartAdd
    | StartLaunch
    | StartReturn
    | CancelParent(ctx: nat)    // the lifecycle cancels the context given to a Start
    // Stop
    | StopEnter
    | StopCancel
    | StopClose
    | StopReturn
    // Next
    | NextCheck
    | NextReceive
    | NextStopped
    // the l-th watchLoop
    | LoopCheck(l: nat)
    | LoopPoll(l: nat)
    | LoopReply(l: nat, poll: PollReply)
    | LoopAfterError(l: nat)
    | LoopWake(l: nat, timer: bool)
    | LoopHandle(l: nat)
    | LoopFetched(l: nat, fetch: FetchReply)
    | LoopAfterFetchError(l: nat)
    | LoopSend(l: nat, quit: bool)

  predicate IsLoopStep(e: Step) {
    e.LoopCheck? || e.LoopPoll? || e.LoopReply? || e.LoopAfterError? || e.LoopWake? ||
    e.LoopHandle? || e.LoopFetched? || e.LoopAfterFetchError? || e.LoopSend?
  }

  function New(namespace: string): State {
    State(namespace, [], 0, 0, 1, {}, 0, NotStarted, NotStopped, false, 0, 0, [], [], [], 0, [], [])
  }

  function At(s: State, l: nat): Loop {
    if l < |s.loops| then s.loops[l] else Exited
  }

  predicate LoopEnabled(s: State, e: Step)
    requires IsLoopStep(e)
  {
    var pc := At(s, e.l);
    match e
    case LoopCheck(_) => pc.Top?
    case LoopPoll(_) => pc.Passed?
    case LoopReply(_, _) => pc.Polling?
    case LoopAfterError(_) => pc.PollError?
    case LoopWake(_, timer) => pc.Waiting? && (timer || StopChClosed(s))
    case LoopHandle(_) => pc.Handling?
    case LoopFetched(_, _) => pc.Fetching?
    case LoopAfterFetchError(_) => pc.FetchError?
    case LoopSend(_, quit) => pc.Sending? && if quit then StopChClosed(s) else s.notifyCh == []
  }

  predicate Enabled(s: State, e: Step) {
    match e
    case StartSwap(_) => true
    case StartEnter => s.starters > 0 && s.start == NotStarted
    case StartAdd => s.start == Entered
    case StartLaunch => s.start == Added
    case StartReturn => s.starters > 0 && s.start == Launched
    case CancelParent(ctx) => 0 < ctx < s.contexts
    case StopEnter => s.stop == NotStopped
    case StopCancel => s.stop == Marked
    case StopClose => s.stop == ContextCancelled
    case StopReturn => s.stop == ChannelClosed && s.wg == 0
    case NextCheck => !Closed(s)
    case NextReceive => s.receivers > 0 && s.notifyCh != []
    case NextStopped => s.receivers > 0 && StopChClosed(s)
    case _ => LoopEnabled(s, e)
  }

  function Goto(s: State, l: nat, pc: Loop): State
    requires l < |s.loops|
  {
    s.(loops := s.loops[l := pc], wg := if pc == Exited then s.wg - 1 else s.wg)
  }

  function LoopApply(s: State, e: Step): State
    requires IsLoopStep(e) && LoopEnabled(s, e)
  {
    var pc := At(s, e.l);
    match e
    case LoopCheck(l) => Goto(s, l, if StopChClosed(s) then Exited else Passed)
    case LoopPoll(l) =>
      Goto(s, l, Polling(s.watchCtx, s.notificationId)).(polled := s.polled + [s.notificationId])
    case LoopReply(l, Notified(ns)) => Goto(s, l, Handling(pc.ctx, ns))
    case LoopReply(l, PollFailed) => Goto(s, l, PollError(pc.ctx))
    case LoopAfterError(l) => Goto(s, l, if pc.ctx in s.cancelled then Exited else Waiting)
    case LoopWake(l, timer) => Goto(s, l, if timer then Top else Exited)
    case LoopHandle(l) =>
      if pc.rest == [] then Goto(s, l, Top)
      else
        var n, rest := pc.rest[0], pc.rest[1..];
        if n.namespace == s.namespace
        then Goto(s, l, Fetching(pc.ctx, rest)).(notificationId := n.id, matched := s.matched + [n.id])
        else Goto(s, l, Handling(pc.ctx, rest))
    case LoopFetched(l, Fetched(batch)) => Goto(s, l, Sending(pc.ctx, pc.rest, batch))
    case LoopFetched(l, FetchFailed) => Goto(s, l, FetchError(pc.ctx, pc.rest))
    case LoopAfterFetchError(l) =>
      if pc.ctx in s.cancelled then Goto(s, l, Exited)
      else Goto(s, l, Handling(pc.ctx, pc.rest)).(failedReloads := s.failedReloads + 1)
    case LoopSend(l, quit) =>
      if quit then Goto(s, l, Exited)
      else Goto(s, l, Handling(pc.ctx, pc.rest)).(
             notifyCh := [pc.batch], sent := s.sent + [Delivery(Max(|s.matched| - 1, 0), pc.batch)])
  }

  function Apply(s: State, e: Step): State
    requires Enabled(s, e)
  {
    match e
    case StartSwap(dead) =>
      s.(cancelled := s.cancelled + {s.watchCtx} + (if dead then {s.contexts} else {}),
         watchCtx := s.contexts, contexts := s.contexts + 1, starters := s.starters + 1)
    case StartEnter => s.(start := Entered)
    case StartAdd => s.(start := Added, wg := s.wg + 1)
    case StartLaunch => s.(start := Launched, loops := s.loops + [Top])
    case StartReturn => s.(starters := s.starters - 1)
    case CancelParent(ctx) => s.(cancelled := s.cancelled + {ctx})
    case StopEnter => s.(stop := Marked)
    case StopCancel => s.(stop := ContextCancelled, cancelled := s.cancelled + {s.watchCtx})
    case StopClose => s.(stop := ChannelClosed)
    case StopReturn => s.(stopReturned := true)
    case NextCheck => s.(receivers := s.receivers + 1)
    case NextReceive => s.(receivers := s.receivers - 1, received := s.received + s.notifyCh, notifyCh := [])
    case NextStopped => s.(receivers := s.receivers - 1)
    case _ => LoopApply(s, e)
  }

  /** The state after a run of the watcher for a namespace, or nothing if some step is not enabled. */
  function Exec(namespace: string, es: seq<Step>): Option<State> {
    if es == [] then Some(New(namespace))
    else
      var before := Exec(namespace, es[..|es| - 1]);
      if before.Some? && Enabled(before.value, es[|es| - 1])
      then Some(Apply(before.value, es[|es| - 1])) else None
  }

  // ---- the invariant --------------------------------------------------------------

  function Batches(ds: seq<Delivery>): (bs: seq<Batch>)
    ensures |bs| == |ds|
  {
    if ds == [] then [] else Batches(ds[..|ds| - 1]) + [ds[|ds| - 1].batch]
  }

  /** The loop, if there is one. */
  function TheLoop(s: State): Loop { At(s, 0) }

  /** The loop has taken a notification that is neither delivered nor given up. */
  predicate InHand(pc: Loop) { pc.Fetching? || pc.FetchError? || pc.Sending? }

  /** One goroutine at most, counted by the wait group; phases and flags agree. */
  ghost predicate ThreadsInv(s: State) {
    && |s.loops| == (if s.start == Launched then 1 else 0)
    && s.wg == (if s.start == Added || (s.start == Launched && s.loops[0] != Exited) then 1 else 0)
    && (s.stopReturned ==> StopChClosed(s) && (TheLoop(s).Top? || TheLoop(s).Exited?))
  }

  /** The channel holds at most one batch: what was sent and not yet received. */
  ghost predicate Fifo(notifyCh: seq<Batch>, sent: seq<Delivery>, received: seq<Batch>) {
    |notifyCh| <= 1 && Batches(sent) == received + notifyCh
  }

  /** Each batch was fetched after a notification of its own; one in hand is newer than all sent. */
  ghost predicate Causes(sent: seq<Delivery>, matched: nat, inHand: bool) {
    && (forall i :: 0 <= i < |sent| ==> sent[i].cause < matched)
    && (forall i :: 0 < i < |sent| ==> sent[i - 1].cause < sent[i].cause)
    && (inHand ==> matched > 0 && (sent != [] ==> sent[|sent| - 1].cause < matched - 1))
  }

  /** Some notification may be in hand, or was given up when the loop exited. */
  predicate Unsettled(s: State) {
    InHand(TheLoop(s)) || (s.loops != [] && TheLoop(s).Exited?)
  }

  ghost predicate DeliveryInv(s: State) {
    && Fifo(s.notifyCh, s.sent, s.received)
    && Causes(s.sent, |s.matched|, InHand(TheLoop(s)))
    && |s.sent| + s.failedReloads + (if InHand(TheLoop(s)) then 1 else 0) <= |s.matched|
    && |s.matched| <= |s.sent| + s.failedReloads + (if Unsettled(s) then 1 else 0)
  }

  /** The id in use is that of the last notification processed for the namespace. */
  ghost predicate PollInv(s: State) {
    && s.notificationId == (if s.matched == [] then 0 else s.matched[|s.matched| - 1])
    && (TheLoop(s).Polling? ==> TheLoop(s).id == s.notificationId)
  }

  ghost predicate Inv(s: State) {
    ThreadsInv(s) && DeliveryInv(s) && PollInv(s)
  }

  lemma ThreadsStep(s: State, e: Step)
    requires ThreadsInv(s) && Enabled(s, e)
    ensures ThreadsInv(Apply(s, e))
  {
    if IsLoopStep(e) {
      ThreadsLoopStep(s, e);
    }
  }

  lemma ThreadsLoopStep(s: State, e: Step)
    requires ThreadsInv(s) && IsLoopStep(e) && LoopEnabled(s, e)
    ensures ThreadsInv(LoopApply(s, e))
  {}

  /** A loop step that touches neither the channel nor the counts. */
  predicate QuietLoopStep(s: State, e: Step)
    requires IsLoopStep(e) && LoopEnabled(s, e)
  {
    var t := LoopApply(s, e);
    && t.notifyCh == s.notifyCh && t.sent == s.sent && t.received == s.received
    && t.matched == s.matched && t.failedReloads == s.failedReloads
    && (InHand(TheLoop(t)) ==> InHand(TheLoop(s))) && (Unsettled(s) ==> Unsettled(t))
  }

  lemma QuietSteps(s: State, e: Step)
    requires ThreadsInv(s) && IsLoopStep(e) && LoopEnabled(s, e)
    requires !e.LoopHandle? && !e.LoopAfterFetchError? && !e.LoopSend?
    ensures QuietLoopStep(s, e)
  {}

  lemma DeliveryQuiet(s: State, e: Step)
    requires DeliveryInv(s) && IsLoopStep(e) && LoopEnabled(s, e) && QuietLoopStep(s, e)
    ensures DeliveryInv(LoopApply(s, e))
  {
    hide LoopApply;
  }

  lemma FifoSend(sent: seq<Delivery>, received: seq<Batch>, d: Delivery)
    requires Fifo([], sent, received)
    ensures Fifo([d.batch], sent + [d], received)
  {
    assert (sent + [d])[..|sent|] == sent;
  }

  lemma CausesSend(sent: seq<Delivery>, matched: nat, batch: Batch)
    requires Causes(sent, matched, true)
    ensures Causes(sent + [Delivery(Max(matched - 1, 0), batch)], matched, false)
  {}

  lemma CausesGrow(sent: seq<Delivery>, matched: nat)
    requires Causes(sent, matched, false)
    ensures Causes(sent, matched + 1, true)
  {}

  /** What a send, a look at the next notification and a failed reload do to the counts. */
  lemma SendEffect(s: State, e: Step)
    requires ThreadsInv(s) && e.LoopSend? && LoopEnabled(s, e)
    ensures var t := LoopApply(s, e);
            && InHand(TheLoop(s)) && !InHand(TheLoop(t))
            && t.matched == s.matched && t.failedReloads == s.failedReloads && t.received == s.received
            && (e.quit ==> t.notifyCh == s.notifyCh && t.sent == s.sent && Unsettled(t))
            && (!e.quit ==> s.notifyCh == [] && t.notifyCh == [At(s, e.l).batch])
            && (!e.quit ==> t.sent == s.sent + [Delivery(Max(|s.matched| - 1, 0), At(s, e.l).batch)])
  {}

  lemma HandleEffect(s: State, e: Step)
    requires ThreadsInv(s) && e.LoopHandle? && LoopEnabled(s, e)
    ensures var t := LoopApply(s, e);
            && !InHand(TheLoop(s)) && !Unsettled(s) && (InHand(TheLoop(t)) ==> Unsettled(t))
            && t.sent == s.sent && t.received == s.received && t.notifyCh == s.notifyCh
            && t.failedReloads == s.failedReloads
            && |t.matched| == |s.matched| + if InHand(TheLoop(t)) then 1 else 0
  {}

  lemma FetchErrorEffect(s: State, e: Step)
    requires ThreadsInv(s) && e.LoopAfterFetchError? && LoopEnabled(s, e)
    ensures var t := LoopApply(s, e);
            && InHand(TheLoop(s)) && !InHand(TheLoop(t))
            && t.sent == s.sent && t.received == s.received && t.notifyCh == s.notifyCh
            && t.matched == s.matched && t.failedReloads == s.failedReloads + if Unsettled(t) then 0 else 1
  {}

  lemma DeliverySend(s: State, e: Step)
    requires ThreadsInv(s) && DeliveryInv(s) && e.LoopSend? && LoopEnabled(s, e)
    ensures DeliveryInv(LoopApply(s, e))
  {
    var batch := At(s, e.l).batch;
    hide LoopApply, LoopEnabled, InHand, Unsettled, ThreadsInv;
    SendEffect(s, e);
    if !e.quit {
      FifoSend(s.sent, s.received, Delivery(Max(|s.matched| - 1, 0), batch));
      CausesSend(s.sent, |s.matched|, batch);
    }
    hide Fifo;
  }

  lemma DeliveryHandle(s: State, e: Step)
    requires ThreadsInv(s) && DeliveryInv(s) && e.LoopHandle? && LoopEnabled(s, e)
    ensures DeliveryInv(LoopApply(s, e))
  {
    hide LoopApply, LoopEnabled, InHand, Unsettled, ThreadsInv, Fifo, Causes;
    HandleEffect(s, e);
    CausesGrow(s.sent, |s.matched|);
  }

  lemma DeliveryFetchError(s: State, e: Step)
    requires ThreadsInv(s) && DeliveryInv(s) && e.LoopAfterFetchError? && LoopEnabled(s, e)
    ensures DeliveryInv(LoopApply(s, e))
  {
    hide LoopApply, LoopEnabled, InHand, Unsettled, ThreadsInv, Fifo;
    FetchErrorEffect(s, e);
  }

  lemma DeliveryLoopStep(s: State, e: Step)
    requires ThreadsInv(s) && DeliveryInv(s) && IsLoopStep(e) && LoopEnabled(s, e)
    ensures DeliveryInv(LoopApply(s, e))
  {
    hide DeliveryInv, LoopApply;
    if e.LoopSend? {
      DeliverySend(s, e);
    } else if e.LoopHandle? {
      DeliveryHandle(s, e);
    } else if e.LoopAfterFetchError? {
      DeliveryFetchError(s, e);
    } else {
      QuietSteps(s, e);
      DeliveryQuiet(s, e);
    }
  }

  lemma DeliveryStep(s: State, e: Step)
    requires ThreadsInv(s) && DeliveryInv(s) && Enabled(s, e)
    ensures DeliveryInv(Apply(s, e))
  {
    hide LoopApply, Causes;
    if IsLoopStep(e) {
      DeliveryLoopStep(s, e);
    }
  }

  lemma PollHandle(s: State, e: Step)
    requires ThreadsInv(s) && PollInv(s) && e.LoopHandle? && LoopEnabled(s, e)
    ensures PollInv(LoopApply(s, e))
  {}

  lemma PollLoopStep(s: State, e: Step)
    requires ThreadsInv(s) && PollInv(s) && IsLoopStep(e) && LoopEnabled(s, e)
    ensures PollInv(LoopApply(s, e))
  {
    if e.LoopHandle? {
      PollHandle(s, e);
    }
  }

  lemma PollStep(s: State, e: Step)
    requires ThreadsInv(s) && PollInv(s) && Enabled(s, e)
    ensures PollInv(Apply(s, e))
  {
    hide LoopApply;
    if IsLoopStep(e) {
      PollLoopStep(s, e);
    }
  }
}
