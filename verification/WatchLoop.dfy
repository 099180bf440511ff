/**
 watchLoop of watcher_adapter.go as the loop it is, on the fields it uses.  Between
 any two of its accesses to them the other goroutines may do anything.  world holds
 what the loop cannot see (where every goroutine is, and what has been sent and
 received), and the history steps is a run of the step system of module Watcher, so
 every theorem about its runs holds of the code below.
 */
module WatchLoop {
  import opened Common
  import opened Watcher
  import opened WatcherRuns

  /** How a part of the loop ends: it goes on, it has returned from watchLoop, or it waits to send for ever. */
  datatype Outcome = Continued | Returned | Blocked

  /**
   The server as an adversary: what it answers to the n-th long poll, and to the fetch
   of the configuration after the n-th matching notification, if it answers at all.
   */
  datatype Server = Server(poll: nat -> PollReply, fetch: nat -> Option<map<string, string>>)

  class ApolloConfigWatcher {
    const namespace: string
    var notificationId: int
    var watchCtx: nat             // contexts are numbered
    var cancelled: set<nat>       // the contexts that are cancelled
    var notifyCh: seq<Batch>      // of capacity 1
    var stopCh: bool              // closed
    var world: State
    ghost var steps: seq<Step>

    /** The fields are those of the state. */
    ghost predicate Matches(s: State)
      reads this
    {
      && s.namespace == namespace && s.notificationId == notificationId && s.watchCtx == watchCtx
      && s.cancelled == cancelled && s.notifyCh == notifyCh && StopChClosed(s) == stopCh
    }

    ghost predicate Valid()
      reads this
    {
      Exec(namespace, steps) == Some(world) && ThreadsInv(world) && Matches(world)
    }

    /** The goroutine of the loop has been launched. */
    ghost predicate Running()
      reads this
    {
      Valid() && world.start == Launched
    }

    constructor (namespace: string)
      ensures Valid() && world == Watcher.New(namespace) && steps == [] && this.namespace == namespace
    {
      this.namespace := namespace;
      notificationId, watchCtx, cancelled, notifyCh, stopCh := 0, 0, {}, [], false;
      world := Watcher.New(namespace);
      steps := [];
    }

    /** One finished access to the fields extends the run, if it did what the protocol's step does. */
    method Append(e: Step)
      requires Exec(namespace, steps) == Some(world) && ThreadsInv(world) && Enabled(world, e)
      requires Matches(Apply(world, e))
      modifies this`world, this`steps
      ensures Valid() && world == Apply(old(world), e) && steps == old(steps) + [e]
    {
      hide Exec, ThreadsInv, Enabled, Apply, StopChClosed;
      RunSnoc(namespace, steps, world, e);
      ThreadsStep(world, e);
      world := Apply(world, e);
      steps := steps + [e];
    }

    /** The other goroutines take any steps but those of the running loop. */
    method OtherGoroutines()
      requires Running()
      modifies this
      ensures Running() && old(steps) <= steps && OthersMoved(old(world), world)
    {
      hide Running, Apply, Enabled, TheLoop, StopChClosed;
      var rounds: nat :| rounds >= 0;
      while rounds > 0
        invariant Running() && old(steps) <= steps && OthersMoved(old(world), world)
      {
        var e: Step := *;
        if !IsLoopStep(e) && Enabled(world, e) {
          OtherStep(e);
        }
        rounds := rounds - 1;
      }
    }

    /** One step of another goroutine. */
    method OtherStep(e: Step)
      requires Running() && !IsLoopStep(e) && Enabled(world, e)
      modifies this
      ensures Running() && old(steps) <= steps && OthersMoved(old(world), world)
    {
      OthersLeaveLoop(world, e);
      hide Exec, Apply, Enabled, ThreadsInv, OthersMoved;
      var next := Apply(world, e);
      watchCtx, cancelled, notifyCh, stopCh := next.watchCtx, next.cancelled, next.notifyCh, StopChClosed(next);
      Append(e);
    }

    /**
     watchLoop, for as many polls as the given number of rounds.  Unless it returns or
     is left waiting to send, it has made all of them, and has processed exactly the
     matching notifications of the answers.
     */
    method Run(server: Server, rounds: nat) returns (outcome: Outcome)
      requires Running() && TheLoop(world) == Top
      modifies this
      ensures Running() && old(steps) <= steps
      ensures outcome.Returned? == (TheLoop(world) == Exited)
      ensures |world.polled| <= |old(world.polled)| + rounds
      ensures outcome.Continued? ==> |world.polled| == |old(world.polled)| + rounds
      ensures outcome.Blocked? ==> EndsAs(Blocked, world, Top)
      ensures outcome.Continued? ==>
                world.matched == old(world.matched) + Announced(server, namespace, |old(world.polled)|, |world.polled|)
      ensures Answered(server, old(world), world, !outcome.Continued?)
    {
      hide Running, TheLoop, Answered, Announced;
      var n := rounds;
      NothingAnswered(server, world, namespace);
      while n > 0
        invariant Running() && TheLoop(world) == Top && old(steps) <= steps
        invariant |world.polled| + n == |old(world.polled)| + rounds
        invariant world.matched
                  == old(world.matched) + Announced(server, namespace, |old(world.polled)|, |world.polled|)
        invariant Answered(server, old(world), world, false)
      {
        ghost var before := world;
        var stopped := CheckStop();
        ghost var checked := world;
        if stopped {
          StillAnswered(server, old(world), before, checked);
          return Returned;
        }
        outcome := PollOnce(server);
        StillAnswered(server, old(world), before, checked);
        AnsweredMore(server, old(world), checked, world, !outcome.Continued?);
        AnnouncedSnoc(server, namespace, |old(world.polled)|, |checked.polled|);
        if !outcome.Continued? {
          return;
        }
        n := n - 1;
      }
      return Continued;
    }

    /** The select at the head: whether stopCh is closed. */
    method CheckStop() returns (stopped: bool)
      requires Running() && TheLoop(world) == Top
      modifies this
      ensures Running() && old(steps) <= steps && SameHistory(old(world), world)
      ensures TheLoop(world) == if stopped then Exited else Passed
      ensures old(stopCh) ==> stopped
    {
      hide Apply, Enabled, ThreadsInv;
      OtherGoroutines();
      Check(world);
      stopped := stopCh;
      Append(LoopCheck(0));
    }

    /** One long poll and what follows from it: the matching notifications of its answer, if it goes on. */
    method PollOnce(server: Server) returns (outcome: Outcome)
      requires Running() && TheLoop(world) == Passed
      modifies this
      ensures Running() && old(steps) <= steps && EndsAs(outcome, world, Top)
      ensures |world.polled| == |old(world.polled)| + 1
      ensures outcome.Continued? ==>
                world.matched == old(world.matched) + AnnouncedBy(server.poll(|old(world.polled)|), namespace)
      ensures Answered(server, old(world), world, !outcome.Continued?)
    {
      hide Running, TheLoop, Answered, MatchingIds;
      ghost var start := world;
      var ctx, reply := Ask(server);
      NoneAnswered(server, start, world);
      match reply {
        case PollFailed =>
          ghost var replied := world;
          outcome := AfterPollError(ctx);
          StillAnswered(server, start, replied, world);
          AnsweredWeaker(server, start, world, !outcome.Continued?);
          assert world.matched == start.matched + [];
        case Notified(notifications) =>
          ghost var replied, taken := world, 0;
          outcome, taken := HandleNotifications(server, ctx, notifications);
          AnsweredMore(server, start, replied, world, !outcome.Continued?);
          assert outcome.Continued? ==> notifications[..taken] == notifications;
      }
    }

    /** The locked read of context and id, and the long poll asked with them. */
    method Ask(server: Server) returns (ctx: nat, reply: PollReply)
      requires Running() && TheLoop(world) == Passed
      modifies this
      ensures Running() && old(steps) <= steps && reply == server.poll(|old(world.polled)|)
      ensures TheLoop(world) == if reply.PollFailed? then PollError(ctx) else Handling(ctx, reply.ns)
      ensures SameHistory(old(world).(polled := old(world.polled) + [old(notificationId)]), world)
    {
      hide Apply, Enabled, ThreadsInv;
      OtherGoroutines();
      var id := notificationId;
      ctx := watchCtx;
      IssuePoll(world);
      Append(LoopPoll(0));
      reply := WatchNotifications(server, ctx, id);
    }

    /** The long poll, asked with the context and the id that the loop has read. */
    method WatchNotifications(server: Server, ctx: nat, id: int) returns (reply: PollReply)
      requires Running() && TheLoop(world) == Polling(ctx, id) && world.polled != []
      modifies this
      ensures Running() && old(steps) <= steps && SameHistory(old(world), world)
      ensures reply == server.poll(|world.polled| - 1)
      ensures TheLoop(world) == if reply.PollFailed? then PollError(ctx) else Handling(ctx, reply.ns)
    {
      hide Apply, Enabled, ThreadsInv;
      OtherGoroutines();
      reply := server.poll(|world.polled| - 1);
      GetReply(world, reply);
      Append(LoopReply(0, reply));
    }

    /** After a failed poll: return if the context was cancelled, else pause, unless stopped meanwhile. */
    method AfterPollError(ctx: nat) returns (outcome: Outcome)
      requires Running() && TheLoop(world) == PollError(ctx)
      modifies this
      ensures Running() && old(steps) <= steps && SameHistory(old(world), world)
      ensures EndsAs(outcome, world, Top) && !outcome.Blocked?
    {
      hide Apply, Enabled, ThreadsInv;
      OtherGoroutines();
      LookAtContext(world);
      var dead := ctx in cancelled;
      Append(LoopAfterError(0));
      if dead {
        return Returned;
      }
      OtherGoroutines();
      var timer: bool := *;
      timer := timer || !stopCh;
      Wake(world, timer);
      Append(LoopWake(0, timer));
      return if timer then Continued else Returned;
    }

    /**
     The range loop over one reply.  It processes the notifications up to taken, all of
     them unless it returns: the ids of the matching ones, in order, and for each of
     these but one on which it returns or waits a batch is sent or a reload has failed.
     */
    method HandleNotifications(server: Server, ctx: nat, notifications: seq<Notification>)
      returns (outcome: Outcome, ghost taken: nat)
      requires Running() && TheLoop(world) == Handling(ctx, notifications)
      modifies this
      ensures Running() && old(steps) <= steps && EndsAs(outcome, world, Top) && world.polled == old(world.polled)
      ensures taken <= |notifications| && (outcome.Continued? ==> taken == |notifications|)
      ensures world.matched == old(world.matched) + MatchingIds(namespace, notifications[..taken])
      ensures notificationId == LastOf(MatchingIds(namespace, notifications[..taken]), old(notificationId))
      ensures Settled(world) - old(Settled(world))
           == |MatchingIds(namespace, notifications[..taken])| - if outcome.Continued? then 0 else 1
      ensures Answered(server, old(world), world, !outcome.Continued?)
    {
      hide Apply, Enabled, ThreadsInv, MatchingIds, Answered;
      ghost var start := world;
      taken := 0;
      NoIds(namespace, notifications);
      NoneAnswered(server, start, world);
      var i := 0;
      while i < |notifications|
        invariant 0 <= i == taken <= |notifications| && old(steps) <= steps && world.polled == old(world.polled)
        invariant Running() && TheLoop(world) == Handling(ctx, notifications[i..])
        invariant world.matched == old(world.matched) + MatchingIds(namespace, notifications[..i])
        invariant notificationId == LastOf(MatchingIds(namespace, notifications[..i]), old(notificationId))
        invariant Settled(world) == old(Settled(world)) + |MatchingIds(namespace, notifications[..i])|
        invariant start == old(world) && Answered(server, start, world, false)
      {
        ghost var before := world;
        IdsSnoc(namespace, notifications, i);
        taken := i + 1;
        outcome := HandleOne(server, ctx, notifications[i], notifications[i + 1..]);
        AnsweredMore(server, start, before, world, !outcome.Continued?);
        if !outcome.Continued? {
          return;
        }
        i := i + 1;
      }
      assert notifications[i..] == [];
      ghost var before := world;
      OtherGoroutines();
      TakeNext(world);
      Append(LoopHandle(0));
      StillAnswered(server, start, before, world);
      return Continued, taken;
    }

    /** The body of the range loop. */
    method HandleOne(server: Server, ctx: nat, notification: Notification, rest: seq<Notification>)
      returns (outcome: Outcome)
      requires Running() && TheLoop(world) == Handling(ctx, [notification] + rest)
      modifies this
      ensures Running() && old(steps) <= steps && EndsAs(outcome, world, Handling(ctx, rest))
      ensures world.polled == old(world.polled) && (outcome != Continued ==> notification.namespace == namespace)
      ensures if notification.namespace == namespace then
                && world.matched == old(world.matched) + [notification.id] && notificationId == notification.id
                && Settled(world) == old(Settled(world)) + if outcome.Continued? then 1 else 0
              else SameHistory(old(world), world) && notificationId == old(notificationId)
      ensures Answered(server, old(world), world, !outcome.Continued?)
    {
      hide Apply, Enabled, ThreadsInv;
      ghost var start := world;
      OtherGoroutines();
      TakeNext(world);
      assert ([notification] + rest)[1..] == rest;
      if notification.namespace == namespace {
        notificationId := notification.id;
        Append(LoopHandle(0));
        ghost var taken := world;
        outcome := ReloadAndSend(server, ctx, rest);
        OneAnswered(server, start, taken, world, outcome);
      } else {
        Append(LoopHandle(0));
        outcome := Continued;
        NoneAnswered(server, start, world);
      }
    }

    /**
     The reload for one notification, and the select that sends it.  If it goes on it
     has sent one batch, which lists the configuration that the server answered, or, if
     the server did not answer, has skipped one failed reload; otherwise it has sent
     nothing.
     */
    method ReloadAndSend(server: Server, ctx: nat, rest: seq<Notification>) returns (outcome: Outcome)
      requires Running() && TheLoop(world) == Fetching(ctx, rest) && world.matched != []
      modifies this
      ensures Running() && old(steps) <= steps && EndsAs(outcome, world, Handling(ctx, rest))
      ensures world.polled == old(world.polled) && world.matched == old(world.matched)
      ensures notificationId == old(notificationId)
      ensures Reloaded(server, old(world), world, outcome)
    {
      hide Running, TheLoop, Enumerates, EndsAs;
      var config := GetConfig(server, ctx, rest);
      match config {
        case None => outcome := Skip(ctx, rest);
        case Some(keys) => outcome := Deliver(ctx, rest, keys);
      }
    }

    /** The server has answered: the key/values of its configuration are sent. */
    method Deliver(ctx: nat, rest: seq<Notification>, config: map<string, string>) returns (outcome: Outcome)
      requires Running() && TheLoop(world) == Fetching(ctx, rest)
      modifies this
      ensures Running() && old(steps) <= steps && EndsAs(outcome, world, Handling(ctx, rest))
      ensures notificationId == old(notificationId)
      ensures !outcome.Continued? ==> SameHistory(old(world), world)
      ensures outcome.Continued? ==>
                && |world.sent| == |old(world.sent)| + 1
                && Enumerates(world.sent[|old(world.sent)|].batch, config)
                && var d := Delivery(Max(|old(world.matched)| - 1, 0), world.sent[|old(world.sent)|].batch);
                   SameHistory(old(world).(sent := old(world.sent) + [d]), world)
    {
      hide Apply, Enabled, ThreadsInv, Enumerates;
      var kvs := KeyValues(config);
      FetchStep(world, Fetched(kvs));
      Append(LoopFetched(0, Fetched(kvs)));
      outcome := SendOrStop(ctx, rest, kvs);
      assert outcome.Continued? ==> world.sent[|old(world.sent)|].batch == kvs;
    }

    /** The server has not answered: the reload is given up. */
    method Skip(ctx: nat, rest: seq<Notification>) returns (outcome: Outcome)
      requires Running() && TheLoop(world) == Fetching(ctx, rest)
      modifies this
      ensures Running() && old(steps) <= steps && EndsAs(outcome, world, Handling(ctx, rest)) && !outcome.Blocked?
      ensures notificationId == old(notificationId)
      ensures var failed := if outcome.Continued? then 1 else 0;
              SameHistory(old(world).(failedReloads := old(world.failedReloads) + failed), world)
    {
      hide Apply, Enabled, ThreadsInv;
      FetchStep(world, FetchReply.FetchFailed);
      Append(LoopFetched(0, FetchReply.FetchFailed));
      outcome := AfterFetchError(ctx, rest);
    }

    /** The call of the server: its answer to the fetch after the notification processed last. */
    method GetConfig(server: Server, ctx: nat, rest: seq<Notification>) returns (config: Option<map<string, string>>)
      requires Running() && TheLoop(world) == Fetching(ctx, rest) && world.matched != []
      modifies this
      ensures Running() && old(steps) <= steps && OthersMoved(old(world), world)
      ensures config == server.fetch(|world.matched| - 1) && notificationId == old(notificationId)
    {
      OtherGoroutines();
      config := server.fetch(|world.matched| - 1);
    }

    method AfterFetchError(ctx: nat, rest: seq<Notification>) returns (outcome: Outcome)
      requires Running() && TheLoop(world) == FetchError(ctx, rest)
      modifies this
      ensures Running() && old(steps) <= steps && EndsAs(outcome, world, Handling(ctx, rest)) && !outcome.Blocked?
      ensures notificationId == old(notificationId)
      ensures var failed := if outcome.Continued? then 1 else 0;
              SameHistory(old(world).(failedReloads := old(world.failedReloads) + failed), world)
    {
      hide Apply, Enabled, ThreadsInv;
      OtherGoroutines();
      LookAfterFetch(world);
      var dead := ctx in cancelled;
      Append(LoopAfterFetchError(0));
      return if dead then Returned else Continued;
    }

    /** The select: either case if both are ready. */
    method SendOrStop(ctx: nat, rest: seq<Notification>, kvs: Batch) returns (outcome: Outcome)
      requires Running() && TheLoop(world) == Sending(ctx, rest, kvs)
      modifies this
      ensures Running() && old(steps) <= steps && EndsAs(outcome, world, Handling(ctx, rest))
      ensures notificationId == old(notificationId)
      ensures var delivery := Delivery(Max(|old(world.matched)| - 1, 0), kvs);
              SameHistory(old(world).(sent := old(world.sent) + if outcome.Continued? then [delivery] else []), world)
    {
      hide Apply, Enabled, ThreadsInv;
      OtherGoroutines();
      var preferStop: bool := *;
      if stopCh && (preferStop || notifyCh != []) {
        Stop(world);
        Append(LoopSend(0, true));
        assert old(world.sent) + [] == old(world.sent);
        return Returned;
      }
      if notifyCh == [] {
        Send(world);
        notifyCh := [kvs];
        Append(LoopSend(0, false));
        return Continued;
      }
      assert old(world.sent) + [] == old(world.sent);
      return Blocked;   // the channel is full, and nobody receives or stops any more
    }
  }

  /** The key/values of a configuration, in whatever order the map is ranged over. */
  method KeyValues(config: map<string, string>) returns (kvs: Batch)
    ensures Enumerates(kvs, config)
  {
    kvs := [];
    var left := config.Keys;
    while left != {}
      invariant left <= config.Keys
      invariant forall n :: 0 <= n < |kvs| ==> kvs[n].0 in config && kvs[n].0 !in left && kvs[n].1 == config[kvs[n].0]
      invariant forall m, n :: 0 <= m < n < |kvs| ==> kvs[m].0 != kvs[n].0
      invariant forall k :: k in config && k !in left ==> (k, config[k]) in kvs
      decreases left
    {
      var k :| k in left;
      kvs := kvs + [(k, config[k])];
      left := left - {k};
    }
  }

  /** The batch lists every key of the configuration once, with its value. */
  ghost predicate Enumerates(kvs: Batch, config: map<string, string>) {
    && (forall n :: 0 <= n < |kvs| ==> kvs[n].0 in config && kvs[n].1 == config[kvs[n].0])
    && (forall m, n :: 0 <= m < n < |kvs| ==> kvs[m].0 != kvs[n].0)
    && (forall k :: k in config ==> (k, config[k]) in kvs)
  }

  // ---- what the contracts speak of ------------------------------------------------------

  function MatchingIds(namespace: string, ns: seq<Notification>): (ids: seq<int>)
    ensures |ids| <= |ns|
  {
    if ns == [] then []
    else
      var n := |ns| - 1;
      MatchingIds(namespace, ns[..n]) + if ns[n].namespace == namespace then [ns[n].id] else []
  }

  function LastOf(ids: seq<int>, otherwise: int): int {
    if ids == [] then otherwise else ids[|ids| - 1]
  }

  /** The notifications that were answered by a batch or a failed reload. */
  function Settled(s: State): nat { |s.sent| + s.failedReloads }

  predicate SameHistory(s: State, t: State) {
    t.polled == s.polled && t.matched == s.matched && t.sent == s.sent && t.failedReloads == s.failedReloads
  }

  predicate OthersMoved(s: State, t: State) {
    && SameHistory(s, t) && t.notificationId == s.notificationId && TheLoop(t) == TheLoop(s)
    && (StopChClosed(s) ==> StopChClosed(t))
  }

  /** What one reload does, for the answer that the server gives to it. */
  ghost predicate Reloaded(server: Server, s: State, t: State, outcome: Outcome)
    requires s.matched != []
  {
    match outcome
    case Continued =>
      (match server.fetch(|s.matched| - 1)
       case None => t.sent == s.sent && t.failedReloads == s.failedReloads + 1
       case Some(config) =>
         && t.failedReloads == s.failedReloads && |t.sent| == |s.sent| + 1
         && Enumerates(t.sent[|s.sent|].batch, config)
         && t.sent == s.sent + [Delivery(|s.matched| - 1, t.sent[|s.sent|].batch)])
    case _ => SameHistory(s, t)
  }

  /** The fetches from the m-th up to the n-th that the server did not answer. */
  function Unanswered(server: Server, m: nat, n: nat): nat
    requires m <= n
  {
    if m == n then 0 else Unanswered(server, m, n - 1) + if server.fetch(n - 1).None? then 1 else 0
  }

  /**
   From s to t every batch sent lists the configuration that the server answered to its
   own fetch, and exactly the fetches that it did not answer have failed; unfinished:
   the last fetch made may be neither sent nor failed.
   */
  ghost predicate Answered(server: Server, s: State, t: State, unfinished: bool) {
    && |s.matched| <= |t.matched| && s.sent <= t.sent
    && (forall n :: |s.sent| <= n < |t.sent| ==> Lists(server, t.sent[n]))
    && (!unfinished ==> t.failedReloads == s.failedReloads + Unanswered(server, |s.matched|, |t.matched|))
    && (unfinished ==>
          || t.failedReloads == s.failedReloads + Unanswered(server, |s.matched|, |t.matched|)
          || (|s.matched| < |t.matched| &&
                t.failedReloads == s.failedReloads + Unanswered(server, |s.matched|, |t.matched| - 1)))
  }

  /** The batch lists what the server answered to the fetch that caused it. */
  ghost predicate Lists(server: Server, d: Delivery) {
    server.fetch(d.cause).Some? && Enumerates(d.batch, server.fetch(d.cause).value)
  }

  lemma NoneAnswered(server: Server, s: State, t: State)
    requires t.matched == s.matched && t.sent == s.sent && t.failedReloads == s.failedReloads
    ensures Answered(server, s, t, false)
  {
    hide Lists;
  }

  lemma NothingAnswered(server: Server, s: State, namespace: string)
    ensures Answered(server, s, s, false)
    ensures s.matched == s.matched + Announced(server, namespace, |s.polled|, |s.polled|)
  {
    hide Lists;
  }

  lemma StillAnswered(server: Server, s: State, t: State, u: State)
    requires Answered(server, s, t, false) && u.matched == t.matched && u.sent == t.sent
    requires u.failedReloads == t.failedReloads
    ensures Answered(server, s, u, false) && Answered(server, s, u, true)
  {
    hide Lists;
  }

  lemma AnsweredWeaker(server: Server, s: State, t: State, unfinished: bool)
    requires Answered(server, s, t, false)
    ensures Answered(server, s, t, unfinished)
  {
    hide Lists;
  }

  lemma {:induction false} UnansweredPlus(server: Server, l: nat, m: nat, n: nat)
    requires l <= m <= n
    ensures Unanswered(server, l, n) == Unanswered(server, l, m) + Unanswered(server, m, n)
  {
    if m < n {
      UnansweredPlus(server, l, m, n - 1);
    }
  }

  lemma AnsweredMore(server: Server, s: State, t: State, u: State, unfinished: bool)
    requires Answered(server, s, t, false) && Answered(server, t, u, unfinished)
    ensures Answered(server, s, u, unfinished)
  {
    hide Lists;
    UnansweredPlus(server, |s.matched|, |t.matched|, |u.matched|);
    if |t.matched| < |u.matched| {
      UnansweredPlus(server, |s.matched|, |t.matched|, |u.matched| - 1);
    }
    forall n | |s.sent| <= n < |u.sent| ensures Lists(server, u.sent[n]) {
      if n < |t.sent| {
        assert u.sent[n] == t.sent[n];
      }
    }
  }

  /** A notification is taken, from s to t, and its reload is made, from t to u. */
  lemma OneAnswered(server: Server, s: State, t: State, u: State, outcome: Outcome)
    requires |t.matched| == |s.matched| + 1 && t.sent == s.sent && t.failedReloads == s.failedReloads
    requires u.matched == t.matched && Reloaded(server, t, u, outcome)
    ensures Answered(server, s, u, !outcome.Continued?)
  {
    assert Unanswered(server, |s.matched|, |s.matched|) == 0;
    if outcome.Continued? {
      forall n | |s.sent| <= n < |u.sent| ensures Lists(server, u.sent[n]) {
        assert n == |s.sent|;
      }
    }
    hide Lists, Enumerates;
  }

  /** The ids for the namespace in one answer, and in the answers to the polls from the m-th up to the n-th. */
  function AnnouncedBy(reply: PollReply, namespace: string): seq<int> {
    if reply.Notified? then MatchingIds(namespace, reply.ns) else []
  }

  function Announced(server: Server, namespace: string, m: nat, n: nat): seq<int>
    requires m <= n
  {
    if m == n then [] else Announced(server, namespace, m, n - 1) + AnnouncedBy(server.poll(n - 1), namespace)
  }

  lemma AnnouncedSnoc(server: Server, namespace: string, m: nat, n: nat)
    requires m <= n
    ensures Announced(server, namespace, m, n + 1)
         == Announced(server, namespace, m, n) + AnnouncedBy(server.poll(n), namespace)
  {}

  /** Where the loop is after the outcome, if it is at next when it goes on. */
  predicate EndsAs(outcome: Outcome, s: State, next: Loop) {
    match outcome
    case Continued => TheLoop(s) == next
    case Returned => TheLoop(s) == Exited
    case Blocked => TheLoop(s).Sending? && s.notifyCh != [] && !StopChClosed(s)
  }

  lemma NoIds(namespace: string, ns: seq<Notification>)
    ensures MatchingIds(namespace, ns[..0]) == [] && ns[0..] == ns
  {}

  lemma IdsSnoc(namespace: string, ns: seq<Notification>, i: nat)
    requires i < |ns|
    ensures MatchingIds(namespace, ns[..i + 1])
         == MatchingIds(namespace, ns[..i]) + if ns[i].namespace == namespace then [ns[i].id] else []
    ensures ns[i..] == [ns[i]] + ns[i + 1..]
  {
    assert ns[..i + 1][..i] == ns[..i];
  }

  lemma RunSnoc(namespace: string, es: seq<Step>, s: State, e: Step)
    requires Exec(namespace, es) == Some(s) && Enabled(s, e)
    ensures Exec(namespace, es + [e]) == Some(Apply(s, e))
  {
    hide Enabled, Apply;
    assert (es + [e])[..|es|] == es;
  }

  lemma OthersLeaveLoop(s: State, e: Step)
    requires ThreadsInv(s) && s.start == Launched && !IsLoopStep(e) && Enabled(s, e)
    ensures Apply(s, e).start == Launched && OthersMoved(s, Apply(s, e)) && Apply(s, e).namespace == s.namespace
    ensures Apply(s, e).notificationId == s.notificationId
  {}

  // ---- what each access of the loop does --------------------------------------------------

  /** The loop alone moves, to pc. */
  function MoveTo(s: State, pc: Loop): State {
    s.(loops := [pc], wg := if pc == Exited then s.wg - 1 else s.wg)
  }

  /** The state of a launched loop. */
  ghost predicate Launching(s: State) { ThreadsInv(s) && s.start == Launched }

  lemma Check(s: State)
    requires Launching(s) && TheLoop(s).Top?
    ensures Enabled(s, LoopCheck(0))
    ensures Apply(s, LoopCheck(0)) == MoveTo(s, if StopChClosed(s) then Exited else Passed)
  {}

  lemma IssuePoll(s: State)
    requires Launching(s) && TheLoop(s).Passed?
    ensures Enabled(s, LoopPoll(0))
    ensures Apply(s, LoopPoll(0))
         == MoveTo(s, Polling(s.watchCtx, s.notificationId)).(polled := s.polled + [s.notificationId])
  {}

  lemma GetReply(s: State, reply: PollReply)
    requires Launching(s) && TheLoop(s).Polling?
    ensures Enabled(s, LoopReply(0, reply))
    ensures Apply(s, LoopReply(0, reply))
         == MoveTo(s, if reply.PollFailed? then PollError(TheLoop(s).ctx) else Handling(TheLoop(s).ctx, reply.ns))
  {}

  lemma LookAtContext(s: State)
    requires Launching(s) && TheLoop(s).PollError?
    ensures Enabled(s, LoopAfterError(0))
    ensures Apply(s, LoopAfterError(0)) == MoveTo(s, if TheLoop(s).ctx in s.cancelled then Exited else Waiting)
  {}

  lemma Wake(s: State, timer: bool)
    requires Launching(s) && TheLoop(s).Waiting? && (timer || StopChClosed(s))
    ensures Enabled(s, LoopWake(0, timer))
    ensures Apply(s, LoopWake(0, timer)) == MoveTo(s, if timer then Top else Exited)
  {}

  lemma TakeNext(s: State)
    requires Launching(s) && TheLoop(s).Handling?
    ensures Enabled(s, LoopHandle(0))
    ensures var pc := TheLoop(s);
            Apply(s, LoopHandle(0)) ==
              if pc.rest == [] then MoveTo(s, Top)
              else if pc.rest[0].namespace == s.namespace then
                MoveTo(s, Fetching(pc.ctx, pc.rest[1..])).(
                  notificationId := pc.rest[0].id, matched := s.matched + [pc.rest[0].id])
              else MoveTo(s, Handling(pc.ctx, pc.rest[1..]))
  {}

  lemma FetchStep(s: State, reply: FetchReply)
    requires Launching(s) && TheLoop(s).Fetching?
    ensures Enabled(s, LoopFetched(0, reply))
    ensures var pc := TheLoop(s);
            Apply(s, LoopFetched(0, reply)) ==
              MoveTo(s, if reply.Fetched? then Sending(pc.ctx, pc.rest, reply.batch) else FetchError(pc.ctx, pc.rest))
  {}

  lemma LookAfterFetch(s: State)
    requires Launching(s) && TheLoop(s).FetchError?
    ensures Enabled(s, LoopAfterFetchError(0))
    ensures var pc := TheLoop(s);
            Apply(s, LoopAfterFetchError(0)) ==
              if pc.ctx in s.cancelled then MoveTo(s, Exited)
              else MoveTo(s, Handling(pc.ctx, pc.rest)).(failedReloads := s.failedReloads + 1)
  {}

  lemma Stop(s: State)
    requires Launching(s) && TheLoop(s).Sending? && StopChClosed(s)
    ensures Enabled(s, LoopSend(0, true)) && Apply(s, LoopSend(0, true)) == MoveTo(s, Exited)
  {}

  lemma Send(s: State)
    requires Launching(s) && TheLoop(s).Sending? && s.notifyCh == []
    ensures Enabled(s, LoopSend(0, false))
    ensures var pc := TheLoop(s);
            Apply(s, LoopSend(0, false)) ==
              MoveTo(s, Handling(pc.ctx, pc.rest)).(
                notifyCh := [pc.batch],
                sent := s.sent + [Delivery(Max(|s.matched| - 1, 0), pc.batch)])
  {}
}
