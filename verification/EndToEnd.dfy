/**
 The cache at the end of its pipeline: one watched namespace, from the reload in
 watchLoop through the channel and dispatchLoop to the eviction in
 handleConfigChanged.  A joint run is at once a run of module Dispatcher and a run of
 module Cache; a reload there is a fetch here, and an eviction there a callback here.
 */
module EndToEnd {
  import opened Common
  import Cache
  import CacheObject
  import CacheOrigins
  import opened Watcher
  import WatcherRuns
  import opened Dispatcher
  import WatchLoop

  datatype Joint = Joint(
    outer: Outer,
    cache: Cache.State,
    dropped: multiset<Cache.Item>)   // of a batch that Stop kept from being sent

  datatype Move =
    | Pipe(a: Act)                              // of the watcher, neither a fetch nor a callback
    | Fetches(batch: Batch, processed: nat)     // GetConfig answers; processed changes are seen by it
    | FetchFails(processed: nat)
    | CallBack
    | Elsewhere(e: Cache.Step)                  // the server, reads, and clearing the cache

  const NoCache := Cache.State(map[], map[], map[], multiset{}, multiset{}, {}, {})

  ghost predicate Possible(namespace: string, j: Joint, m: Move) {
    match m
    case Pipe(a) => Can(j.outer, a) && !a.Call? && !(a.InnerLoop? && a.e.LoopFetched?)
    case Fetches(batch, processed) =>
      && Can(j.outer, InnerLoop(LoopFetched(0, Fetched(batch))))
      && WatchLoop.Enumerates(batch, Cache.ConfigOf(j.cache, namespace)) && processed <= j.cache.notices[namespace]
    case FetchFails(processed) =>
      Can(j.outer, InnerLoop(LoopFetched(0, FetchReply.FetchFailed))) && processed <= j.cache.notices[namespace]
    case CallBack => Can(j.outer, Call)
    case Elsewhere(e) => !e.Reload? && !e.ReloadFails? && !e.Evict? && Cache.Enabled(j.cache, e)
  }

  /** What the move is to the watcher, and what it is to the cache. */
  function ActOf(m: Move): seq<Act> {
    match m
    case Pipe(a) => [a]
    case Fetches(batch, _) => [InnerLoop(LoopFetched(0, Fetched(batch)))]
    case FetchFails(_) => [InnerLoop(LoopFetched(0, FetchReply.FetchFailed))]
    case CallBack => [Call]
    case Elsewhere(_) => []
  }

  function CacheStepOf(namespace: string, o: Outer, m: Move): seq<Cache.Step> {
    match m
    case Pipe(_) => []
    case Fetches(_, processed) => [Cache.Reload(namespace, processed)]
    case FetchFails(processed) => if processed > 0 then [Cache.ReloadFails(namespace, processed)] else []
    case CallBack =>
      if o.dispatch.Calling? && o.dispatch.rest != []
      then [Cache.Evict(Cache.Item(namespace, o.dispatch.rest[0].0))] else []
    case Elsewhere(e) => [e]
  }

  /** The batch that the loop is about to send. */
  function SendingOf(s: State): Batch {
    if TheLoop(s).Sending? then TheLoop(s).batch else []
  }

  predicate Drops(m: Move) {
    m.Pipe? && m.a.InnerLoop? && m.a.e.LoopSend? && m.a.e.quit
  }

  ghost function After(namespace: string, j: Joint, m: Move): Joint
    requires Possible(namespace, j, m)
  {
    var step := CacheStepOf(namespace, j.outer, m);
    Joint(
      if ActOf(m) == [] then j.outer else Do(j.outer, ActOf(m)[0]),
      if step == [] || !Cache.Enabled(j.cache, step[0]) then j.cache else Cache.Apply(j.cache, step[0]),
      j.dropped + if Drops(m) then Items(namespace, SendingOf(j.outer.inner)) else multiset{})
  }

  ghost function Run(namespace: string, ms: seq<Move>): Option<Joint> {
    if ms == [] then Some(Joint(Initial(namespace, true), NoCache, multiset{}))
    else
      var n := |ms| - 1;
      var before := Run(namespace, ms[..n]);
      if before.Some? && Possible(namespace, before.value, ms[n]) then Some(After(namespace, before.value, ms[n]))
      else None
  }

  /** The joint run, as the watcher and as the cache see it. */
  function Acts(ms: seq<Move>): seq<Act> {
    if ms == [] then [] else Acts(ms[..|ms| - 1]) + ActOf(ms[|ms| - 1])
  }

  ghost function CacheSteps(namespace: string, ms: seq<Move>): seq<Cache.Step>
    requires Run(namespace, ms).Some?
  {
    if ms == [] then []
    else
      var n := |ms| - 1;
      CacheSteps(namespace, ms[..n]) + CacheStepOf(namespace, Run(namespace, ms[..n]).value.outer, ms[n])
  }

  // ---- items ------------------------------------------------------------------------

  function Items(namespace: string, kvs: Batch): multiset<Cache.Item> {
    multiset(CacheObject.ItemsOfBatch(namespace, kvs))
  }

  lemma ItemsAppend(namespace: string, xs: Batch, ys: Batch)
    ensures Items(namespace, xs + ys) == Items(namespace, xs) + Items(namespace, ys)
  {
    assert CacheObject.ItemsOfBatch(namespace, xs + ys)
        == CacheObject.ItemsOfBatch(namespace, xs) + CacheObject.ItemsOfBatch(namespace, ys);
  }

  /** A batch that lists a configuration has each of its items once. */
  lemma {:induction false} ItemsOfDistinct(namespace: string, kvs: Batch)
    requires forall m, n :: 0 <= m < n < |kvs| ==> kvs[m].0 != kvs[n].0
    ensures Items(namespace, kvs) == multiset(set n | 0 <= n < |kvs| :: Cache.Item(namespace, kvs[n].0))
  {
    if kvs != [] {
      var n := |kvs| - 1;
      ItemsOfDistinct(namespace, kvs[..n]);
      assert kvs == kvs[..n] + [kvs[n]];
      ItemsAppend(namespace, kvs[..n], [kvs[n]]);
      assert CacheObject.ItemsOfBatch(namespace, [kvs[n]]) == [Cache.Item(namespace, kvs[n].0)];
      var before := set i | 0 <= i < n :: Cache.Item(namespace, kvs[..n][i].0);
      var all := set i | 0 <= i < |kvs| :: Cache.Item(namespace, kvs[i].0);
      assert all == before + {Cache.Item(namespace, kvs[n].0)};
      assert Cache.Item(namespace, kvs[n].0) !in before;
    }
  }

  lemma ItemsOfConfig(namespace: string, kvs: Batch, config: map<string, string>)
    requires WatchLoop.Enumerates(kvs, config)
    ensures Items(namespace, kvs) == multiset(Cache.ItemsOf(namespace, config))
  {
    ItemsOfDistinct(namespace, kvs);
    var listed := set n | 0 <= n < |kvs| :: Cache.Item(namespace, kvs[n].0);
    forall i | i in Cache.ItemsOf(namespace, config) ensures i in listed {
      assert (i.key, config[i.key]) in kvs;
      var n :| 0 <= n < |kvs| && kvs[n] == (i.key, config[i.key]);
      assert Cache.Item(namespace, kvs[n].0) in listed;
    }
    assert listed == Cache.ItemsOf(namespace, config);
  }

  // ---- what each act does to what is under way ------------------------------------------

  /** The key/values that a watcher has sent. */
  function SentKvs(s: State): Batch { Flatten(Batches(s.sent)) }

  /** What a step does to what is sent and to what is about to be sent. */
  predicate SendEffect(s: State, e: Step, t: State) {
    && SentKvs(t) == SentKvs(s) + (if e.LoopSend? && !e.quit then SendingOf(s) else [])
    && (e.LoopFetched? ==> SendingOf(s) == [])
    && SendingOf(t) ==
         if e.LoopFetched? then (if e.fetch.Fetched? then e.fetch.batch else [])
         else if e.LoopSend? then [] else SendingOf(s)
  }

  lemma FlattenSnoc(bs: seq<Batch>, b: Batch)
    ensures Flatten(bs + [b]) == Flatten(bs) + b
  {
    assert (bs + [b])[..|bs|] == bs;
  }

  lemma LoopSends(s: State, e: Step)
    requires ThreadsInv(s) && IsLoopStep(e) && LoopEnabled(s, e)
    ensures var t := LoopApply(s, e);
            && t.sent ==
                 s.sent + (if e.LoopSend? && !e.quit then [Delivery(Max(|s.matched| - 1, 0), SendingOf(s))] else [])
            && (e.LoopFetched? ==> SendingOf(s) == [])
            && SendingOf(t) ==
                 if e.LoopFetched? then (if e.fetch.Fetched? then e.fetch.batch else [])
                 else if e.LoopSend? then [] else SendingOf(s)
  {
    WatcherRuns.OnlyLoop(s, e);
    assert s.sent + [] == s.sent;
    hide ThreadsInv;
  }

  lemma OthersSendNothing(s: State, e: Step)
    requires ThreadsInv(s) && !IsLoopStep(e) && Enabled(s, e)
    ensures Apply(s, e).sent == s.sent && SendingOf(Apply(s, e)) == SendingOf(s)
  {}

  lemma InnerSends(s: State, e: Step)
    requires ThreadsInv(s) && Enabled(s, e)
    ensures SendEffect(s, e, Apply(s, e))
  {
    hide ThreadsInv, SendingOf, LoopApply, LoopEnabled, Flatten, Batches;
    assert SentKvs(s) + [] == SentKvs(s);
    if IsLoopStep(e) {
      LoopSends(s, e);
      if e.LoopSend? && !e.quit {
        SentSnoc(s.sent, Delivery(Max(|s.matched| - 1, 0), SendingOf(s)));
      } else {
        assert s.sent + [] == s.sent;
      }
    } else {
      OthersSendNothing(s, e);
    }
  }

  lemma SentSnoc(sent: seq<Delivery>, d: Delivery)
    ensures Flatten(Batches(sent + [d])) == Flatten(Batches(sent)) + d.batch
  {
    assert (sent + [d])[..|sent|] == sent;
    FlattenSnoc(Batches(sent), d.batch);
  }

  lemma ActSends(o: Outer, a: Act)
    requires ThreadsInv(o.inner) && Can(o, a)
    ensures InnerStep(a) == [] ==> Do(o, a).inner == o.inner
    ensures InnerStep(a) != [] ==> SendEffect(o.inner, InnerStep(a)[0], Do(o, a).inner)
    ensures !a.Call? ==> Do(o, a).changes == o.changes
  {
    InnerDo(o, a);
    if InnerStep(a) != [] {
      InnerSends(o.inner, InnerStep(a)[0]);
    }
    if !a.Call? {
      ChangesOnlyByCall(o, a);
    }
    hide *;
  }

  lemma ChangesOnlyByCall(o: Outer, a: Act)
    requires Can(o, a) && !a.Call?
    ensures Do(o, a).changes == o.changes
  {
    hide Apply, Enabled;
  }

  // ---- the two views of a joint run ------------------------------------------------------

  /** A joint run is a run of the watcher. */
  lemma {:induction false} RunOfWatcher(namespace: string, ms: seq<Move>)
    requires Run(namespace, ms).Some?
    ensures Play(namespace, true, Acts(ms)) == Some(Run(namespace, ms).value.outer)
  {
    if ms != [] {
      var n := |ms| - 1;
      RunOfWatcher(namespace, ms[..n]);
      var acts := Acts(ms[..n]);
      hide Can, Do, Possible, Cache.Enabled, Cache.Apply;
      ActPossible(namespace, Run(namespace, ms[..n]).value, ms[n]);
      if ActOf(ms[n]) == [] {
        assert acts + [] == acts;
      } else {
        assert (acts + ActOf(ms[n]))[..|acts|] == acts;
      }
    }
  }

  lemma ActPossible(namespace: string, j: Joint, m: Move)
    requires Possible(namespace, j, m)
    ensures |ActOf(m)| <= 1 && (ActOf(m) != [] ==> Can(j.outer, ActOf(m)[0]))
  {
    hide Can;
  }

  /** Everything that has been fetched is called back, sent, about to be sent, or was dropped. */
  ghost predicate Balance(namespace: string, j: Joint) {
    j.cache.batch + Items(namespace, j.outer.changes)
      == Items(namespace, SentKvs(j.outer.inner)) + Items(namespace, SendingOf(j.outer.inner)) + j.dropped
  }

  lemma NextEvictable(namespace: string, j: Joint)
    requires Balance(namespace, j) && j.outer.dispatch.Calling? && j.outer.dispatch.rest != []
    requires OrderOfChanges(j.outer) && Fifo(j.outer.inner.notifyCh, j.outer.inner.sent, j.outer.inner.received)
    ensures Cache.Item(namespace, j.outer.dispatch.rest[0].0) in j.cache.batch
  {
    var o := j.outer;
    var kv, rest := o.dispatch.rest[0], o.dispatch.rest[1..];
    assert o.dispatch.rest == [kv] + rest;
    FlattenAppend(o.inner.received, o.inner.notifyCh);
    var tail := rest + Flatten(o.inner.notifyCh);
    assert SentKvs(o.inner) == o.changes + ([kv] + tail);
    ItemsAppend(namespace, o.changes, [kv] + tail);
    ItemsAppend(namespace, [kv], tail);
    ItemsOfOne(namespace, kv);
    Within(j.cache.batch, Items(namespace, o.changes), Items(namespace, [kv]), Items(namespace, tail),
           Items(namespace, SendingOf(o.inner)), j.dropped, Cache.Item(namespace, kv.0));
  }

  lemma ItemsOfOne(namespace: string, kv: (string, string))
    ensures Items(namespace, [kv]) == multiset{Cache.Item(namespace, kv.0)}
  {
    assert CacheObject.ItemsOfBatch(namespace, [kv]) == [Cache.Item(namespace, kv.0)];
  }

  lemma Within<T>(batch: multiset<T>, changes: multiset<T>, next: multiset<T>, tail: multiset<T>,
                  sending: multiset<T>, dropped: multiset<T>, i: T)
    requires batch + changes == (changes + (next + tail)) + sending + dropped && i in next
    ensures i in batch
  {
    assert (batch + changes)[i] == changes[i] + next[i] + tail[i] + sending[i] + dropped[i];
  }

  lemma {:induction false} FlattenAppend(xs: seq<Batch>, ys: seq<Batch>)
    ensures Flatten(xs + ys) == Flatten(xs) + Flatten(ys)
  {
    if ys == [] {
      assert xs + ys == xs;
    } else {
      var n := |ys| - 1;
      FlattenAppend(xs, ys[..n]);
      assert xs + ys == (xs + ys[..n]) + [ys[n]];
      FlattenSnoc(xs + ys[..n], ys[n]);
    }
  }

  /** What a move does to the batch of the cache: a fetch adds it, a callback takes one item from it. */
  lemma BatchMoves(namespace: string, j: Joint, m: Move)
    requires Possible(namespace, j, m)
    requires CacheStepOf(namespace, j.outer, m) != [] ==> Cache.Enabled(j.cache, CacheStepOf(namespace, j.outer, m)[0])
    ensures CalledBack(namespace, j.outer, m) <= j.cache.batch
    ensures After(namespace, j, m).cache.batch
         == j.cache.batch + FetchedItems(namespace, m) - CalledBack(namespace, j.outer, m)
    ensures m.Fetches? ==> CalledBack(namespace, j.outer, m) == multiset{}
  {
    hide Can, Do, Drops, SendingOf, Items;
    if m.Fetches? {
      ItemsOfConfig(namespace, m.batch, Cache.ConfigOf(j.cache, namespace));
    }
    hide WatchLoop.Enumerates;
  }

  /** Every move of the joint run is enabled in the cache: an eviction always finds its item in the batch. */
  lemma CacheEnabled(namespace: string, j: Joint, m: Move)
    requires Balance(namespace, j) && Possible(namespace, j, m)
    requires OrderOfChanges(j.outer) && Fifo(j.outer.inner.notifyCh, j.outer.inner.sent, j.outer.inner.received)
    ensures |CacheStepOf(namespace, j.outer, m)| <= 1
    ensures CacheStepOf(namespace, j.outer, m) != [] ==>
              Cache.Enabled(j.cache, CacheStepOf(namespace, j.outer, m)[0])
  {
    hide Balance, OrderOfChanges, Fifo;
    if m.CallBack? && j.outer.dispatch.rest != [] {
      NextEvictable(namespace, j);
    }
  }

  /** The step of a move for the watcher's inner half. */
  function InnerOf(m: Move): seq<Step> {
    if ActOf(m) == [] then [] else InnerStep(ActOf(m)[0])
  }

  /** What a move does to all that the balance speaks of. */
  lemma MoveEffect(namespace: string, j: Joint, m: Move)
    requires Possible(namespace, j, m) && ThreadsInv(j.outer.inner)
    ensures var t := After(namespace, j, m).outer;
            && (InnerOf(m) == [] ==> t.inner == j.outer.inner)
            && (InnerOf(m) != [] ==> SendEffect(j.outer.inner, InnerOf(m)[0], t.inner))
            && t.changes ==
                 if m.CallBack? && j.outer.dispatch.rest != [] then j.outer.changes + [j.outer.dispatch.rest[0]]
                 else j.outer.changes
    ensures m.Fetches? ==> InnerOf(m) == [LoopFetched(0, Fetched(m.batch))]
    ensures m.FetchFails? ==> InnerOf(m) == [LoopFetched(0, FetchReply.FetchFailed)]
    ensures m.CallBack? || m.Elsewhere? ==> InnerOf(m) == []
    ensures m.Pipe? && InnerOf(m) != [] ==> !InnerOf(m)[0].LoopFetched?
    ensures Drops(m) <==> InnerOf(m) != [] && InnerOf(m)[0].LoopSend? && InnerOf(m)[0].quit
  {
    hide Cache.Enabled, Cache.Apply, Do, SendEffect, ThreadsInv;
    ActPossible(namespace, j, m);
    if ActOf(m) != [] {
      ActSends(j.outer, ActOf(m)[0]);
      InnerStepKinds(j.outer, ActOf(m)[0]);
    }
    if m.CallBack? {
      CallChanges(j.outer);
    }
    hide Can;
  }

  lemma CallChanges(o: Outer)
    requires Can(o, Call)
    ensures Do(o, Call).changes == if o.dispatch.rest == [] then o.changes else o.changes + [o.dispatch.rest[0]]
  {}

  /** Only acts of the loop are sends and fetches. */
  lemma InnerStepKinds(o: Outer, a: Act)
    requires Can(o, a)
    ensures InnerStep(a) != [] && (InnerStep(a)[0].LoopSend? || InnerStep(a)[0].LoopFetched?) ==>
              a.InnerLoop? && a.e == InnerStep(a)[0]
  {
    hide Enabled;
  }

  /** The move sends the batch in hand. */
  predicate SendsBatch(m: Move) {
    InnerOf(m) != [] && InnerOf(m)[0].LoopSend? && !InnerOf(m)[0].quit
  }

  /** The items that the move fetches, sends, and drops. */
  function FetchedItems(namespace: string, m: Move): multiset<Cache.Item> {
    if m.Fetches? then Items(namespace, m.batch) else multiset{}
  }

  function SentNow(namespace: string, o: Outer, m: Move): multiset<Cache.Item> {
    if SendsBatch(m) then Items(namespace, SendingOf(o.inner)) else multiset{}
  }

  function DroppedNow(namespace: string, o: Outer, m: Move): multiset<Cache.Item> {
    if Drops(m) then Items(namespace, SendingOf(o.inner)) else multiset{}
  }

  /** The item that the move's callback evicts. */
  function CalledBack(namespace: string, o: Outer, m: Move): multiset<Cache.Item> {
    if m.CallBack? && o.dispatch.Calling? && o.dispatch.rest != []
    then multiset{Cache.Item(namespace, o.dispatch.rest[0].0)} else multiset{}
  }

  lemma ChangesItems(namespace: string, j: Joint, m: Move)
    requires Possible(namespace, j, m) && ThreadsInv(j.outer.inner)
    ensures Items(namespace, After(namespace, j, m).outer.changes)
         == Items(namespace, j.outer.changes) + CalledBack(namespace, j.outer, m)
  {
    MoveEffect(namespace, j, m);
    hide After, ThreadsInv, Do;
    if m.CallBack? && j.outer.dispatch.rest != [] {
      var kv := j.outer.dispatch.rest[0];
      ItemsAppend(namespace, j.outer.changes, [kv]);
      ItemsOfOne(namespace, kv);
    }
    hide Items, SendEffect, InnerOf;
  }

  lemma SendsWhat(namespace: string, j: Joint, m: Move)
    requires Possible(namespace, j, m) && ThreadsInv(j.outer.inner)
    ensures var s, t := j.outer.inner, After(namespace, j, m).outer.inner;
            && SentKvs(t) == SentKvs(s) + (if SendsBatch(m) then SendingOf(s) else [])
            && (m.Fetches? ==> SendingOf(s) == [] && SendingOf(t) == m.batch)
            && (m.FetchFails? ==> SendingOf(s) == [] == SendingOf(t))
            && (SendsBatch(m) || Drops(m) ==> SendingOf(t) == [] && !m.Fetches? && !m.FetchFails?)
            && (!m.Fetches? && !m.FetchFails? && !SendsBatch(m) && !Drops(m) ==> SendingOf(t) == SendingOf(s))
            && !(SendsBatch(m) && Drops(m))
  {
    MoveEffect(namespace, j, m);
    assert SentKvs(j.outer.inner) + [] == SentKvs(j.outer.inner);
    hide After, ThreadsInv, Items, SentKvs, SendingOf, Possible, InnerOf;
  }

  lemma SentItems(namespace: string, j: Joint, m: Move)
    requires Possible(namespace, j, m) && ThreadsInv(j.outer.inner)
    ensures var s, t := j.outer.inner, After(namespace, j, m).outer.inner;
            var sent, dropped := SentNow(namespace, j.outer, m), DroppedNow(namespace, j.outer, m);
            && Items(namespace, SentKvs(t)) == Items(namespace, SentKvs(s)) + sent
            && Items(namespace, SendingOf(t)) + sent + dropped
                 == Items(namespace, SendingOf(s)) + FetchedItems(namespace, m)
  {
    hide ThreadsInv, Items, SentKvs, SendingOf, Possible, Drops, SendsBatch, After;
    SendsWhat(namespace, j, m);
    var s := j.outer.inner;
    NoItems(namespace);
    ItemsAppend(namespace, SentKvs(s), SendingOf(s));
    PlusNothing(Items(namespace, SentKvs(s)));
    PlusNothing(Items(namespace, SendingOf(s)));
    PlusNothing(FetchedItems(namespace, m));
    assert SentKvs(s) + [] == SentKvs(s);
  }

  lemma PlusNothing<T>(m: multiset<T>)
    ensures m + multiset{} == m == multiset{} + m
  {}

  lemma Dropping(namespace: string, j: Joint, m: Move)
    requires Possible(namespace, j, m)
    ensures After(namespace, j, m).dropped == j.dropped + DroppedNow(namespace, j.outer, m)
  {
    hide Do, Can, Items, SendingOf, Drops, Cache.Enabled, Cache.Apply;
  }

  lemma BalanceKept<T>(batch: multiset<T>, changes: multiset<T>, sent: multiset<T>, sending: multiset<T>,
                       dropped: multiset<T>, fetched: multiset<T>, called: multiset<T>,
                       sentNow: multiset<T>, droppedNow: multiset<T>, sendingAfter: multiset<T>)
    requires batch + changes == sent + sending + dropped && called <= batch
    requires sendingAfter + sentNow + droppedNow == sending + fetched
    ensures batch + fetched - called + (changes + called) == sent + sentNow + sendingAfter + (dropped + droppedNow)
  {
    forall x: T
      ensures (batch + fetched - called + (changes + called))[x]
           == (sent + sentNow + sendingAfter + (dropped + droppedNow))[x]
    {
      assert (batch + changes)[x] == (sent + sending + dropped)[x];
      assert (sendingAfter + sentNow + droppedNow)[x] == (sending + fetched)[x];
      assert called[x] <= batch[x];
    }
  }

  lemma BalanceStep(namespace: string, j: Joint, m: Move)
    requires Balance(namespace, j) && Possible(namespace, j, m) && ThreadsInv(j.outer.inner)
    requires OrderOfChanges(j.outer) && Fifo(j.outer.inner.notifyCh, j.outer.inner.sent, j.outer.inner.received)
    ensures Balance(namespace, After(namespace, j, m))
  {
    CacheEnabled(namespace, j, m);
    hide ThreadsInv, OrderOfChanges, Fifo, Items, SentKvs, SendingOf, Possible, After;
    BatchMoves(namespace, j, m);
    ChangesItems(namespace, j, m);
    SentItems(namespace, j, m);
    Dropping(namespace, j, m);
    var o, p := j.outer, After(namespace, j, m).outer;
    BalanceKept(j.cache.batch, Items(namespace, o.changes), Items(namespace, SentKvs(o.inner)),
                Items(namespace, SendingOf(o.inner)), j.dropped, FetchedItems(namespace, m),
                CalledBack(namespace, o, m), SentNow(namespace, o, m), DroppedNow(namespace, o, m),
                Items(namespace, SendingOf(p.inner)));
    hide FetchedItems, CalledBack, SentNow, DroppedNow;
  }

  lemma NoItems(namespace: string)
    ensures Items(namespace, []) == multiset{}
  {}

  // ---- over whole runs --------------------------------------------------------------------

  lemma WatcherInv(namespace: string, ms: seq<Move>)
    requires Run(namespace, ms).Some?
    ensures var o := Run(namespace, ms).value.outer;
            OrderOfChanges(o) && ThreadsInv(o.inner) && Fifo(o.inner.notifyCh, o.inner.sent, o.inner.received)
  {
    RunOfWatcher(namespace, ms);
    PlayInv(namespace, true, Acts(ms));
    InnerRun(namespace, true, Acts(ms));
    WatcherRuns.RunInv(namespace, InnerSteps(Acts(ms)));
    hide Run, Play, Acts, InnerSteps;
  }

  /** The items that the cache's run evicts, in order. */
  function Evicted(steps: seq<Cache.Step>): seq<Cache.Item> {
    if steps == [] then []
    else
      var n := |steps| - 1;
      Evicted(steps[..n]) + if steps[n].Evict? then [steps[n].item] else []
  }

  /** What holds of a joint run and of the cache's view of it. */
  ghost predicate Joined(namespace: string, j: Joint, steps: seq<Cache.Step>) {
    && Balance(namespace, j) && Cache.Exec(steps) == Some(j.cache)
    && Evicted(steps) == CacheObject.ItemsOfBatch(namespace, j.outer.changes)
  }

  lemma JoinedStep(namespace: string, j: Joint, steps: seq<Cache.Step>, m: Move)
    requires Joined(namespace, j, steps) && Possible(namespace, j, m)
    requires OrderOfChanges(j.outer) && ThreadsInv(j.outer.inner)
    requires Fifo(j.outer.inner.notifyCh, j.outer.inner.sent, j.outer.inner.received)
    ensures Joined(namespace, After(namespace, j, m), steps + CacheStepOf(namespace, j.outer, m))
  {
    hide Balance, OrderOfChanges, ThreadsInv, Fifo, Possible, After;
    BalanceStep(namespace, j, m);
    CacheEnabled(namespace, j, m);
    CacheGoesOn(namespace, j, steps, m);
    EvictedGoesOn(namespace, j, steps, m);
    hide CacheStepOf;
  }

  lemma CacheGoesOn(namespace: string, j: Joint, steps: seq<Cache.Step>, m: Move)
    requires Possible(namespace, j, m) && Cache.Exec(steps) == Some(j.cache)
    requires var more := CacheStepOf(namespace, j.outer, m);
             |more| <= 1 && (more != [] ==> Cache.Enabled(j.cache, more[0]))
    ensures Cache.Exec(steps + CacheStepOf(namespace, j.outer, m)) == Some(After(namespace, j, m).cache)
  {
    var more := CacheStepOf(namespace, j.outer, m);
    hide Do, Can, Drops, SendingOf, Items, Cache.Enabled, Cache.Apply, Possible, CacheStepOf;
    if more == [] {
      assert steps + more == steps;
    } else {
      assert (steps + more)[..|steps|] == steps;
    }
  }

  lemma EvictedGoesOn(namespace: string, j: Joint, steps: seq<Cache.Step>, m: Move)
    requires Possible(namespace, j, m) && ThreadsInv(j.outer.inner)
    requires Evicted(steps) == CacheObject.ItemsOfBatch(namespace, j.outer.changes)
    ensures Evicted(steps + CacheStepOf(namespace, j.outer, m))
         == CacheObject.ItemsOfBatch(namespace, After(namespace, j, m).outer.changes)
  {
    MoveEffect(namespace, j, m);
    ElsewhereQuiet(namespace, j, m);
    hide ThreadsInv, Do, InnerOf, SendEffect, Drops, SendingOf, After, Can, Possible, CacheObject.ItemsOfBatch;
    var more := CacheStepOf(namespace, j.outer, m);
    if more == [] {
      assert steps + more == steps;
    } else {
      EvictedSnoc(steps, more[0]);
      if m.CallBack? {
        BatchSnoc(namespace, j.outer.changes, j.outer.dispatch.rest[0]);
      }
    }
  }

  lemma ElsewhereQuiet(namespace: string, j: Joint, m: Move)
    requires Possible(namespace, j, m)
    ensures m.Elsewhere? ==> !m.e.Evict?
    ensures m.CallBack? ==> j.outer.dispatch.Calling?
  {
    hide Cache.Enabled;
  }

  lemma BatchSnoc(namespace: string, kvs: Batch, kv: (string, string))
    ensures CacheObject.ItemsOfBatch(namespace, kvs + [kv])
         == CacheObject.ItemsOfBatch(namespace, kvs) + [Cache.Item(namespace, kv.0)]
  {}

  lemma EvictedSnoc(steps: seq<Cache.Step>, e: Cache.Step)
    ensures Evicted(steps + [e]) == if e.Evict? then Evicted(steps) + [e.item] else Evicted(steps)
  {
    assert (steps + [e])[..|steps|] == steps;
  }

  /**
   End to end: a joint run is a run of the cache, whose evictions are, in order, exactly
   the key/values that onChange was called with; and what the cache still waits for is
   what has been fetched and not yet been called back.
   */
  lemma {:induction false} EvictionsAreChanges(namespace: string, ms: seq<Move>)
    requires Run(namespace, ms).Some?
    ensures Joined(namespace, Run(namespace, ms).value, CacheSteps(namespace, ms))
  {
    if ms == [] {
      NothingJoined(namespace);
    } else {
      hide Joined, Possible, After, OrderOfChanges, ThreadsInv, Fifo;
      var n := |ms| - 1;
      EvictionsAreChanges(namespace, ms[..n]);
      WatcherInv(namespace, ms[..n]);
      JoinedStep(namespace, Run(namespace, ms[..n]).value, CacheSteps(namespace, ms[..n]), ms[n]);
    }
  }

  lemma NothingJoined(namespace: string)
    ensures Joined(namespace, Joint(Initial(namespace, true), NoCache, multiset{}), [])
  {}

  /** Every key/value sent has been called back, and no batch is on its way or was dropped by a Stop. */
  predicate AllCalledBack(j: Joint) {
    j.outer.changes == SentKvs(j.outer.inner) && SendingOf(j.outer.inner) == [] && j.dropped == multiset{}
  }

  /**
   So once every change of the namespace has been fetched without a failure and every
   key/value fetched has been called back, whatever else happens on the server, a value
   that the cache holds for the namespace is the server's if and only if the server
   still has its key and had this value when it was stored, at event t of the cache's
   run.
   */
  lemma CalledBackMeansCurrent(namespace: string, ms: seq<Move>, j: Joint, k: string) returns (t: nat)
    requires Run(namespace, ms) == Some(j) && AllCalledBack(j)
    requires j.cache.notices[namespace] == 0 && namespace !in j.cache.lost
    requires k in j.cache.cache && j.cache.cache[k].item.namespace == namespace
    ensures CacheOrigins.AgreesExactly(CacheSteps(namespace, ms), j.cache, k, t)
    ensures var e := j.cache.cache[k];
            !e.crossed && Cache.ServerValue(j.cache, e.item).Some? ==>
              Cache.ServerValue(j.cache, e.item) == Some(e.value)
  {
    hide Joined, AllCalledBack, CacheOrigins.AgreesExactly;
    EvictionsAreChanges(namespace, ms);
    t := JoinedAtRest(namespace, j, CacheSteps(namespace, ms), k);
  }

  lemma JoinedAtRest(namespace: string, j: Joint, steps: seq<Cache.Step>, k: string) returns (t: nat)
    requires Joined(namespace, j, steps) && AllCalledBack(j)
    requires j.cache.notices[namespace] == 0 && namespace !in j.cache.lost
    requires k in j.cache.cache && j.cache.cache[k].item.namespace == namespace
    ensures CacheOrigins.AgreesExactly(steps, j.cache, k, t)
    ensures var e := j.cache.cache[k];
            !e.crossed && Cache.ServerValue(j.cache, e.item).Some? ==>
              Cache.ServerValue(j.cache, e.item) == Some(e.value)
  {
    NothingWaits(namespace, j);
    hide Balance, AllCalledBack, CacheOrigins.AgreesExactly;
    t := CacheOrigins.AtRest(steps, j.cache, k);
  }

  lemma NothingWaits(namespace: string, j: Joint)
    requires Balance(namespace, j) && AllCalledBack(j)
    ensures j.cache.batch == multiset{}
  {
    NoItems(namespace);
    Cancelled(j.cache.batch, Items(namespace, j.outer.changes));
  }

  lemma Cancelled<T>(x: multiset<T>, y: multiset<T>)
    ensures x + y == y ==> x == multiset{}
  {
    if x + y == y {
      forall t: T ensures x[t] == 0 {
        assert (x + y)[t] == x[t] + y[t];
      }
    }
  }
}
