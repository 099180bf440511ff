/**
 The cache of PlugApollo as the object it is.  The methods update the map in place;
 between two of their critical sections the server, other reads and the dispatch
 goroutines may do anything.  world describes what the methods cannot see, and the
 history steps is a run of the step system of module Cache, so every theorem about
 its runs holds of the object.
 */
module CacheObject {
  import opened Common
  import opened Cache

  /** The map of the source: the values without their history. */
  function Values(cache: map<string, Entry>): map<string, string> {
    map k | k in cache :: cache[k].value
  }

  class ConfigCache {
    var configCache: map<string, string>
    var world: State
    ghost var steps: seq<Step>

    ghost predicate Valid()
      reads this
    {
      Exec(steps) == Some(world) && configCache == Values(world.cache)
    }

    constructor ()
      ensures Valid() && configCache == map[] && steps == []
    {
      configCache := map[];
      world := State(map[], map[], map[], multiset{}, multiset{}, {}, {});
      steps := [];
    }

    /** Adds one finished critical section to the run. */
    method Append(e: Step)
      requires Exec(steps) == Some(world) && Enabled(world, e)
      requires configCache == Values(Apply(world, e).cache)
      modifies this`world, this`steps
      ensures Valid() && world == Apply(old(world), e) && steps == old(steps) + [e]
    {
      hide Apply, Enabled;
      assert (steps + [e])[..|steps|] == steps;
      world := Apply(world, e);
      steps := steps + [e];
    }

    /** One step of somebody else, unless it moves the read mine or takes an item of the batch held. */
    method OtherStep(e: Step, mine: set<nat>, held: multiset<Item>)
      requires Valid() && held <= world.batch
      modifies this
      ensures Valid() && held <= world.batch && old(steps) <= steps
      ensures ReadsKept(old(world), world, mine)
    {
      if Enabled(world, e) && !(Moves(e) && e.r in mine) && (e.Evict? ==> world.batch[e.item] > held[e.item]) {
        OthersLeave(world, e, mine, held);
        hide Apply, Enabled;
        configCache := Values(Apply(world, e).cache);
        Append(e);
      }
    }

    /** Whatever the server, other reads and other dispatchers do while the cache is not locked. */
    method OtherGoroutines(mine: set<nat>, held: multiset<Item>)
      requires Valid() && held <= world.batch
      modifies this
      ensures Valid() && held <= world.batch && old(steps) <= steps
      ensures ReadsKept(old(world), world, mine)
    {
      hide Valid, Enabled, Apply;
      var rounds: nat :| rounds >= 0;
      while rounds > 0
        invariant Valid() && held <= world.batch && old(steps) <= steps
        invariant ReadsKept(old(world), world, mine)
      {
        var e: Step := *;
        OtherStep(e, mine, held);
        rounds := rounds - 1;
      }
    }

    /**
     getConfigValueFromApollo, as the read named r; reachable says whether the server
     answers it.  Without a client it fails at once.  With the cache enabled the run goes
     on with the events of this read, which determine its result: a hit returns the
     cached value, a miss what the server has.  Without the cache the read leaves no
     event and returns what the server has.
     */
    method GetConfigValueFromApollo(hasClient: bool, enableCache: bool, reachable: bool, r: nat, i: Item)
      returns (result: Result<string, Error>, ghost events: ReadEvents)
      requires Valid() && r !in world.readers
      modifies this
      ensures Valid() && old(steps) <= steps
      ensures !hasClient ==> result.Err? && steps == old(steps) && configCache == old(configCache)
      ensures hasClient && !enableCache ==> r !in world.readers && IsAnswer(world, i, reachable, result)
      ensures hasClient && enableCache ==>
                && r in world.readers && HasReturned(world.readers[r], i, result)
                && ReadAs(steps, |old(steps)|, r, i, reachable, events, result)
    {
      events := Hit(0, 0);
      if !hasClient {
        return Err(InitError("Apollo client not initialized")), events;
      }
      hide Apply, Enabled, Exec, SamePlace, ReadAs;
      if !enableCache {
        OtherGoroutines({r}, multiset{});
        result := Answer(world, i, reachable);
        return;
      }
      BeginRead(world, r, i);
      Append(Begin(r, i));
      result, events := ReadBegun(reachable, r, i);
      BegunAs(steps, |old(steps)|, r, i, reachable, events, result);
    }

    /** The read from its Begin on. */
    method ReadBegun(reachable: bool, r: nat, i: Item) returns (result: Result<string, Error>, ghost events: ReadEvents)
      requires Valid() && r in world.readers && world.readers[r] == Read(i, Checking)
      requires steps != [] && steps[|steps| - 1] == Begin(r, i)
      modifies this
      ensures Valid() && old(steps) <= steps && r in world.readers && HasReturned(world.readers[r], i, result)
      ensures ReadAs(steps, |old(steps)| - 1, r, i, reachable, events, result)
    {
      hide Valid, Apply, Enabled, Exec, HasReturned, ReadAs, LoadedAs, IsAnswer, ServerValue;
      ghost var begun := steps;
      OtherGoroutines({r}, multiset{});
      ghost var checking, seen := steps, world;
      assert begun <= checking;
      var cached := Lookup(r, i);
      ghost var checked := steps;
      if cached.Some? {
        HitAs(begun, checking, seen, r, i, reachable);
        return Ok(cached.value), Hit(|begun| - 1, |checking|);
      }
      ghost var loaded;
      result, loaded := FetchAndStore(reachable, r, i);
      MissedAs(begun, checking, seen, steps, r, i, reachable, loaded, result);
      events := Miss(|begun| - 1, |checking|, loaded);
    }

    /** The part of a read after a miss. */
    method FetchAndStore(reachable: bool, r: nat, i: Item) returns (result: Result<string, Error>, ghost loaded: Load)
      requires Valid() && r in world.readers && world.readers[r] == Read(i, Fetching)
      modifies this
      ensures Valid() && old(steps) <= steps && r in world.readers && HasReturned(world.readers[r], i, result)
      ensures LoadedAs(steps, |old(steps)|, r, i, reachable, loaded, result)
    {
      hide Valid, Apply, Enabled, Exec, ServerValue, HasReturned, IsAnswer, LoadedAs;
      ghost var missed := steps;
      OtherGoroutines({r}, multiset{});
      ghost var fetching, seen := steps, world;
      result := CallClient(reachable, r, i);
      ghost var fetched := steps;
      if result.Err? {
        RefusedAs(missed, fetching, seen, r, i, reachable, result);
        return result, Load(|fetching|, |fetching|);
      }
      OtherGoroutines({r}, multiset{});
      ghost var storing := steps;
      StoreValue(r, i, result.value);
      StoredAs(missed, fetching, seen, storing, r, i, reachable, result);
      loaded := Load(|fetching|, |storing|);
    }

    /** The read-locked look at the map. */
    method Lookup(r: nat, i: Item) returns (cached: Option<string>)
      requires Valid() && r in world.readers && world.readers[r] == Read(i, Checking)
      modifies this`world, this`steps
      ensures Valid() && steps == old(steps) + [Check(r)] && r in world.readers && Exec(old(steps)) == Some(old(world))
      ensures cached == CachedValue(old(world), i)
      ensures if cached.Some? then HasReturned(world.readers[r], i, Ok(cached.value))
              else world.readers[r] == Read(i, Fetching)
    {
      hide Apply, Enabled, Exec;
      CheckRead(world, r);
      var cacheKey := CacheKey(i.namespace, i.key);
      cached := if cacheKey in configCache then Some(configCache[cacheKey]) else None;
      Append(Check(r));
    }

    /** The write-locked store into the map. */
    method StoreValue(r: nat, i: Item, value: string)
      requires Valid() && r in world.readers && world.readers[r].item == i && world.readers[r].point.Storing?
      requires world.readers[r].point.entry.item == i && world.readers[r].point.entry.value == value
      modifies this
      ensures Valid() && steps == old(steps) + [Store(r)]
      ensures r in world.readers && HasReturned(world.readers[r], i, Ok(value))
    {
      hide Apply, Enabled, Exec;
      StoreRead(world, r);
      configCache := configCache[CacheKey(i.namespace, i.key) := value];
      Append(Store(r));
    }

    /** client.GetConfigValue: the value that the server has at this moment, if it is reachable and has one. */
    method CallClient(reachable: bool, r: nat, i: Item) returns (result: Result<string, Error>)
      requires Valid() && r in world.readers && world.readers[r] == Read(i, Fetching)
      modifies this
      ensures Valid() && steps == old(steps) + [Fetch(r, reachable)] && Exec(old(steps)) == Some(old(world))
      ensures IsAnswer(old(world), i, reachable, result)
      ensures r in world.readers
      ensures if result.Ok? then world.readers[r] == Read(i, Storing(Entry(i, result.value, false)))
              else HasReturned(world.readers[r], i, result)
    {
      hide Apply, Enabled, Exec;
      result := Answer(world, i, reachable);
      FetchRead(world, r, reachable);
      Append(Fetch(r, reachable));
    }

    /**
     The dispatch of a reload by dispatchLoop, concurrent with everything else: every
     key/value of the reload is evicted by an event of its own, in order.
     */
    method DispatchReload(namespace: string, kvs: seq<(string, string)>) returns (ghost evictions: seq<nat>)
      requires Valid() && multiset(ItemsOfBatch(namespace, kvs)) <= world.batch
      modifies this
      ensures Valid() && old(steps) <= steps
      ensures EvictedInOrder(steps, |old(steps)|, ItemsOfBatch(namespace, kvs), |kvs|, evictions)
    {
      hide Valid, Apply, Enabled, Exec, Values, EvictedInOrder, Rest;
      evictions := [];
      var n := 0;
      var items := ItemsOfBatch(namespace, kvs);
      NothingEvicted(steps, items);
      while n < |kvs|
        invariant 0 <= n <= |kvs| && Valid() && old(steps) <= steps
        invariant Rest(items, n) <= world.batch
        invariant EvictedInOrder(steps, |old(steps)|, items, n, evictions)
      {
        ghost var before := steps;
        RestNext(items, n);
        assert items[n] == Item(namespace, kvs[n].0);
        DispatchOne(namespace, kvs[n].0, kvs[n].1, Rest(items, n + 1));
        EvictedNext(before, steps, |old(steps)|, items, n, evictions);
        evictions := evictions + [|steps| - 1];
        n := n + 1;
      }
    }

    /** One key/value of a reload, of which the items of rest are still to come. */
    method DispatchOne(namespace: string, key: string, value: string, rest: multiset<Item>)
      requires Valid() && multiset{Item(namespace, key)} + rest <= world.batch
      modifies this
      ensures Valid() && rest <= world.batch && |old(steps)| < |steps|
      ensures old(steps) <= steps && steps[|steps| - 1] == Evict(Item(namespace, key))
    {
      hide Valid, Apply, Enabled, Exec, Values;
      OtherGoroutines({}, multiset{Item(namespace, key)} + rest);
      HandleConfigChanged(namespace, key, value);
    }

    /** handleConfigChanged: one eviction, of exactly the changed key. */
    method HandleConfigChanged(namespace: string, key: string, value: string)
      requires Valid() && Item(namespace, key) in world.batch
      modifies this
      ensures Valid() && steps == old(steps) + [Evict(Item(namespace, key))]
      ensures world.batch == old(world.batch) - multiset{Item(namespace, key)}
    {
      var i := Item(namespace, key);
      configCache := configCache - {CacheKey(namespace, key)};
      assert configCache == Values(Apply(world, Evict(i)).cache);
      Append(Evict(i));
    }

    /** clearConfigCache: the run goes on with a Clear. */
    method ClearConfigCache()
      requires Valid()
      modifies this
      ensures Valid() && steps == old(steps) + [Clear] && configCache == map[]
    {
      configCache := map[];
      Append(Clear);
    }
  }

  // ---- what a read does in the run ------------------------------------------------------

  /** What the server, asked for the item at this moment, answers; an error if it does not or has no value. */
  function Answer(s: State, i: Item, reachable: bool): Result<string, Error> {
    if reachable && ServerValue(s, i).Some? then Ok(ServerValue(s, i).value) else Err(FetchFailed(0))
  }

  predicate IsAnswer(s: State, i: Item, reachable: bool, result: Result<string, Error>) {
    if reachable && ServerValue(s, i).Some? then result == Ok(ServerValue(s, i).value) else result.Err?
  }

  function CachedValue(s: State, i: Item): Option<string> {
    if KeyOf(i) in s.cache then Some(s.cache[KeyOf(i)].value) else None
  }

  /** The indices of the events of one read in the run of the cache. */
  datatype ReadEvents =
    | Hit(begin: nat, check: nat)
    | Miss(begin: nat, check: nat, load: Load)

  /** Of the fetch, and of the store if there was something to store. */
  datatype Load = Load(fetch: nat, store: nat)

  /** The read begins and looks into the cache; a hit is its result, and a miss leads to the server. */
  ghost predicate ReadAs(es: seq<Step>, from: nat, r: nat, i: Item, reachable: bool, ev: ReadEvents,
                         result: Result<string, Error>)
  {
    && from <= ev.begin < ev.check < |es| && es[ev.begin] == Begin(r, i) && es[ev.check] == Check(r)
    && Exec(es[..ev.check]).Some?
    && var cached := CachedValue(Exec(es[..ev.check]).value, i);
       match ev
       case Hit(_, _) => cached.Some? && result == Ok(cached.value)
       case Miss(_, check, load) => cached.None? && LoadedAs(es, check + 1, r, i, reachable, load, result)
  }

  /** The server is asked, and its answer is the result; a value is stored. */
  ghost predicate LoadedAs(es: seq<Step>, from: nat, r: nat, i: Item, reachable: bool, load: Load,
                           result: Result<string, Error>)
  {
    && from <= load.fetch < |es| && es[load.fetch] == Fetch(r, reachable) && Exec(es[..load.fetch]).Some?
    && IsAnswer(Exec(es[..load.fetch]).value, i, reachable, result)
    && (result.Ok? ==> load.fetch < load.store < |es| && es[load.store] == Store(r))
  }

  lemma BegunAs(
    es: seq<Step>, from: nat, r: nat, i: Item, reachable: bool, ev: ReadEvents, result: Result<string, Error>)
    requires ReadAs(es, from, r, i, reachable, ev, result)
    ensures from <= ev.begin < ev.check < |es|
  {}

  lemma HitAs(begun: seq<Step>, checking: seq<Step>, seen: State, r: nat, i: Item, reachable: bool)
    requires begun != [] && begun <= checking && begun[|begun| - 1] == Begin(r, i) && Exec(checking) == Some(seen)
    requires CachedValue(seen, i).Some?
    ensures ReadAs(checking + [Check(r)], |begun| - 1, r, i, reachable, Hit(|begun| - 1, |checking|),
                   Ok(CachedValue(seen, i).value))
  {
    assert (checking + [Check(r)])[..|checking|] == checking;
  }

  lemma MissedAs(begun: seq<Step>, checking: seq<Step>, seen: State, es: seq<Step>, r: nat, i: Item, reachable: bool,
                 load: Load, result: Result<string, Error>)
    requires begun != [] && begun <= checking && begun[|begun| - 1] == Begin(r, i) && Exec(checking) == Some(seen)
    requires CachedValue(seen, i).None? && checking + [Check(r)] <= es
    requires LoadedAs(es, |checking| + 1, r, i, reachable, load, result)
    ensures ReadAs(es, |begun| - 1, r, i, reachable, Miss(|begun| - 1, |checking|, load), result)
  {
    assert es[..|checking|] == checking;
    assert es[|checking|] == Check(r);
    assert es[|begun| - 1] == begun[|begun| - 1];
  }

  lemma RefusedAs(missed: seq<Step>, fetching: seq<Step>, seen: State, r: nat, i: Item, reachable: bool,
                  result: Result<string, Error>)
    requires missed <= fetching && Exec(fetching) == Some(seen) && IsAnswer(seen, i, reachable, result) && result.Err?
    ensures LoadedAs(fetching + [Fetch(r, reachable)], |missed|, r, i, reachable, Load(|fetching|, |fetching|), result)
  {
    assert (fetching + [Fetch(r, reachable)])[..|fetching|] == fetching;
  }

  lemma StoredAs(missed: seq<Step>, fetching: seq<Step>, seen: State, storing: seq<Step>, r: nat, i: Item,
                 reachable: bool, result: Result<string, Error>)
    requires missed <= fetching && Exec(fetching) == Some(seen) && IsAnswer(seen, i, reachable, result)
    requires fetching + [Fetch(r, reachable)] <= storing
    ensures LoadedAs(storing + [Store(r)], |missed|, r, i, reachable, Load(|fetching|, |storing|), result)
  {
    var es := storing + [Store(r)];
    assert es[..|fetching|] == fetching;
    assert es[|fetching|] == Fetch(r, reachable);
  }

  function ItemsOfBatch(namespace: string, kvs: seq<(string, string)>): (items: seq<Item>)
    ensures |items| == |kvs|
    ensures forall n :: 0 <= n < |kvs| ==> items[n] == Item(namespace, kvs[n].0)
  {
    seq(|kvs|, n requires 0 <= n < |kvs| => Item(namespace, kvs[n].0))
  }

  /** The events evictions of a run, all from the given one on, evict the first n items one by one in order. */
  ghost predicate EvictedInOrder(es: seq<Step>, from: nat, items: seq<Item>, n: nat, evictions: seq<nat>)
    requires n <= |items|
  {
    && |evictions| == n
    && (forall m :: 0 <= m < n ==> from <= evictions[m] < |es| && es[evictions[m]] == Evict(items[m]))
    && (forall m :: 0 < m < n ==> evictions[m - 1] < evictions[m])
  }

  /** The items from n on, which are still to be evicted. */
  function Rest(items: seq<Item>, n: nat): multiset<Item>
    requires n <= |items|
  {
    multiset(items[n..])
  }

  lemma NothingEvicted(es: seq<Step>, items: seq<Item>)
    ensures EvictedInOrder(es, |es|, items, 0, []) && Rest(items, 0) == multiset(items)
  {
    assert items[0..] == items;
  }

  lemma EvictedNext(es: seq<Step>, fs: seq<Step>, from: nat, items: seq<Item>, n: nat, evictions: seq<nat>)
    requires n < |items| && EvictedInOrder(es, from, items, n, evictions)
    requires from <= |es| < |fs| && es <= fs && fs[|fs| - 1] == Evict(items[n])
    ensures EvictedInOrder(fs, from, items, n + 1, evictions + [|fs| - 1])
  {}

  lemma RestNext(items: seq<Item>, n: nat)
    requires n < |items|
    ensures Rest(items, n) == multiset{items[n]} + Rest(items, n + 1)
  {
    assert items[n..] == [items[n]] + items[n + 1..];
  }

  predicate Moves(e: Step) { e.Begin? || e.Check? || e.Fetch? || e.Store? }

  /** The read is where it was; at most an eviction has crossed the value it holds. */
  predicate SamePlace(p: Read, q: Read) {
    p == q || (p.point.Storing? && q == p.(point := Storing(p.point.entry.(crossed := true))))
  }

  /** The read of the item has returned the result. */
  predicate HasReturned(read: Read, i: Item, result: Result<string, Error>) {
    read.item == i && read.point.Done?
    && read.point.result == if result.Ok? then Some(result.value) else None
  }

  lemma OthersLeave(s: State, e: Step, mine: set<nat>, held: multiset<Item>)
    requires Enabled(s, e) && !(Moves(e) && e.r in mine) && held <= s.batch
    requires e.Evict? ==> s.batch[e.item] > held[e.item]
    ensures held <= Apply(s, e).batch
    ensures ReadsKept(s, Apply(s, e), mine)
  {
    BatchHeld(s, e, held);
    hide Apply, Enabled, SamePlace;
    forall r | r in mine
      ensures r in s.readers ==> r in Apply(s, e).readers && SamePlace(s.readers[r], Apply(s, e).readers[r])
      ensures r !in s.readers ==> r !in Apply(s, e).readers
    {
      PlaceKept(s, e, r);
    }
  }

  lemma BatchHeld(s: State, e: Step, held: multiset<Item>)
    requires Enabled(s, e) && held <= s.batch && (e.Evict? ==> s.batch[e.item] > held[e.item])
    ensures held <= Apply(s, e).batch
  {}

  lemma PlaceKept(s: State, e: Step, r: nat)
    requires Enabled(s, e) && !(Moves(e) && e.r == r)
    ensures r in s.readers ==> r in Apply(s, e).readers && SamePlace(s.readers[r], Apply(s, e).readers[r])
    ensures r !in s.readers ==> r !in Apply(s, e).readers
  {
    if r in s.readers {
      OtherReads(s, e, r);
      hide Apply;
    }
  }

  /** The reads of mine are where they were, and none has begun. */
  ghost predicate ReadsKept(s: State, t: State, mine: set<nat>) {
    forall r :: r in mine ==>
      && (r in s.readers ==> r in t.readers && SamePlace(s.readers[r], t.readers[r]))
      && (r !in s.readers ==> r !in t.readers)
  }

  lemma BeginRead(s: State, r: nat, i: Item)
    requires r !in s.readers
    ensures Enabled(s, Begin(r, i)) && Apply(s, Begin(r, i)).cache == s.cache
    ensures r in Apply(s, Begin(r, i)).readers && Apply(s, Begin(r, i)).readers[r] == Read(i, Checking)
  {}

  lemma CheckRead(s: State, r: nat)
    requires r in s.readers && s.readers[r].point.Checking?
    ensures Enabled(s, Check(r)) && Apply(s, Check(r)).cache == s.cache
    ensures var i := s.readers[r].item;
            var t := Apply(s, Check(r));
            r in t.readers &&
            if KeyOf(i) in s.cache then HasReturned(t.readers[r], i, Ok(s.cache[KeyOf(i)].value))
            else t.readers[r] == Read(i, Fetching)
  {}

  lemma FetchRead(s: State, r: nat, reachable: bool)
    requires r in s.readers && s.readers[r].point.Fetching?
    ensures Enabled(s, Fetch(r, reachable)) && Apply(s, Fetch(r, reachable)).cache == s.cache
    ensures var i := s.readers[r].item;
            var t := Apply(s, Fetch(r, reachable));
            r in t.readers &&
            if reachable && ServerValue(s, i).Some?
            then t.readers[r] == Read(i, Storing(Entry(i, ServerValue(s, i).value, false)))
            else t.readers[r] == Read(i, Done(None, None))
  {}

  lemma StoreRead(s: State, r: nat)
    requires r in s.readers && s.readers[r].point.Storing?
    requires s.readers[r].point.entry.item == s.readers[r].item
    ensures Enabled(s, Store(r))
    ensures var i, entry := s.readers[r].item, s.readers[r].point.entry;
            var t := Apply(s, Store(r));
            && Values(t.cache) == Values(s.cache)[KeyOf(i) := entry.value]
            && r in t.readers && HasReturned(t.readers[r], i, Ok(entry.value))
  {}
}
