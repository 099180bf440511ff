/**
 The read-through cache of config.go and its eviction in watchers.go.  A read is
 three steps (check, fetch, store) without a common lock; the server changes its
 namespaces at any time; the watcher of a namespace reloads it after a
 notification and evicts, key by key, every key of the reload.
 */
module Cache {
  import opened Common

  // ---- cache keys ---------------------------------------------------------------

  /** fmt.Sprintf("%s:%s", namespace, key) */
  function CacheKey(namespace: string, key: string): string { namespace + ":" + key }

  /** No namespace continues another one after a colon. */
  ghost predicate Separable(m: string, n: string) {
    m == n || (!(m + ":" <= n) && !(n + ":" <= m))
  }

  lemma SplitPrefix(m: string, j: string, n: string, k: string)
    requires CacheKey(m, j) == CacheKey(n, k) && |m| <= |n|
    ensures (m == n && j == k) || m + ":" <= n
  {
    var s := CacheKey(m, j);
    assert s[..|m|] == m && s[|m|] == ':' && s[|m| + 1..] == j;
    assert s == CacheKey(n, k);
    assert s[..|n|] == n && s[|n|] == ':' && s[|n| + 1..] == k;
    if |m| < |n| {
      assert (m + ":") == s[..|m| + 1] == n[..|m| + 1];
    }
  }

  /** The encoding, exactly: two namespaces have keys that collide if and only if one continues the other. */
  lemma CollisionsExactly(m: string, n: string)
    requires m != n
    ensures (exists j, k :: CacheKey(m, j) == CacheKey(n, k)) <==> !Separable(m, n)
  {
    if j, k :| CacheKey(m, j) == CacheKey(n, k) {
      if |m| <= |n| { SplitPrefix(m, j, n, k); } else { SplitPrefix(n, k, m, j); }
    }
    if m + ":" <= n {
      var rest := n[|m| + 1..];
      assert CacheKey(m, rest + ":") == CacheKey(n, "");
    }
    if n + ":" <= m {
      var rest := m[|n| + 1..];
      assert CacheKey(m, "") == CacheKey(n, rest + ":");
    }
  }

  /** Within one namespace, and between separable ones, the encoding is injective. */
  lemma Injective(m: string, j: string, n: string, k: string)
    requires Separable(m, n) && CacheKey(m, j) == CacheKey(n, k)
    ensures m == n && j == k
  {
    if |m| <= |n| { SplitPrefix(m, j, n, k); } else { SplitPrefix(n, k, m, j); }
  }

  /** Namespaces without a colon are separable. */
  lemma NoColonSeparable(m: string, n: string)
    requires ':' !in m && ':' !in n
    ensures Separable(m, n)
  {
    assert (m + ":")[|m|] == ':' && (n + ":")[|n|] == ':';
  }

  // ---- the system ---------------------------------------------------------------

  datatype Item = Item(namespace: string, key: string)

  /** A value on its way into the cache or in it; crossed: its item was evicted between its fetch and its store. */
  datatype Entry = Entry(item: Item, value: string, crossed: bool)

  datatype Point =
    | Checking
    | Fetching
    | Storing(entry: Entry)
    | Done(result: Option<string>, source: Option<Item>)

  datatype Read = Read(item: Item, point: Point)

  datatype State = State(
    server: map<string, map<string, string>>,
    cache: map<string, Entry>,
    readers: map<nat, Read>,
    notices: multiset<string>,     // changes whose notification has not been processed yet
    batch: multiset<Item>,         // reloaded items still to be dispatched
    lost: set<string>,             // namespaces with a failed reload since the last good one
    served: set<(Item, string)>)   // every value the server has answered with

  datatype Step =
    | Publish(namespace: string, config: map<string, string>)
    | Reload(namespace: string, processed: nat)
    | ReloadFails(namespace: string, processed: nat)
    | Evict(item: Item)
    | Clear
    | Begin(r: nat, item: Item)
    | Check(r: nat)
    | Fetch(r: nat, reachable: bool)
    | Store(r: nat)

  /** What a direct read of the server gives; an unknown namespace is an empty one. */
  function ServerValue(s: State, i: Item): Option<string> {
    if i.namespace in s.server && i.key in s.server[i.namespace] then Some(s.server[i.namespace][i.key]) else None
  }

  function KeyOf(i: Item): string { CacheKey(i.namespace, i.key) }

  predicate Enabled(s: State, e: Step) {
    match e
    case Publish(_, _) => true
    case Reload(ns, processed) => processed <= s.notices[ns]
    case ReloadFails(ns, processed) => 0 < processed <= s.notices[ns]
    case Evict(i) => i in s.batch
    case Clear => true
    case Begin(r, _) => r !in s.readers
    case Check(r) => r in s.readers && s.readers[r].point.Checking?
    case Fetch(r, _) => r in s.readers && s.readers[r].point.Fetching?
    case Store(r) => r in s.readers && s.readers[r].point.Storing?
  }

  function Goto(s: State, r: nat, p: Point): State
    requires r in s.readers
  {
    s.(readers := s.readers[r := s.readers[r].(point := p)])
  }

  /** An eviction crosses every read of the item that has fetched and not stored. */
  function Cross(read: Read, i: Item): Read {
    if read.point.Storing? && read.item == i
    then read.(point := Storing(read.point.entry.(crossed := true))) else read
  }

  function ItemsOf(namespace: string, config: map<string, string>): set<Item> {
    set key | key in config :: Item(namespace, key)
  }

  function ConfigOf(s: State, namespace: string): map<string, string> {
    if namespace in s.server then s.server[namespace] else map[]
  }

  function Apply(s: State, e: Step): State
    requires Enabled(s, e)
  {
    match e
    case Publish(ns, config) => s.(server := s.server[ns := config], notices := s.notices[ns := s.notices[ns] + 1])
    case Reload(ns, processed) =>
      s.(notices := s.notices[ns := s.notices[ns] - processed],
         batch := s.batch + multiset(ItemsOf(ns, ConfigOf(s, ns))),
         lost := s.lost - {ns})
    case ReloadFails(ns, processed) =>
      s.(notices := s.notices[ns := s.notices[ns] - processed], lost := s.lost + {ns})
    case Evict(i) =>
      s.(batch := s.batch - multiset{i},
         cache := s.cache - {KeyOf(i)},
         readers := map r | r in s.readers :: Cross(s.readers[r], i))
    case Clear => s.(cache := map[])
    case Begin(r, i) => s.(readers := s.readers[r := Read(i, Checking)])
    case Check(r) =>
      var k := KeyOf(s.readers[r].item);
      Goto(s, r, if k in s.cache then Done(Some(s.cache[k].value), Some(s.cache[k].item)) else Fetching)
    case Fetch(r, reachable) =>
      var i := s.readers[r].item;
      if reachable && ServerValue(s, i).Some? then
        Goto(s, r, Storing(Entry(i, ServerValue(s, i).value, false))).(
          served := s.served + {(i, ServerValue(s, i).value)})
      else Goto(s, r, Done(None, None))
    case Store(r) =>
      var entry := s.readers[r].point.entry;
      Goto(s, r, Done(Some(entry.value), Some(entry.item))).(cache := s.cache[KeyOf(entry.item) := entry])
  }

  function Exec(es: seq<Step>): Option<State> {
    if es == [] then Some(State(map[], map[], map[], multiset{}, multiset{}, {}, {}))
    else
      var before := Exec(es[..|es| - 1]);
      if before.Some? && Enabled(before.value, es[|es| - 1])
      then Some(Apply(before.value, es[|es| - 1])) else None
  }

  // ---- the invariant --------------------------------------------------------------

  /** A change of the item's namespace is still on its way to the cache, or was lost. */
  predicate Awaiting(s: State, i: Item) {
    s.notices[i.namespace] > 0 || i in s.batch || i.namespace in s.lost
  }

  /** An uncrossed value is the server's, or awaits dispatch, or its key is gone from the server. */
  predicate Current(s: State, e: Entry) {
    !e.crossed ==> ServerValue(s, e.item) in {None, Some(e.value)} || Awaiting(s, e.item)
  }

  ghost predicate CacheInv(s: State) {
    forall k :: k in s.cache ==>
      k == KeyOf(s.cache[k].item) && (s.cache[k].item, s.cache[k].value) in s.served && Current(s, s.cache[k])
  }

  ghost predicate ReadInv(s: State, read: Read) {
    match read.point
    case Storing(entry) =>
      entry.item == read.item && (entry.item, entry.value) in s.served && Current(s, entry)
    case Done(result, source) =>
      result.Some? ==> source.Some? && KeyOf(source.value) == KeyOf(read.item)
                       && (source.value, result.value) in s.served
    case _ => true
  }

  ghost predicate ReadsInv(s: State) {
    forall r :: r in s.readers ==> ReadInv(s, s.readers[r])
  }

  lemma CurrentStep(s: State, e: Step, entry: Entry)
    requires Enabled(s, e) && Current(s, entry)
    requires e.Evict? ==> e.item != entry.item
    ensures Current(Apply(s, e), entry)
  {
    if e.Reload? && e.namespace == entry.item.namespace && ServerValue(s, entry.item).Some? {
      assert entry.item == Item(e.namespace, entry.item.key);
      assert entry.item in ItemsOf(e.namespace, ConfigOf(s, e.namespace));
    }
  }

  lemma CacheStep(s: State, e: Step)
    requires CacheInv(s) && ReadsInv(s) && Enabled(s, e)
    ensures CacheInv(Apply(s, e))
  {
    var t := Apply(s, e);
    forall k | k in t.cache
      ensures k == KeyOf(t.cache[k].item) && (t.cache[k].item, t.cache[k].value) in t.served && Current(t, t.cache[k])
    {
      if e.Store? && k == KeyOf(s.readers[e.r].point.entry.item) {
        assert ReadInv(s, s.readers[e.r]);
        CurrentStep(s, e, s.readers[e.r].point.entry);
      } else {
        CurrentStep(s, e, s.cache[k]);
      }
    }
  }

  lemma ServedGrows(s: State, e: Step)
    requires Enabled(s, e)
    ensures s.served <= Apply(s, e).served
  {}

  /** A read that the step does not move stays as it was, or is crossed by an eviction of its item. */
  lemma OtherReads(s: State, e: Step, r: nat)
    requires Enabled(s, e) && r in s.readers
    requires (e.Begin? || e.Check? || e.Fetch? || e.Store?) ==> e.r != r
    ensures r in Apply(s, e).readers
    ensures Apply(s, e).readers[r] == if e.Evict? then Cross(s.readers[r], e.item) else s.readers[r]
  {}

  lemma ReadKept(s: State, e: Step, read: Read)
    requires Enabled(s, e) && ReadInv(s, read)
    ensures ReadInv(Apply(s, e), if e.Evict? then Cross(read, e.item) else read)
  {
    ServedGrows(s, e);
    if read.point.Storing? && !(e.Evict? && e.item == read.item) {
      CurrentStep(s, e, read.point.entry);
    }
    hide Apply, Enabled, Awaiting;
  }

  lemma ReadMoved(s: State, e: Step)
    requires CacheInv(s) && ReadsInv(s) && Enabled(s, e) && (e.Check? || e.Fetch? || e.Store?)
    ensures ReadInv(Apply(s, e), Apply(s, e).readers[e.r])
  {
    assert ReadInv(s, s.readers[e.r]);
  }

  lemma ReadsStep(s: State, e: Step)
    requires CacheInv(s) && ReadsInv(s) && Enabled(s, e)
    ensures ReadsInv(Apply(s, e))
  {
    forall r | r in Apply(s, e).readers ensures ReadInv(Apply(s, e), Apply(s, e).readers[r]) {
      if (e.Check? || e.Fetch? || e.Store?) && e.r == r {
        ReadMoved(s, e);
      } else if e.Begin? && e.r == r {
        assert Apply(s, e).readers[r] == Read(e.item, Checking);
      } else {
        ReaderKnown(s, e, r);
        hide Apply, ReadInv;
        ReadKept(s, e, s.readers[r]);
        OtherReads(s, e, r);
      }
    }
  }

  lemma ReaderKnown(s: State, e: Step, r: nat)
    requires Enabled(s, e) && r in Apply(s, e).readers && !(e.Begin? && e.r == r)
    ensures r in s.readers
  {}

  lemma {:induction false} RunInv(es: seq<Step>)
    requires Exec(es).Some?
    ensures CacheInv(Exec(es).value) && ReadsInv(Exec(es).value)
  {
    if es != [] {
      RunInv(es[..|es| - 1]);
      hide Apply, Enabled, CacheInv, ReadsInv;
      CacheStep(Exec(es[..|es| - 1]).value, es[|es| - 1]);
      ReadsStep(Exec(es[..|es| - 1]).value, es[|es| - 1]);
    }
  }

  // ---- agreement with the server ------------------------------------------------------

  /** Everything the server changed has been dispatched, and no reload failed since. */
  predicate Quiet(s: State) {
    s.notices == multiset{} && s.batch == multiset{} && s.lost == {}
  }

  /**
   Cache refinement: in every run, a cached value that no eviction crossed is the
   server's current value unless a change of its namespace is still on its way,
   or a reload of it failed, or the key is gone from the server.
   */
  lemma CachedIsCurrent(es: seq<Step>, k: string)
    requires Exec(es).Some? && k in Exec(es).value.cache && !Exec(es).value.cache[k].crossed
    ensures var s := Exec(es).value;
            var e := s.cache[k];
            ServerValue(s, e.item) == Some(e.value) || Awaiting(s, e.item) || ServerValue(s, e.item) == None
  {
    RunInv(es);
  }

  /** No eviction runs while a read of the same item lies between its fetch and its store. */
  ghost predicate NoStraddle(es: seq<Step>) {
    forall k :: 0 <= k < |es| && es[k].Evict? && Exec(es[..k]).Some? ==>
      NobodyStoring(Exec(es[..k]).value, es[k].item)
  }

  predicate NobodyStoring(s: State, i: Item) {
    forall r :: r in s.readers && s.readers[r].item == i ==> !s.readers[r].point.Storing?
  }

  ghost predicate Uncrossed(s: State) {
    && (forall k :: k in s.cache ==> !s.cache[k].crossed)
    && (forall r :: r in s.readers && s.readers[r].point.Storing? ==> !s.readers[r].point.entry.crossed)
  }

  lemma UncrossedStep(s: State, e: Step)
    requires Uncrossed(s) && Enabled(s, e) && (e.Evict? ==> NobodyStoring(s, e.item))
    ensures Uncrossed(Apply(s, e))
  {}

  /** In a run in which no read straddles an eviction of its item, nothing is ever crossed. */
  lemma {:induction false} NoStraddleNoCross(es: seq<Step>)
    requires Exec(es).Some? && NoStraddle(es)
    ensures Uncrossed(Exec(es).value)
  {
    if es != [] {
      var n := |es| - 1;
      forall k | 0 <= k < n && es[..n][k].Evict? && Exec(es[..n][..k]).Some?
        ensures NobodyStoring(Exec(es[..n][..k]).value, es[..n][k].item)
      {
        assert es[..n][..k] == es[..k];
      }
      NoStraddleNoCross(es[..n]);
      hide Apply, Enabled, Uncrossed;
      UncrossedStep(Exec(es[..n]).value, es[n]);
    }
  }

  /**
   The whole promise: without straddling reads, a cached value is the server's once
   no change of its namespace is on its way, if the server still has its key.
   */
  lemma CacheRefinesServer(es: seq<Step>, s: State, k: string)
    requires Exec(es) == Some(s) && NoStraddle(es) && k in s.cache && !Awaiting(s, s.cache[k].item)
    ensures ServerValue(s, s.cache[k].item).Some? ==> ServerValue(s, s.cache[k].item) == Some(s.cache[k].value)
  {
    NoStraddleNoCross(es);
    CachedIsCurrent(es, k);
  }

  // ---- provenance -----------------------------------------------------------------------

  /** The namespaces that the reads of a run ask for are pairwise separable. */
  ghost predicate SeparableReads(es: seq<Step>) {
    forall j, k :: 0 <= j < |es| && 0 <= k < |es| && es[j].Begin? && es[k].Begin? ==>
      Separable(es[j].item.namespace, es[k].item.namespace)
  }

  /** The items that the calls of a run ask for. */
  function Asked(es: seq<Step>): set<Item> {
    if es == [] then {} else Asked(es[..|es| - 1]) + AskedBy(es[|es| - 1])
  }

  function AskedBy(e: Step): set<Item> {
    if e.Begin? then {e.item} else {}
  }

  /** The read, and the value it returned, were asked for by some call. */
  predicate AskedRead(asked: set<Item>, read: Read) {
    && read.item in asked
    && (read.point.Storing? ==> read.point.entry.item == read.item)
    && (read.point.Done? && read.point.source.Some? ==> read.point.source.value in asked)
  }

  ghost predicate AskedInv(asked: set<Item>, s: State) {
    && (forall r :: r in s.readers ==> AskedRead(asked, s.readers[r]))
    && (forall k :: k in s.cache ==> s.cache[k].item in asked)
  }

  lemma AskedStep(asked: set<Item>, s: State, e: Step)
    requires AskedInv(asked, s) && Enabled(s, e)
    ensures AskedInv(asked + AskedBy(e), Apply(s, e))
  {
    var t := Apply(s, e);
    forall r | r in t.readers ensures AskedRead(asked + AskedBy(e), t.readers[r]) {
      AskedReadStep(asked, s, e, r);
    }
    if e.Store? {
      assert AskedRead(asked, s.readers[e.r]);
    }
    hide AskedRead;
  }

  lemma AskedReadStep(asked: set<Item>, s: State, e: Step, r: nat)
    requires AskedInv(asked, s) && Enabled(s, e) && r in Apply(s, e).readers
    ensures AskedRead(asked + AskedBy(e), Apply(s, e).readers[r])
  {
    if !(e.Begin? && e.r == r) {
      hide Apply;
      ReaderKnown(s, e, r);
      assert AskedRead(asked, s.readers[r]);
      if (e.Check? || e.Fetch? || e.Store?) && e.r == r {
        AskedMoved(asked, s, e);
      } else {
        OtherReads(s, e, r);
      }
    }
  }

  lemma AskedMoved(asked: set<Item>, s: State, e: Step)
    requires AskedInv(asked, s) && Enabled(s, e) && (e.Check? || e.Fetch? || e.Store?)
    ensures AskedRead(asked, Apply(s, e).readers[e.r])
  {
    assert AskedRead(asked, s.readers[e.r]);
  }

  lemma {:induction false} RunAsked(es: seq<Step>)
    requires Exec(es).Some?
    ensures AskedInv(Asked(es), Exec(es).value)
  {
    if es != [] {
      var n := |es| - 1;
      RunAsked(es[..n]);
      hide Apply, Enabled, AskedInv;
      AskedStep(Asked(es[..n]), Exec(es[..n]).value, es[n]);
    }
  }

  /**
   Provenance: if the namespaces asked for are separable (for one, if they contain
   no colon), every value a read returns was once served for exactly the
   namespace and key it asked for, and so was every cached value.
   */
  lemma Provenance(es: seq<Step>)
    requires Exec(es).Some? && SeparableReads(es)
    ensures var s := Exec(es).value;
            && (forall r :: r in s.readers && s.readers[r].point.Done? && s.readers[r].point.result.Some? ==>
                  (s.readers[r].item, s.readers[r].point.result.value) in s.served)
            && (forall k :: k in s.cache ==>
                  k == KeyOf(s.cache[k].item) && (s.cache[k].item, s.cache[k].value) in s.served)
  {
    RunInv(es);
    RunAsked(es);
    var s := Exec(es).value;
    forall r | r in s.readers && s.readers[r].point.Done? && s.readers[r].point.result.Some?
      ensures (s.readers[r].item, s.readers[r].point.result.value) in s.served
    {
      assert ReadInv(s, s.readers[r]);
      var i, j := s.readers[r].item, s.readers[r].point.source.value;
      assert AskedRead(Asked(es), s.readers[r]);
      AskedSeparable(es, i, j);
      Injective(i.namespace, i.key, j.namespace, j.key);
    }
  }

  lemma AskedSeparable(es: seq<Step>, i: Item, j: Item)
    requires SeparableReads(es) && i in Asked(es) && j in Asked(es)
    ensures Separable(i.namespace, j.namespace)
  {
    var m := AskedAt(es, i);
    var n := AskedAt(es, j);
  }

  lemma {:induction false} AskedAt(es: seq<Step>, i: Item) returns (k: nat)
    requires i in Asked(es)
    ensures k < |es| && es[k].Begin? && es[k].item == i
  {
    k := |es| - 1;
    if i !in AskedBy(es[k]) {
      k := AskedAt(es[..k], i);
    }
  }

  /** Dispatching one item leaves every other item of separable namespaces in the cache. */
  lemma EvictionIsLocal(s: State, i: Item, j: Item)
    requires Enabled(s, Evict(i)) && j != i && Separable(i.namespace, j.namespace)
    ensures KeyOf(j) in s.cache <==> KeyOf(j) in Apply(s, Evict(i)).cache
    ensures KeyOf(j) in s.cache ==> Apply(s, Evict(i)).cache[KeyOf(j)] == s.cache[KeyOf(j)]
    ensures KeyOf(i) !in Apply(s, Evict(i)).cache
  {
    if KeyOf(j) == KeyOf(i) {
      Injective(i.namespace, i.key, j.namespace, j.key);
    }
  }

  // ---- three runs that show the limits -----------------------------------------------------

  lemma Extend(es: seq<Step>, s: State, e: Step, t: State) returns (fs: seq<Step>)
    requires Exec(es) == Some(s) && Enabled(s, e) && Apply(s, e) == t
    ensures fs == es + [e] && Exec(fs) == Some(t)
  {
    fs := es + [e];
    assert fs[..|es|] == es;
  }

  lemma NoSteps()
    ensures Exec([]) == Some(State(map[], map[], map[], multiset{}, multiset{}, {}, {}))
  {}

  /** A quiet state in which the server has published a configuration. */
  function Serving(namespace: string, config: map<string, string>): State {
    State(map[namespace := config], map[], map[], multiset{namespace}, multiset{}, {}, {})
  }

  lemma PublishFirst(namespace: string, config: map<string, string>) returns (es: seq<Step>)
    ensures Exec(es) == Some(Serving(namespace, config))
  {
    NoSteps();
    hide Exec;
    var s := State(map[], map[], map[], multiset{}, multiset{}, {}, {});
    assert s.notices[namespace := 1] == multiset{namespace};
    es := Extend([], s, Publish(namespace, config), Serving(namespace, config));
  }

  /** A read of an item the server has, up to its fetch, and up to its store. */
  lemma ReadUpToFetch(es: seq<Step>, s: State, r: nat, i: Item, v: string) returns (fs: seq<Step>)
    requires Exec(es) == Some(s) && r !in s.readers && KeyOf(i) !in s.cache && ServerValue(s, i) == Some(v)
    ensures Exec(fs) == Some(s.(readers := s.readers[r := Read(i, Storing(Entry(i, v, false)))],
                                served := s.served + {(i, v)}))
  {
    hide Exec;
    var s1 := s.(readers := s.readers[r := Read(i, Checking)]);
    var s2 := s.(readers := s.readers[r := Read(i, Fetching)]);
    assert s1.readers[r := Read(i, Fetching)] == s2.readers;
    fs := Extend(es, s, Begin(r, i), s1);
    fs := Extend(fs, s1, Check(r), s2);
    var s3 := s.(readers := s.readers[r := Read(i, Storing(Entry(i, v, false)))], served := s.served + {(i, v)});
    assert s2.readers[r := Read(i, Storing(Entry(i, v, false)))] == s3.readers;
    fs := Extend(fs, s2, Fetch(r, true), s3);
  }

  lemma StoreNow(es: seq<Step>, s: State, r: nat, i: Item, entry: Entry) returns (fs: seq<Step>)
    requires Exec(es) == Some(s) && r in s.readers && s.readers[r] == Read(i, Storing(entry)) && entry.item == i
    ensures Exec(fs) == Some(s.(readers := s.readers[r := Read(i, Done(Some(entry.value), Some(i)))],
                                cache := s.cache[KeyOf(i) := entry]))
  {
    fs := Extend(es, s, Store(r), Apply(s, Store(r)));
  }

  /**
   A read that straddles an eviction stores a stale value, and nothing that is
   still to be dispatched will remove it.
   */
  lemma StraddlingReadStoresStale(i: Item) returns (es: seq<Step>)
    ensures Exec(es).Some? && Quiet(Exec(es).value) && KeyOf(i) in Exec(es).value.cache
    ensures Exec(es).value.cache[KeyOf(i)] == Entry(i, "old", true)
    ensures ServerValue(Exec(es).value, i) == Some("new")
  {
    hide Exec;
    es := PublishFirst(i.namespace, map[i.key := "old"]);
    var s := Serving(i.namespace, map[i.key := "old"]);
    es := ReadUpToFetch(es, s, 0, i, "old");
    s := s.(readers := s.readers[0 := Read(i, Storing(Entry(i, "old", false)))], served := s.served + {(i, "old")});
    var t: State;
    es, t := ReplaceAndDispatch(es, s, i, "new");
    es := StoreNow(es, t, 0, i, Entry(i, "old", true));
  }

  /** The server replaces the only key of a namespace, and the change is reloaded. */
  lemma ReplaceAndReload(es: seq<Step>, s: State, i: Item, v: string) returns (fs: seq<Step>, t: State)
    requires Exec(es) == Some(s) && s.notices == multiset{i.namespace} && s.batch == multiset{} && s.lost == {}
    ensures Exec(fs) == Some(t)
    ensures t == s.(server := s.server[i.namespace := map[i.key := v]], notices := multiset{}, batch := multiset{i})
  {
    hide Exec;
    var config := map[i.key := v];
    var s1 := s.(server := s.server[i.namespace := config], notices := s.notices[i.namespace := 2]);
    fs := Extend(es, s, Publish(i.namespace, config), s1);
    t := s1.(notices := multiset{}, batch := multiset{i});
    assert s1.notices[i.namespace := 0] == multiset{};
    assert ItemsOf(i.namespace, config) == {i};
    assert s1.batch + multiset({i}) == multiset{i};
    assert s1.lost - {i.namespace} == {};
    fs := Extend(fs, s1, Reload(i.namespace, 2), t);
  }

  /** The reload is dispatched too. */
  lemma ReplaceAndDispatch(es: seq<Step>, s: State, i: Item, v: string) returns (fs: seq<Step>, t: State)
    requires Exec(es) == Some(s) && s.notices == multiset{i.namespace} && s.batch == multiset{} && s.lost == {}
    requires 0 in s.readers && s.readers[0].item == i && s.readers[0].point.Storing?
    ensures Exec(fs) == Some(t) && Quiet(t) && ServerValue(t, i) == Some(v)
    ensures 0 in t.readers && t.readers[0] == Cross(s.readers[0], i)
  {
    hide Exec;
    var u: State;
    fs, u := ReplaceAndReload(es, s, i, v);
    t := Apply(u, Evict(i));
    assert multiset{i} - multiset{i} == multiset{};
    fs := Extend(fs, u, Evict(i), t);
  }

  /** A key that is deleted on the server is never evicted: the cached value outlives it. */
  lemma DeletedKeyStaysCached(i: Item) returns (es: seq<Step>)
    ensures Exec(es).Some? && Quiet(Exec(es).value) && KeyOf(i) in Exec(es).value.cache
    ensures Exec(es).value.cache[KeyOf(i)] == Entry(i, "old", false)
    ensures ServerValue(Exec(es).value, i) == None
  {
    hide Exec;
    es := PublishFirst(i.namespace, map[i.key := "old"]);
    var s := Serving(i.namespace, map[i.key := "old"]);
    es := ReadUpToFetch(es, s, 0, i, "old");
    s := s.(readers := s.readers[0 := Read(i, Storing(Entry(i, "old", false)))], served := s.served + {(i, "old")});
    es := StoreNow(es, s, 0, i, Entry(i, "old", false));
    s := s.(readers := s.readers[0 := Read(i, Done(Some("old"), Some(i)))],
            cache := map[KeyOf(i) := Entry(i, "old", false)]);
    var s1 := s.(server := map[i.namespace := map[]], notices := s.notices[i.namespace := 2]);
    es := Extend(es, s, Publish(i.namespace, map[]), s1);
    var s2 := s1.(notices := multiset{});
    assert s1.notices[i.namespace := 0] == multiset{};
    assert ItemsOf(i.namespace, map[]) == {};
    es := Extend(es, s1, Reload(i.namespace, 2), s2);
  }

  /** With a colon in a namespace a read can return the value of another namespace. */
  lemma ColonMixesNamespaces(v: string) returns (es: seq<Step>)
    ensures Exec(es).Some?
    ensures var s := Exec(es).value;
            && 1 in s.readers && s.readers[1].item == Item("a:b", "c") && s.readers[1].point.Done?
            && s.readers[1].point.result == Some(v) && ServerValue(s, Item("a:b", "c")) == None
            && (Item("a:b", "c"), v) !in s.served
  {
    hide Exec;
    var i, j := Item("a", "b:c"), Item("a:b", "c");
    assert KeyOf(i) == "a:b:c" == KeyOf(j);
    es := PublishFirst("a", map["b:c" := v]);
    var s := Serving("a", map["b:c" := v]);
    es := ReadUpToFetch(es, s, 0, i, v);
    s := s.(readers := s.readers[0 := Read(i, Storing(Entry(i, v, false)))], served := s.served + {(i, v)});
    es := StoreNow(es, s, 0, i, Entry(i, v, false));
    s := s.(readers := s.readers[0 := Read(i, Done(Some(v), Some(i)))],
            cache := s.cache[KeyOf(i) := Entry(i, v, false)]);
    var s1 := s.(readers := s.readers[1 := Read(j, Checking)]);
    es := Extend(es, s, Begin(1, j), s1);
    es := Extend(es, s1, Check(1), Apply(s1, Check(1)));
    assert i != j && "a" != "a:b";
  }
}
