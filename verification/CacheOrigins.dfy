/**
 Where a cached value comes from, over whole runs of the cache: the event that fetched
 it, the event that stored it, and what has become of it on the server since.
 */
module CacheOrigins {
  import opened Common
  import opened Cache

  /** Between events f and t the item is evicted. */
  ghost predicate EvictedBetween(es: seq<Step>, f: nat, t: nat, i: Item)
    requires t <= |es|
  {
    exists j :: f < j < t && es[j] == Evict(i)
  }

  /** Event f fetched the entry from the server, and up to event t its item was evicted if and only if it is crossed. */
  ghost predicate Origin(es: seq<Step>, r: nat, f: nat, t: nat, entry: Entry) {
    && f < t <= |es| && es[f] == Fetch(r, true) && Exec(es[..f]).Some?
    && ServerValue(Exec(es[..f]).value, entry.item) == Some(entry.value)
    && (entry.crossed <==> EvictedBetween(es, f, t, entry.item))
  }

  ghost predicate OnItsWay(es: seq<Step>, r: nat, entry: Entry) {
    exists f: nat :: Origin(es, r, f, |es|, entry)
  }

  /** Event t stored the entry that event f fetched. */
  ghost predicate StoredAt(es: seq<Step>, f: nat, t: nat, entry: Entry) {
    t < |es| && es[t].Store? && Exec(es[..t]).Some? && Origin(es, es[t].r, f, t, entry)
  }

  /** What the server had of the item before event t. */
  function ValueBefore(es: seq<Step>, t: nat, i: Item): Option<string>
    requires t <= |es| && Exec(es[..t]).Some?
  {
    ServerValue(Exec(es[..t]).value, i)
  }

  /** The server still has what it had, or nothing, unless a change is on its way. */
  predicate Unchanged(s: State, i: Item, had: Option<string>) {
    ServerValue(s, i) in {None, had} || Awaiting(s, i)
  }

  ghost predicate StoredSince(es: seq<Step>, s: State, f: nat, t: nat, entry: Entry) {
    StoredAt(es, f, t, entry) && Unchanged(s, entry.item, ValueBefore(es, t, entry.item))
  }

  ghost predicate Stored(es: seq<Step>, s: State, entry: Entry) {
    exists f: nat, t: nat :: StoredSince(es, s, f, t, entry)
  }

  ghost predicate OriginInv(es: seq<Step>, s: State) {
    && (forall r :: r in s.readers && s.readers[r].point.Storing? ==> OnItsWay(es, r, s.readers[r].point.entry))
    && (forall k :: k in s.cache ==> Stored(es, s, s.cache[k]))
  }

  lemma OriginLater(es: seq<Step>, e: Step, r: nat, f: nat, t: nat, entry: Entry)
    requires Origin(es, r, f, t, entry)
    ensures Origin(es + [e], r, f, t, entry)
  {
    var fs := es + [e];
    assert fs[..f] == es[..f];
    assert forall j :: 0 <= j < t ==> fs[j] == es[j];
    assert EvictedBetween(fs, f, t, entry.item) <==> EvictedBetween(es, f, t, entry.item);
  }

  /** Whatever changes the server announces it, and only the item's eviction ends the waiting. */
  lemma UnchangedStep(s: State, e: Step, i: Item, had: Option<string>)
    requires Unchanged(s, i, had) && Enabled(s, e) && e != Evict(i)
    ensures Unchanged(Apply(s, e), i, had)
  {
    if e.Reload? && e.namespace == i.namespace && ServerValue(s, i).Some? {
      assert i == Item(e.namespace, i.key);
      assert i in ItemsOf(e.namespace, ConfigOf(s, e.namespace));
    }
  }

  lemma StoredLater(es: seq<Step>, s: State, e: Step, entry: Entry)
    requires Stored(es, s, entry) && Enabled(s, e) && e != Evict(entry.item)
    ensures Stored(es + [e], Apply(s, e), entry)
  {
    var f: nat, t: nat :| StoredSince(es, s, f, t, entry);
    UnchangedStep(s, e, entry.item, ValueBefore(es, t, entry.item));
    hide Apply, Enabled, Unchanged;
    OriginLater(es, e, es[t].r, f, t, entry);
    assert (es + [e])[..t] == es[..t];
    assert StoredSince(es + [e], Apply(s, e), f, t, entry);
  }

  /** One more step: an eviction of the item crosses the entry, any other leaves it. */
  lemma OnItsWayLater(es: seq<Step>, e: Step, r: nat, entry: Entry)
    requires OnItsWay(es, r, entry)
    ensures OnItsWay(es + [e], r, if e == Evict(entry.item) then entry.(crossed := true) else entry)
  {
    var f: nat :| Origin(es, r, f, |es|, entry);
    var fs := es + [e];
    var later := if e == Evict(entry.item) then entry.(crossed := true) else entry;
    EvictedSnoc(es, e, f, entry.item);
    hide EvictedBetween, ServerValue;
    assert fs[..f] == es[..f];
    assert Origin(fs, r, f, |fs|, later);
  }

  lemma EvictedSnoc(es: seq<Step>, e: Step, f: nat, i: Item)
    requires f < |es|
    ensures EvictedBetween(es + [e], f, |es| + 1, i) <==> EvictedBetween(es, f, |es|, i) || e == Evict(i)
  {
    var fs := es + [e];
    if EvictedBetween(es, f, |es|, i) {
      var j :| f < j < |es| && es[j] == Evict(i);
      assert fs[j] == Evict(i);
    }
    if e == Evict(i) {
      assert fs[|es|] == Evict(i);
    }
    if EvictedBetween(fs, f, |fs|, i) && e != Evict(i) {
      var j :| f < j < |fs| && fs[j] == Evict(i);
      assert es[j] == Evict(i);
    }
  }

  lemma StoreStores(es: seq<Step>, s: State, r: nat, entry: Entry)
    requires OnItsWay(es, r, entry) && Exec(es) == Some(s) && Enabled(s, Store(r))
    ensures Stored(es + [Store(r)], Apply(s, Store(r)), entry)
  {
    var f: nat :| Origin(es, r, f, |es|, entry);
    OriginLater(es, Store(r), r, f, |es|, entry);
    assert (es + [Store(r)])[..|es|] == es;
    UnchangedStep(s, Store(r), entry.item, ServerValue(s, entry.item));
    hide Apply, Enabled, Unchanged;
    assert StoredSince(es + [Store(r)], Apply(s, Store(r)), f, |es|, entry);
  }

  lemma FetchFetches(es: seq<Step>, s: State, r: nat, entry: Entry)
    requires Exec(es) == Some(s) && !entry.crossed && ServerValue(s, entry.item) == Some(entry.value)
    ensures OnItsWay(es + [Fetch(r, true)], r, entry)
  {
    var fs := es + [Fetch(r, true)];
    assert fs[..|es|] == es;
    assert Origin(fs, r, |es|, |fs|, entry);
  }

  lemma ReadOriginStep(es: seq<Step>, s: State, e: Step, r: nat)
    requires Exec(es) == Some(s) && ReadsInv(s) && OriginInv(es, s) && Enabled(s, e)
    requires r in Apply(s, e).readers && Apply(s, e).readers[r].point.Storing?
    ensures OnItsWay(es + [e], r, Apply(s, e).readers[r].point.entry)
  {
    hide Exec, OnItsWay, Stored;
    if e.Fetch? && e.r == r {
      Fetched(s, e);
      FetchFetches(es, s, r, Apply(s, e).readers[r].point.entry);
    } else {
      OnlyFetchHolds(s, e, r);
      ReaderKnown(s, e, r);
      OtherReads(s, e, r);
      hide Apply, Enabled;
      assert ReadInv(s, s.readers[r]);
      OnItsWayLater(es, e, r, s.readers[r].point.entry);
    }
  }

  lemma Fetched(s: State, e: Step)
    requires Enabled(s, e) && e.Fetch? && Apply(s, e).readers[e.r].point.Storing?
    ensures var entry := Apply(s, e).readers[e.r].point.entry;
            e.reachable && !entry.crossed && ServerValue(s, entry.item) == Some(entry.value)
  {}

  /** Only a fetch leaves its reader with a value to store. */
  lemma OnlyFetchHolds(s: State, e: Step, r: nat)
    requires Enabled(s, e) && r in Apply(s, e).readers && Apply(s, e).readers[r].point.Storing?
    ensures !((e.Begin? || e.Check? || e.Store?) && e.r == r)
  {}

  lemma CacheOriginStep(es: seq<Step>, s: State, e: Step, k: string)
    requires Exec(es) == Some(s) && CacheInv(s) && OriginInv(es, s) && Enabled(s, e)
    requires k in Apply(s, e).cache
    ensures Stored(es + [e], Apply(s, e), Apply(s, e).cache[k])
  {
    hide Exec, OnItsWay, Stored;
    if e.Store? && Apply(s, e).cache[k] == s.readers[e.r].point.entry {
      StoreStores(es, s, e.r, s.readers[e.r].point.entry);
    } else {
      StoredLater(es, s, e, s.cache[k]);
    }
  }

  lemma OriginStep(es: seq<Step>, s: State, e: Step)
    requires Exec(es) == Some(s) && ReadsInv(s) && CacheInv(s) && OriginInv(es, s) && Enabled(s, e)
    ensures OriginInv(es + [e], Apply(s, e))
  {
    var t := Apply(s, e);
    forall r | r in t.readers && t.readers[r].point.Storing?
      ensures OnItsWay(es + [e], r, t.readers[r].point.entry)
    {
      ReadOriginStep(es, s, e, r);
    }
    forall k | k in t.cache ensures Stored(es + [e], t, t.cache[k]) {
      CacheOriginStep(es, s, e, k);
    }
    hide Exec, OnItsWay, Stored, Apply, Enabled, ReadsInv, CacheInv;
  }

  lemma {:induction false} RunOrigin(es: seq<Step>, s: State)
    requires Exec(es) == Some(s)
    ensures OriginInv(es, s)
  {
    hide OriginInv, ReadsInv, CacheInv, Apply, Enabled;
    if es == [] {
      NothingFetched();
    } else {
      var n := |es| - 1;
      var before := Exec(es[..n]).value;
      RunOrigin(es[..n], before);
      RunInv(es[..n]);
      OriginStep(es[..n], before, es[n]);
      assert es[..n] + [es[n]] == es;
    }
  }

  lemma NothingFetched()
    ensures OriginInv([], State(map[], map[], map[], multiset{}, multiset{}, {}, {}))
  {}

  /**
   Every cached value was fetched at some event f and stored at some event t.  Once no
   change of its namespace is on its way, it is the server's if and only if the server
   still has the key and had this very value when it was stored: a cached value is
   stale at rest exactly if it was stale when it was stored, or its key is gone.
   */
  lemma CachedReadsAgree(es: seq<Step>, s: State, k: string) returns (f: nat, t: nat)
    requires Exec(es) == Some(s) && k in s.cache && !Awaiting(s, s.cache[k].item)
    ensures f < t < |es| && es[t].Store? && es[f] == Fetch(es[t].r, true)
    ensures Exec(es[..f]).Some? && Exec(es[..t]).Some?
    ensures var e := s.cache[k];
            && ValueBefore(es, f, e.item) == Some(e.value)
            && (e.crossed <==> EvictedBetween(es, f, t, e.item))
            && (ServerValue(s, e.item) == Some(e.value) <==>
                  ServerValue(s, e.item).Some? && ValueBefore(es, t, e.item) == Some(e.value))
  {
    RunOrigin(es, s);
    f, t := StoredBy(es, s, k);
    hide Exec;
  }

  /** What CachedReadsAgree says of the entry under k, stored at event t. */
  ghost predicate AgreesExactly(es: seq<Step>, s: State, k: string, t: nat) {
    && k in s.cache && t < |es| && es[t].Store? && Exec(es[..t]).Some?
    && var e := s.cache[k];
       ServerValue(s, e.item) == Some(e.value) <==>
         ServerValue(s, e.item).Some? && ValueBefore(es, t, e.item) == Some(e.value)
  }

  /** The same in one predicate, and its consequence for a value that no eviction crossed. */
  lemma AtRest(es: seq<Step>, s: State, k: string) returns (t: nat)
    requires Exec(es) == Some(s) && k in s.cache && !Awaiting(s, s.cache[k].item)
    ensures AgreesExactly(es, s, k, t)
    ensures var e := s.cache[k];
            !e.crossed && ServerValue(s, e.item).Some? ==> ServerValue(s, e.item) == Some(e.value)
  {
    var f: nat;
    f, t := CachedReadsAgree(es, s, k);
    if !s.cache[k].crossed {
      CachedIsCurrent(es, k);
    }
  }

  lemma StoredBy(es: seq<Step>, s: State, k: string) returns (f: nat, t: nat)
    requires OriginInv(es, s) && k in s.cache
    ensures StoredSince(es, s, f, t, s.cache[k])
  {
    hide StoredSince;
    assert Stored(es, s, s.cache[k]);
    f, t :| StoredSince(es, s, f, t, s.cache[k]);
  }

  // ---- what was served ----------------------------------------------------------------------

  /** At some moment of the run the server had the value for the item. */
  ghost predicate Served(es: seq<Step>, i: Item, v: string) {
    exists k: nat :: ServedAt(es, k, i, v)
  }

  ghost predicate ServedAt(es: seq<Step>, k: nat, i: Item, v: string) {
    k <= |es| && Exec(es[..k]).Some? && ValueBefore(es, k, i) == Some(v)
  }

  lemma ServedLater(es: seq<Step>, fs: seq<Step>, i: Item, v: string)
    requires Served(es, i, v) && es <= fs
    ensures Served(fs, i, v)
  {
    var k: nat :| ServedAt(es, k, i, v);
    assert fs[..k] == es[..k];
    assert ServedAt(fs, k, i, v);
  }

  lemma ServedNow(es: seq<Step>, s: State, i: Item, v: string)
    requires Exec(es) == Some(s) && ServerValue(s, i) == Some(v)
    ensures Served(es, i, v)
  {
    assert es[..|es|] == es;
    assert ServedAt(es, |es|, i, v);
  }

  /** Everything that the server answered with is something that it had. */
  lemma {:induction false} RunServed(es: seq<Step>, s: State, i: Item, v: string)
    requires Exec(es) == Some(s) && (i, v) in s.served
    ensures Served(es, i, v)
  {
    if es != [] {
      hide Served, Enabled;
      var n := |es| - 1;
      var before := Exec(es[..n]).value;
      if (i, v) in before.served {
        RunServed(es[..n], before, i, v);
      } else {
        OnlyFetchServes(before, es[n], i, v);
        ServedNow(es[..n], before, i, v);
      }
      ServedLater(es[..n], es, i, v);
    }
  }

  lemma OnlyFetchServes(s: State, e: Step, i: Item, v: string)
    requires Enabled(s, e) && (i, v) in Apply(s, e).served && (i, v) !in s.served
    ensures ServerValue(s, i) == Some(v)
  {}

  /**
   What a read has returned was once the server's value for exactly the namespace and
   key it asked for, if the namespaces asked for are separable.
   */
  lemma ReturnedWasServed(es: seq<Step>, s: State, r: nat)
    requires Exec(es) == Some(s) && SeparableReads(es) && r in s.readers
    requires s.readers[r].point.Done? && s.readers[r].point.result.Some?
    ensures Served(es, s.readers[r].item, s.readers[r].point.result.value)
  {
    hide Served;
    Provenance(es);
    RunServed(es, s, s.readers[r].item, s.readers[r].point.result.value);
  }
}
