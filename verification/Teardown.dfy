/**
 Concurrent teardown (lifecycle_context.go, cleanup.go) against concurrent reads
 (config.go): any number of cleanupTasksContext calls and any number of
 GetConfigValue calls interleave, one access to shared state at a time.  The
 framework runs no initialisation or startup meanwhile.
 */
module Teardown {
  import opened Common

  /** Program counter of cleanupTasksContext. */
  datatype Cleaner =
    | AtFlag            // before the look at initialized
    | AtSwap            // before the CompareAndSwap on destroyed
    | StopHealth | StopWatchers | CloseClient | Release | StopTasks | ClearFlag
    | Finished(tore: bool)

  /** The components that a read took from the plugin, named by numbers. */
  datatype Held = Held(breaker: nat, retry: nat)

  /** Program counter of GetConfigValue: its checks, and then the retry loop around the breaker. */
  datatype Reader =
    | AtInitialized
    | AtDestroyed
    | AtSnapshot                                               // before the locked read of the components
    | NilCheck(breaker: Option<nat>, retry: Option<nat>)
    | AtAttempt(held: Held, attempt: nat)                      // at the head of the loop
    | AtClient(held: Held, attempt: nat)                       // in breaker.Do, before reading client
    | ClientCheck(held: Held, attempt: nat, found: Option<nat>)
    | Calling(held: Held, attempt: nat, client: nat)           // in the cache or the call of the client
    | Ended(ok: bool)

  datatype State = State(
    initialized: bool,
    destroyed: bool,
    healthCheck: bool,
    watchers: bool,
    client: Option<nat>,
    breaker: Option<nat>,
    retry: Option<nat>,
    maxRetries: int,            // of the retry manager
    cleaners: map<nat, Cleaner>,
    readers: map<nat, Reader>)

  datatype Step =
    | Clean(c: nat)
    | Advance(c: nat)
    | Read(r: nat)
    | Continue(r: nat, ok: bool)   // ok: the breaker admits the attempt, or the call succeeds

  /** A started plugin. */
  function Started(client: nat, held: Held, maxRetries: int): State {
    State(true, false, true, true, Some(client), Some(held.breaker), Some(held.retry), maxRetries, map[], map[])
  }

  predicate Enabled(s: State, e: Step) {
    match e
    case Clean(c) => c !in s.cleaners
    case Advance(c) => c in s.cleaners && !s.cleaners[c].Finished?
    case Read(r) => r !in s.readers
    case Continue(r, _) => r in s.readers && !s.readers[r].Ended?
  }

  function AdvanceCleaner(s: State, c: nat): State
    requires c in s.cleaners && !s.cleaners[c].Finished?
  {
    var (t, next) :=
      match s.cleaners[c]
      case AtFlag => (s, if s.initialized then AtSwap else Finished(false))
      case AtSwap => if s.destroyed then (s, Finished(false)) else (s.(destroyed := true), StopHealth)
      case StopHealth => (s.(healthCheck := false), StopWatchers)
      case StopWatchers => (s.(watchers := false), CloseClient)
      case CloseClient => (s.(client := None), Release)
      case Release => (s.(retry := None, breaker := None), StopTasks)
      case StopTasks => (s.(retry := None), ClearFlag)
      case ClearFlag => (s.(initialized := false), Finished(true));
    t.(cleaners := t.cleaners[c := next])
  }

  /** The loop goes on with the next attempt, if there is one. */
  function NextAttempt(held: Held, attempt: nat, maxRetries: int): Reader {
    if attempt + 1 <= maxRetries then AtAttempt(held, attempt + 1) else Ended(false)
  }

  /** Where a reader at p goes next. */
  function NextPoint(s: State, p: Reader, ok: bool): Reader
    requires !p.Ended?
  {
    match p
    case AtInitialized => if s.initialized then AtDestroyed else Ended(false)
    case AtDestroyed => if s.destroyed then Ended(false) else AtSnapshot
    case AtSnapshot => NilCheck(s.breaker, s.retry)
    case NilCheck(breaker, retry) =>
      if breaker.None? || retry.None? || s.maxRetries < 0 then Ended(false)
      else AtAttempt(Held(breaker.value, retry.value), 0)
    case AtAttempt(held, attempt) =>
      if ok then AtClient(held, attempt) else NextAttempt(held, attempt, s.maxRetries)
    case AtClient(held, attempt) => ClientCheck(held, attempt, s.client)
    case ClientCheck(held, attempt, found) =>
      if found.None? then NextAttempt(held, attempt, s.maxRetries) else Calling(held, attempt, found.value)
    case Calling(held, attempt, _) =>
      if ok then Ended(true) else NextAttempt(held, attempt, s.maxRetries)
  }

  function Apply(s: State, e: Step): State
    requires Enabled(s, e)
  {
    match e
    case Clean(c) => s.(cleaners := s.cleaners[c := AtFlag])
    case Advance(c) => AdvanceCleaner(s, c)
    case Read(r) => s.(readers := s.readers[r := AtInitialized])
    case Continue(r, ok) => s.(readers := s.readers[r := NextPoint(s, s.readers[r], ok)])
  }

  function Exec(start: State, es: seq<Step>): Option<State> {
    if es == [] then Some(start)
    else
      var before := Exec(start, es[..|es| - 1]);
      if before.Some? && Enabled(before.value, es[|es| - 1])
      then Some(Apply(before.value, es[|es| - 1])) else None
  }

  /** The cleaner won the swap: it tears down, or has done so. */
  predicate Won(c: Cleaner) {
    !c.AtFlag? && !c.AtSwap? && c != Finished(false)
  }

  /** How much of the teardown is done: 0 before it, 6 after its last step. */
  function Progress(c: Cleaner): nat {
    match c
    case StopWatchers => 1
    case CloseClient => 2
    case Release => 3
    case StopTasks => 4
    case ClearFlag => 5
    case Finished(true) => 6
    case _ => 0
  }

  /** The shared fields after so many steps of the one teardown. */
  predicate TornDown(s: State, progress: nat, client: nat, held: Held) {
    && s.healthCheck == (progress < 1)
    && s.watchers == (progress < 2)
    && s.client == (if progress < 3 then Some(client) else None)
    && s.breaker == (if progress < 4 then Some(held.breaker) else None)
    && s.retry == (if progress < 4 then Some(held.retry) else None)
    && s.initialized == (progress < 6)
  }

  /** Before any winner nothing is touched and nobody has given up; after it, its progress says it all. */
  ghost predicate Inv(s: State, client: nat, held: Held) {
    && (!s.destroyed ==>
          && TornDown(s, 0, client, held)
          && forall c :: c in s.cleaners ==> s.cleaners[c].AtFlag? || s.cleaners[c].AtSwap?)
    && (s.destroyed ==> exists w :: Winner(s, w, client, held))
    && (forall r :: r in s.readers ==> ReaderInv(s.readers[r], client, held))
  }

  /** The one cleaner that won. */
  ghost predicate Winner(s: State, w: nat, client: nat, held: Held) {
    && w in s.cleaners && Won(s.cleaners[w])
    && (forall c :: c in s.cleaners && Won(s.cleaners[c]) ==> c == w)
    && TornDown(s, Progress(s.cleaners[w]), client, held)
  }

  /** A reader past its nil checks holds the components that the plugin was started with. */
  predicate ReaderInv(r: Reader, client: nat, held: Held) {
    match r
    case NilCheck(b, m) => b in {None, Some(held.breaker)} && m in {None, Some(held.retry)}
    case AtAttempt(h, _) => h == held
    case AtClient(h, _) => h == held
    case ClientCheck(h, _, c) => h == held && c in {None, Some(client)}
    case Calling(h, _, c) => h == held && c == client
    case _ => true
  }

  lemma AdvanceStep(s: State, c: nat, client: nat, held: Held)
    requires Inv(s, client, held) && c in s.cleaners && !s.cleaners[c].Finished?
    ensures Inv(AdvanceCleaner(s, c), client, held)
  {
    var t := AdvanceCleaner(s, c);
    if s.destroyed {
      var w :| Winner(s, w, client, held);
      assert Winner(t, w, client, held);
    } else if t.destroyed {
      assert Winner(t, c, client, held);
    }
  }

  lemma OtherStep(s: State, e: Step, client: nat, held: Held)
    requires Inv(s, client, held) && Enabled(s, e) && !e.Advance?
    ensures Inv(Apply(s, e), client, held)
  {
    var t := Apply(s, e);
    if s.destroyed {
      var w :| Winner(s, w, client, held);
      assert Winner(t, w, client, held);
    }
  }

  lemma {:induction false} RunInv(client: nat, held: Held, maxRetries: int, es: seq<Step>)
    requires Exec(Started(client, held, maxRetries), es).Some?
    ensures Inv(Exec(Started(client, held, maxRetries), es).value, client, held)
  {
    if es != [] {
      var n := |es| - 1;
      var start := Started(client, held, maxRetries);
      RunInv(client, held, maxRetries, es[..n]);
      if es[n].Advance? {
        AdvanceStep(Exec(start, es[..n]).value, es[n].c, client, held);
      } else {
        OtherStep(Exec(start, es[..n]).value, es[n], client, held);
      }
    }
  }

  ghost predicate AllFinished(s: State) {
    forall c :: c in s.cleaners ==> s.cleaners[c].Finished?
  }

  /**
   Of any number of concurrent cleanups exactly one tears down: once all have
   returned (and there was one), a single one did the work, everything is
   released, and initialized is false just as the client is nil.
   */
  lemma ExactlyOneTearsDown(client: nat, held: Held, maxRetries: int, es: seq<Step>)
    requires Exec(Started(client, held, maxRetries), es).Some?
    requires AllFinished(Exec(Started(client, held, maxRetries), es).value)
    requires Exec(Started(client, held, maxRetries), es).value.cleaners != map[]
    ensures var s := Exec(Started(client, held, maxRetries), es).value;
            && (exists w :: w in s.cleaners && s.cleaners[w] == Finished(true) &&
                  forall c :: c in s.cleaners && c != w ==> s.cleaners[c] == Finished(false))
            && s.destroyed && !s.initialized && s.client == None && s.breaker == None && s.retry == None
            && !s.healthCheck && !s.watchers
  {
    RunInv(client, held, maxRetries, es);
    var s := Exec(Started(client, held, maxRetries), es).value;
    var c :| c in s.cleaners;
    assert s.cleaners[c].Finished?;
    var w :| Winner(s, w, client, held);
    forall d | d in s.cleaners && d != w ensures s.cleaners[d] == Finished(false) {
      assert s.cleaners[d].Finished? && !Won(s.cleaners[d]);
    }
  }

  /** Before any cleanup, or after all, initialized says whether there is a client. */
  lemma InitializedIffClient(client: nat, held: Held, maxRetries: int, es: seq<Step>)
    requires Exec(Started(client, held, maxRetries), es).Some?
    requires AllFinished(Exec(Started(client, held, maxRetries), es).value)
    ensures var s := Exec(Started(client, held, maxRetries), es).value;
            s.initialized <==> s.client.Some?
  {
    RunInv(client, held, maxRetries, es);
    var s := Exec(Started(client, held, maxRetries), es).value;
    if s.destroyed {
      var w :| Winner(s, w, client, held);
      assert s.cleaners[w].Finished?;
    }
  }

  // ---- reads beside the teardown ------------------------------------------------------

  /** The read has found a client in its current attempt. */
  predicate HasClient(r: Reader) { (r.ClientCheck? && r.found.Some?) || r.Calling? }

  /** The client is nil once it was taken, and no later step brings one back. */
  lemma ClientStaysGone(s: State, e: Step)
    requires s.client.None? && Enabled(s, e)
    ensures Apply(s, e).client.None?
  {
    hide NextPoint;
  }

  /** From p to q no client was found: a client at q was there at p, and a success at q was certain at p. */
  predicate FoundNone(p: Reader, q: Reader) {
    && (HasClient(q) ==> HasClient(p) && p.attempt == q.attempt)
    && (q == Ended(true) ==> HasClient(p) || p == Ended(true))
  }

  lemma PointFindsNone(s: State, p: Reader, ok: bool)
    requires s.client.None? && !p.Ended?
    ensures FoundNone(p, NextPoint(s, p, ok))
  {}

  /** A step moves one reader at most. */
  lemma ReaderMoves(s: State, e: Step, r: nat)
    requires Enabled(s, e) && r in Apply(s, e).readers
    ensures r !in s.readers ==> Apply(s, e).readers[r] == AtInitialized
    ensures r in s.readers ==>
              Apply(s, e).readers[r] ==
                if e.Continue? && e.r == r then NextPoint(s, s.readers[r], e.ok) else s.readers[r]
  {
    hide NextPoint;
  }

  /** The reader's place, or a place before its first step. */
  function PlaceOf(s: State, r: nat): Reader {
    if r in s.readers then s.readers[r] else AtInitialized
  }

  /**
   Once the client has been taken no read gets hold of it any more: a read that has
   a client later had it then, in the same attempt, and a read that succeeds later
   had it then or had succeeded already.  So every attempt begun later fails.
   */
  lemma {:induction false} NoClientAfterClose(start: State, es: seq<Step>, k: nat, r: nat)
    requires Exec(start, es).Some? && k <= |es| && Exec(start, es[..k]).Some?
    requires Exec(start, es[..k]).value.client.None?
    ensures Exec(start, es).value.client.None?
    ensures FoundNone(PlaceOf(Exec(start, es[..k]).value, r), PlaceOf(Exec(start, es).value, r))
    decreases |es|
  {
    if k == |es| {
      assert es[..k] == es;
    } else {
      var n := |es| - 1;
      assert es[..n][..k] == es[..k];
      GoneAt(start, es[..n], k);
      NoClientAfterClose(start, es[..n], k, r);
      var s := Exec(start, es[..n]).value;
      hide Apply, Enabled, NextPoint;
      GoneAt(start, es, k);
      StepFindsNone(s, es[n], r);
    }
  }

  lemma StepFindsNone(s: State, e: Step, r: nat)
    requires s.client.None? && Enabled(s, e)
    ensures FoundNone(PlaceOf(s, r), PlaceOf(Apply(s, e), r))
  {
    ReadersStay(s, e, r);
    hide Apply, NextPoint;
    if r in Apply(s, e).readers {
      ReaderMoves(s, e, r);
      if r in s.readers && e.Continue? && e.r == r {
        PointFindsNone(s, s.readers[r], e.ok);
      }
    }
  }

  lemma ReadersStay(s: State, e: Step, r: nat)
    requires Enabled(s, e)
    ensures r in s.readers ==> r in Apply(s, e).readers
  {
    hide NextPoint;
  }

  lemma {:induction false} GoneAt(start: State, es: seq<Step>, k: nat)
    requires Exec(start, es).Some? && k <= |es| && Exec(start, es[..k]).Some?
    requires Exec(start, es[..k]).value.client.None?
    ensures Exec(start, es).value.client.None?
    decreases |es|
  {
    if k == |es| {
      assert es[..k] == es;
    } else {
      var n := |es| - 1;
      assert es[..n][..k] == es[..k];
      GoneAt(start, es[..n], k);
      ClientStaysGone(Exec(start, es[..n]).value, es[n]);
    }
  }

  /** Some continuation of the run lets the read succeed. */
  ghost predicate MaySucceed(start: State, es: seq<Step>, r: nat) {
    exists fs :: Succeeds(start, es, fs, r)
  }

  ghost predicate Succeeds(start: State, es: seq<Step>, fs: seq<Step>, r: nat) {
    es <= fs && Exec(start, fs).Some? && r in Exec(start, fs).value.readers
    && Exec(start, fs).value.readers[r] == Ended(true)
  }

  /**
   Exactly which reads can outlive the client: after it has been taken, a read that
   has not returned may still succeed if and only if it had found the client in the
   attempt it is in.
   */
  lemma OutlivesClient(start: State, es: seq<Step>, r: nat)
    requires Exec(start, es).Some? && Exec(start, es).value.client.None?
    requires r in Exec(start, es).value.readers && !Exec(start, es).value.readers[r].Ended?
    ensures MaySucceed(start, es, r) <==> HasClient(Exec(start, es).value.readers[r])
  {
    if fs: seq<Step> :| Succeeds(start, es, fs, r) {
      assert fs[..|es|] == es;
      NoClientAfterClose(start, fs, |es|, r);
    }
    if HasClient(Exec(start, es).value.readers[r]) {
      var fs := FinishCall(start, es, r);
      assert Succeeds(start, es, fs, r);
    }
  }

  lemma FinishCall(start: State, es: seq<Step>, r: nat) returns (fs: seq<Step>)
    requires Exec(start, es).Some? && r in Exec(start, es).value.readers
    requires HasClient(Exec(start, es).value.readers[r])
    ensures Succeeds(start, es, fs, r)
  {
    fs := es;
    if Exec(start, es).value.readers[r].ClientCheck? {
      fs := OneMore(start, es, r);
    }
    fs := OneMore(start, fs, r);
  }

  lemma OneMore(start: State, es: seq<Step>, r: nat) returns (fs: seq<Step>)
    requires Exec(start, es).Some? && r in Exec(start, es).value.readers && !Exec(start, es).value.readers[r].Ended?
    ensures es <= fs && Exec(start, fs).Some? && r in Exec(start, fs).value.readers
    ensures Exec(start, fs).value.readers[r] == NextPoint(Exec(start, es).value, Exec(start, es).value.readers[r], true)
  {
    hide NextPoint;
    fs := es + [Continue(r, true)];
    assert fs[..|es|] == es;
  }

  /** A reader that nothing stands in the way of: what it has taken from the plugin so far was there. */
  predicate Unhindered(r: Reader, maxRetries: int) {
    match r
    case NilCheck(b, m) => b.Some? && m.Some?
    case AtAttempt(_, _) => maxRetries >= 0
    case AtClient(_, _) => maxRetries >= 0
    case ClientCheck(_, _, c) => c.Some? && maxRetries >= 0
    case Calling(_, _, _) => maxRetries >= 0
    case Ended(ok) => ok ==> maxRetries >= 0
    case _ => true
  }

  /** No reader gets past its nil checks without a retry to make, and none is hindered before the swap. */
  ghost predicate ReadersInv(s: State) {
    && (s.maxRetries < 0 ==> forall r :: r in s.readers ==> AtChecks(s.readers[r]))
    && (!s.destroyed ==> forall r :: r in s.readers ==> Unhindered(s.readers[r], s.maxRetries))
  }

  /** The read makes no attempt, now or before. */
  predicate AtChecks(r: Reader) {
    r.AtInitialized? || r.AtDestroyed? || r.AtSnapshot? || r.NilCheck? || r == Ended(false)
  }

  lemma PointInv(s: State, p: Reader, ok: bool)
    requires !p.Ended?
    ensures s.maxRetries < 0 && AtChecks(p) ==> AtChecks(NextPoint(s, p, ok))
    ensures Unhindered(p, s.maxRetries) && s.client.Some? && s.breaker.Some? && s.retry.Some? ==>
              Unhindered(NextPoint(s, p, ok), s.maxRetries)
  {}

  lemma ReadersStep(s: State, e: Step)
    requires ReadersInv(s) && Enabled(s, e)
    requires !s.destroyed ==> s.client.Some? && s.breaker.Some? && s.retry.Some?
    ensures Apply(s, e).maxRetries == s.maxRetries && ReadersInv(Apply(s, e))
  {
    SameRetries(s, e);
    forall r | r in Apply(s, e).readers
      ensures s.maxRetries < 0 ==> AtChecks(Apply(s, e).readers[r])
      ensures !Apply(s, e).destroyed ==> Unhindered(Apply(s, e).readers[r], s.maxRetries)
    {
      ReaderMoves(s, e, r);
      if e.Continue? && e.r == r {
        PointInv(s, s.readers[r], e.ok) by { hide Apply, NextPoint, ReadersInv; }
      }
      hide Apply, NextPoint;
    }
    hide Apply;
  }

  lemma SameRetries(s: State, e: Step)
    requires Enabled(s, e)
    ensures Apply(s, e).maxRetries == s.maxRetries && (s.destroyed ==> Apply(s, e).destroyed)
  {
    hide NextPoint;
  }

  lemma {:induction false} RunReaders(client: nat, held: Held, maxRetries: int, es: seq<Step>)
    requires Exec(Started(client, held, maxRetries), es).Some?
    ensures Exec(Started(client, held, maxRetries), es).value.maxRetries == maxRetries
    ensures ReadersInv(Exec(Started(client, held, maxRetries), es).value)
  {
    if es != [] {
      var n := |es| - 1;
      RunReaders(client, held, maxRetries, es[..n]);
      RunInv(client, held, maxRetries, es[..n]);
      ReadersStep(Exec(Started(client, held, maxRetries), es[..n]).value, es[n]);
      hide Apply, Enabled, ReadersInv;
    }
  }

  /**
   Until a cleanup wins the swap every read that has not returned may still succeed,
   if and only if the retry manager makes an attempt at all.
   */
  lemma UntouchedMaySucceed(client: nat, held: Held, maxRetries: int, es: seq<Step>, r: nat)
    requires Exec(Started(client, held, maxRetries), es).Some?
    requires !Exec(Started(client, held, maxRetries), es).value.destroyed
    requires r in Exec(Started(client, held, maxRetries), es).value.readers
    requires !Exec(Started(client, held, maxRetries), es).value.readers[r].Ended?
    ensures MaySucceed(Started(client, held, maxRetries), es, r) <==> maxRetries >= 0
  {
    var start := Started(client, held, maxRetries);
    if fs: seq<Step> :| Succeeds(start, es, fs, r) {
      RunReaders(client, held, maxRetries, fs);
    }
    if maxRetries >= 0 {
      var fs := LetRead(client, held, maxRetries, es, r);
      assert Succeeds(start, es, fs, r);
    }
  }

  /** How many steps a reader that goes straight on still has to make. */
  function Distance(r: Reader): nat {
    match r
    case AtInitialized => 7
    case AtDestroyed => 6
    case AtSnapshot => 5
    case NilCheck(_, _) => 4
    case AtAttempt(_, _) => 3
    case AtClient(_, _) => 2
    case ClientCheck(_, _, _) => 1
    case _ => 0
  }

  lemma {:induction false} LetRead(client: nat, held: Held, maxRetries: int, es: seq<Step>, r: nat)
    returns (fs: seq<Step>)
    requires maxRetries >= 0 && Exec(Started(client, held, maxRetries), es).Some?
    requires !Exec(Started(client, held, maxRetries), es).value.destroyed
    requires r in Exec(Started(client, held, maxRetries), es).value.readers
    requires !Exec(Started(client, held, maxRetries), es).value.readers[r].Ended?
    ensures Succeeds(Started(client, held, maxRetries), es, fs, r)
    decreases Distance(Exec(Started(client, held, maxRetries), es).value.readers[r])
  {
    var start := Started(client, held, maxRetries);
    var s := Exec(start, es).value;
    RunReaders(client, held, maxRetries, es);
    RunInv(client, held, maxRetries, es);
    fs := OneMore(start, es, r);
    if !s.readers[r].Calling? {
      OneMoreKeeps(start, es, r);
      fs := LetRead(client, held, maxRetries, es + [Continue(r, true)], r);
    }
  }

  lemma OneMoreKeeps(start: State, es: seq<Step>, r: nat)
    requires Exec(start, es).Some? && r in Exec(start, es).value.readers && !Exec(start, es).value.readers[r].Ended?
    ensures var s := Exec(start, es).value;
            Exec(start, es + [Continue(r, true)]) ==
              Some(s.(readers := s.readers[r := NextPoint(s, s.readers[r], true)]))
  {
    hide NextPoint;
    assert (es + [Continue(r, true)])[..|es|] == es;
  }

  /** What every read past its nil checks works with: the components that the plugin was started with. */
  lemma ReadersKeepSnapshot(client: nat, held: Held, maxRetries: int, es: seq<Step>, r: nat)
    requires Exec(Started(client, held, maxRetries), es).Some?
    requires r in Exec(Started(client, held, maxRetries), es).value.readers
    ensures ReaderInv(Exec(Started(client, held, maxRetries), es).value.readers[r], client, held)
  {
    RunInv(client, held, maxRetries, es);
  }
}
