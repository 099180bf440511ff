/**
 GetConfigValue of config.go: the retry loop around the circuit breaker around the
 read through the cache, with every other user of breaker and cache running in
 between.
 */
module ConfigRead {
  import opened Common
  import Breaker
  import opened BreakerRuns
  import opened Circuit
  import opened Floats
  import opened Retry
  import opened Validation
  import Cache
  import CacheObject
  import CacheOrigins

  /**
   One turn of the retry loop: the index of its Begin in the breaker's run,
   whether the operation ran, the index of its last event, and what it returned; and
   what it did in the cache's run.
   */
  datatype Attempt = Attempt(begin: nat, ran: bool, end: nat, outcome: Result<string, Error>, visit: Visit)

  /** The part of the cache's run that belongs to an attempt, and the events of its read. */
  datatype Visit = Visit(from: nat, to: nat, reader: nat, events: CacheObject.ReadEvents)

  /** What the n-th attempt of a call finds: whether the plugin has a client, and whether the server answers it. */
  datatype Service = Service(client: nat -> bool, reachable: nat -> bool)

  /** The attempt is what the run of the breaker says it is. */
  ghost predicate Recorded(threshold: real, trace: seq<Event>, a: Attempt) {
    && a.begin <= a.end < |trace| && trace[a.begin].Begin?
    && a.ran == !Refused(threshold, trace, a.begin)
    && (!a.ran ==> a.end == a.begin)
    && (a.ran ==> trace[a.end].Finish? && trace[a.end].call == a.begin && trace[a.end].failed == a.outcome.Err?)
  }

  /**
   The turns of one call, begun when the breaker's run had length start: each
   is recorded, they do not overlap, and at least the backoff lies between two.
   */
  ghost predicate Turns(threshold: real, fp: Float, r: RetryManager, start: nat,
                        trace: seq<Event>, attempts: seq<Attempt>)
  {
    && (forall i :: 0 <= i < |attempts| ==> Recorded(threshold, trace, attempts[i]))
    && (attempts != [] ==> start <= attempts[0].begin)
    && forall i :: 0 < i < |attempts| ==>
      && attempts[i - 1].end < attempts[i].begin
      && trace[attempts[i].begin].at >= EndOf(trace, attempts[i - 1]) + Max(CalculateBackoff(fp, r, i - 1), 0)
  }

  function EndOf(trace: seq<Event>, a: Attempt): Time
    requires a.end < |trace|
  {
    Breaker.End(trace[a.end])
  }

  /** The error of the last attempt that ran: the closure's lastErr. */
  function LastError(attempts: seq<Attempt>): Option<Error> {
    if attempts == [] then None
    else
      var a := attempts[|attempts| - 1];
      if a.ran && a.outcome.Err? then Some(a.outcome.error) else LastError(attempts[..|attempts| - 1])
  }

  lemma RecordedLater(threshold: real, trace: seq<Event>, later: seq<Event>, a: Attempt)
    requires Recorded(threshold, trace, a) && trace <= later
    ensures Recorded(threshold, later, a)
  {
    assert later[..a.begin] == trace[..a.begin];
  }

  lemma NoTurns(threshold: real, fp: Float, r: RetryManager, trace: seq<Event>)
    ensures Turns(threshold, fp, r, |trace|, trace, [])
  {}

  /** One more turn, begun after everything recorded so far. */
  lemma TurnsSnoc(threshold: real, fp: Float, r: RetryManager, start: nat,
                  trace: seq<Event>, later: seq<Event>, attempts: seq<Attempt>, a: Attempt)
    requires Turns(threshold, fp, r, start, trace, attempts) && trace <= later && start <= |trace| <= a.begin
    requires Recorded(threshold, later, a)
    requires attempts != [] ==> attempts[|attempts| - 1].end < |trace| && a.begin < |later|
    requires attempts != [] ==>
      later[a.begin].at >= EndOf(trace, attempts[|attempts| - 1]) + Max(CalculateBackoff(fp, r, |attempts| - 1), 0)
    ensures Turns(threshold, fp, r, start, later, attempts + [a]) && a.end < |later|
  {
    hide Refused, CalculateBackoff;
    var more, n := attempts + [a], |attempts|;
    forall i | 0 <= i < |more| ensures Recorded(threshold, later, more[i]) {
      if i < n { RecordedLater(threshold, trace, later, attempts[i]); }
    }
    forall i | 0 < i < |more|
      ensures more[i - 1].end < more[i].begin
      ensures later[more[i].begin].at >= EndOf(later, more[i - 1]) + Max(CalculateBackoff(fp, r, i - 1), 0)
    {
      assert Recorded(threshold, trace, attempts[i - 1]);
      if i < n {
        assert Recorded(threshold, trace, attempts[i]);
      }
    }
  }

  lemma LastErrorSnoc(attempts: seq<Attempt>, a: Attempt)
    ensures LastError(attempts + [a]) == if a.ran && a.outcome.Err? then Some(a.outcome.error) else LastError(attempts)
  {
    assert (attempts + [a])[..|attempts|] == attempts;
  }

  /** What the last attempt left is long enough ago for the next one. */
  predicate Rested(fp: Float, r: RetryManager, trace: seq<Event>, attempts: seq<Attempt>, now: Time) {
    attempts != [] ==>
      var last := attempts[|attempts| - 1];
      last.end < |trace| && now >= EndOf(trace, last) + Max(CalculateBackoff(fp, r, |attempts| - 1), 0)
  }

  /**
   The value is one that the server had for the item at some moment of the cache's run,
   if the namespaces that the reads ask for are separable.
   */
  ghost predicate Answers(steps: seq<Cache.Step>, i: Cache.Item, v: string) {
    Cache.SeparableReads(steps) ==> CacheOrigins.Served(steps, i, v)
  }

  /**
   What a visit of the cache results in: an error without a client; with the cache
   enabled what the events of the read say; and without it what the server answers.
   */
  ghost predicate Visited(steps: seq<Cache.Step>, v: Visit, hasClient: bool, enableCache: bool, reachable: bool,
                          i: Cache.Item, result: Result<string, Error>)
  {
    && v.from <= v.to <= |steps|
    && if !hasClient then result.Err?
       else if enableCache then CacheObject.ReadAs(steps[..v.to], v.from, v.reader, i, reachable, v.events, result)
       else Cache.Exec(steps[..v.to]).Some?
            && CacheObject.IsAnswer(Cache.Exec(steps[..v.to]).value, i, reachable, result)
  }

  /** Every attempt that ran visited the cache, one after the other. */
  ghost predicate Visits(steps: seq<Cache.Step>, start: nat, service: Service, enableCache: bool, i: Cache.Item,
                         attempts: seq<Attempt>)
  {
    && (forall n :: 0 <= n < |attempts| ==> start <= attempts[n].visit.from <= attempts[n].visit.to <= |steps|)
    && (forall n :: 0 < n < |attempts| ==> attempts[n - 1].visit.to <= attempts[n].visit.from)
    && (forall n :: 0 <= n < |attempts| && attempts[n].ran ==>
          Visited(steps, attempts[n].visit, service.client(n), enableCache, service.reachable(n), i,
                  attempts[n].outcome))
  }

  lemma VisitedLater(steps: seq<Cache.Step>, later: seq<Cache.Step>, v: Visit, hasClient: bool, enableCache: bool,
                     reachable: bool, i: Cache.Item, result: Result<string, Error>)
    requires Visited(steps, v, hasClient, enableCache, reachable, i, result) && steps <= later
    ensures Visited(later, v, hasClient, enableCache, reachable, i, result)
  {
    assert later[..v.to] == steps[..v.to];
  }

  lemma NoVisits(steps: seq<Cache.Step>, service: Service, enableCache: bool, i: Cache.Item)
    ensures Visits(steps, |steps|, service, enableCache, i, [])
  {}

  lemma VisitsSnoc(steps: seq<Cache.Step>, later: seq<Cache.Step>, start: nat, service: Service, enableCache: bool,
                   i: Cache.Item, attempts: seq<Attempt>, a: Attempt)
    requires Visits(steps, start, service, enableCache, i, attempts) && steps <= later && start <= |steps|
    requires |steps| <= a.visit.from <= a.visit.to <= |later|
    requires var n := |attempts|;
             a.ran ==> Visited(later, a.visit, service.client(n), enableCache, service.reachable(n), i, a.outcome)
    ensures Visits(later, start, service, enableCache, i, attempts + [a])
  {
    hide Visited;
    var more := attempts + [a];
    forall n | 0 <= n < |more| && more[n].ran
      ensures Visited(later, more[n].visit, service.client(n), enableCache, service.reachable(n), i, more[n].outcome)
    {
      if n < |attempts| {
        VisitedLater(
          steps, later, more[n].visit, service.client(n), enableCache, service.reachable(n), i, more[n].outcome);
      }
    }
  }

  /** Where the value of a visit comes from: the cache when the read looks, or the server when it is asked. */
  ghost predicate Found(steps: seq<Cache.Step>, v: Visit, enableCache: bool, reachable: bool, i: Cache.Item) {
    if enableCache then
      match v.events
      case Hit(_, _) => true
      case Miss(_, _, load) =>
        load.fetch <= |steps| && Cache.Exec(steps[..load.fetch]).Some?
        && reachable && CacheOrigins.ValueBefore(steps, load.fetch, i).Some?
    else
      v.to <= |steps| && Cache.Exec(steps[..v.to]).Some? && reachable && CacheOrigins.ValueBefore(steps, v.to, i).Some?
  }

  /** An attempt failed if and only if there was no client, or neither the cache nor the server gave a value. */
  lemma OutcomeExactly(steps: seq<Cache.Step>, v: Visit, hasClient: bool, enableCache: bool, reachable: bool,
                       i: Cache.Item, result: Result<string, Error>)
    requires Visited(steps, v, hasClient, enableCache, reachable, i, result)
    ensures result.Ok? <==> hasClient && Found(steps, v, enableCache, reachable, i)
  {
    if hasClient && enableCache && v.events.Miss? {
      assert steps[..v.to][..v.events.load.fetch] == steps[..v.events.load.fetch];
    }
    hide Cache.Exec;
  }

  /** The guarded operation: one read through the cache. */
  method Read(cache: CacheObject.ConfigCache, hasClient: bool, enableCache: bool, reachable: bool, i: Cache.Item)
    returns (result: Result<string, Error>, ghost visit: Visit)
    requires cache.Valid()
    modifies cache
    ensures cache.Valid() && old(cache.steps) <= cache.steps
    ensures result.Ok? ==> Answers(cache.steps, i, result.value)
    ensures |old(cache.steps)| <= visit.from && visit.to == |cache.steps|
    ensures Visited(cache.steps, visit, hasClient, enableCache, reachable, i, result)
  {
    hide Cache.Exec, Cache.ServerValue, CacheOrigins.Served, CacheObject.Values, CacheObject.ReadAs;
    cache.OtherGoroutines({}, multiset{});
    ghost var from := |cache.steps|;
    SomeFresh(cache.world.readers);
    var r: nat :| r !in cache.world.readers;
    ghost var events;
    result, events := cache.GetConfigValueFromApollo(hasClient, enableCache, reachable, r, i);
    visit := Visit(from, |cache.steps|, r, events);
    assert cache.steps[..visit.to] == cache.steps;
    if result.Ok? {
      if !enableCache {
        CacheOrigins.ServedNow(cache.steps, cache.world, i, result.value);
      } else if Cache.SeparableReads(cache.steps) {
        CacheOrigins.ReturnedWasServed(cache.steps, cache.world, r);
      }
    }
  }

  lemma SomeFresh(readers: map<nat, Cache.Read>)
    ensures exists r: nat :: r !in readers
  {
    var bound := Above(readers.Keys);
    assert bound !in readers;
  }

  lemma {:induction false} Above(s: set<nat>) returns (bound: nat)
    ensures forall x :: x in s ==> x < bound
  {
    bound := 0;
    if x :| x in s {
      bound := Above(s - {x});
      bound := Max(bound, x + 1);
      assert forall y :: y in s ==> y == x || y in s - {x};
    }
  }

  /** One turn of the loop: others use the breaker, then the n-th attempt is made. */
  method Turn(breaker: CircuitBreaker, clock: Clock, cache: CacheObject.ConfigCache, service: Service, n: nat,
              enableCache: bool, i: Cache.Item)
    returns (result: Result<string, Error>, ran: bool, ghost a: Attempt)
    requires breaker.Valid(clock) && cache.Valid()
    modifies breaker, clock, cache
    ensures breaker.Valid(clock) && old(breaker.trace) <= breaker.trace
    ensures cache.Valid() && old(cache.steps) <= cache.steps
    ensures result.Ok? ==> Answers(cache.steps, i, result.value)
    ensures Recorded(breaker.threshold, breaker.trace, a) && a.begin <= a.end < |breaker.trace|
    ensures a.outcome == result && a.ran == ran && |old(breaker.trace)| <= a.begin
    ensures breaker.trace[a.begin].at >= old(clock.now)
    ensures EndOf(breaker.trace, a) == clock.now
    ensures !ran ==> result.Err?
    ensures |old(cache.steps)| <= a.visit.from <= a.visit.to <= |cache.steps|
    ensures ran ==> Visited(cache.steps, a.visit, service.client(n), enableCache, service.reachable(n), i, result)
  {
    hide Refused, InFlight, WellFormed, Breaker.Exec, Breaker.Timed, Cache.Exec, Answers, CacheObject.Values;
    hide CacheObject.ReadAs, CacheObject.IsAnswer;
    breaker.OtherGoroutines(clock, {});
    ghost var before := breaker.trace;
    var call: nat;
    ran, call := breaker.Enter(clock);
    ghost var begun := breaker.trace;
    assert begun[call] == Breaker.Begin(clock.now) && before <= begun;
    ghost var visit := Visit(|cache.steps|, |cache.steps|, 0, CacheObject.Hit(0, 0));
    if ran {
      result, visit := Read(cache, service.client(n), enableCache, service.reachable(n), i);
      breaker.Leave(clock, call, result.Err?);
    } else {
      result := Err(CircuitOpen);
    }
    RefusedKept(breaker.threshold, begun, breaker.trace, call);
    a := Attempt(call, ran, |breaker.trace| - 1, result, visit);
  }

  /** The body of the loop without the wait: one more turn. */
  method Try(breaker: CircuitBreaker, clock: Clock, cache: CacheObject.ConfigCache, service: Service, n: nat,
             enableCache: bool, i: Cache.Item, r: RetryManager, fp: Float,
             ghost start: nat, ghost cacheStart: nat, ghost attempts: seq<Attempt>)
    returns (result: Result<string, Error>, ran: bool, ghost a: Attempt)
    requires breaker.Valid(clock) && cache.Valid() && start <= |breaker.trace|
    requires Turns(breaker.threshold, fp, r, start, breaker.trace, attempts)
    requires Rested(fp, r, breaker.trace, attempts, clock.now)
    requires n == |attempts| && cacheStart <= |cache.steps|
    requires Visits(cache.steps, cacheStart, service, enableCache, i, attempts)
    modifies breaker, clock, cache
    ensures breaker.Valid(clock) && old(breaker.trace) <= breaker.trace
    ensures cache.Valid() && old(cache.steps) <= cache.steps
    ensures result.Ok? ==> Answers(cache.steps, i, result.value)
    ensures Turns(breaker.threshold, fp, r, start, breaker.trace, attempts + [a])
    ensures a.end < |breaker.trace| && EndOf(breaker.trace, a) == clock.now
    ensures a.outcome == result && a.ran == ran && (!ran ==> result.Err?)
    ensures Visits(cache.steps, cacheStart, service, enableCache, i, attempts + [a])
  {
    hide Turns, Recorded, CalculateBackoff, WellFormed, Breaker.Exec, Breaker.Timed, Cache.Exec, Answers;
    hide Visits, Visited, CacheObject.Values;
    ghost var before, cached := breaker.trace, cache.steps;
    result, ran, a := Turn(breaker, clock, cache, service, n, enableCache, i);
    VisitsSnoc(cached, cache.steps, cacheStart, service, enableCache, i, attempts, a);
    TurnsSnoc(breaker.threshold, fp, r, start, before, breaker.trace, attempts, a);
  }

  /** The loop of DoWithRetry around the closure of GetConfigValue. */
  method ReadWithRetry(breaker: CircuitBreaker, r: RetryManager, clock: Clock, fp: Float,
                       cache: CacheObject.ConfigCache, service: Service, enableCache: bool, i: Cache.Item)
    returns (result: Result<string, Error>, ghost attempts: seq<Attempt>)
    requires breaker.Valid(clock) && cache.Valid()
    modifies breaker, clock, cache
    ensures breaker.Valid(clock) && old(breaker.trace) <= breaker.trace
    ensures cache.Valid() && old(cache.steps) <= cache.steps
    ensures result.Ok? ==> Answers(cache.steps, i, result.value)
    ensures Turns(breaker.threshold, fp, r, |old(breaker.trace)|, breaker.trace, attempts)
    ensures Verdict(result, attempts, r.maxRetries)
    ensures Visits(cache.steps, |old(cache.steps)|, service, enableCache, i, attempts)
  {
    hide Turns, Recorded, CalculateBackoff, LastError, Verdict, Rested, Answers, Visits;
    hide Breaker.Exec, Breaker.Timed, WellFormed, InFlight, Cache.Exec, CacheObject.Values;
    attempts := [];
    NoTurns(breaker.threshold, fp, r, breaker.trace);
    NothingTried(fp, r, breaker.trace, clock.now);
    NoVisits(cache.steps, service, enableCache, i);
    var lastErr: Option<Error> := None;
    var attempt := 0;
    while attempt <= r.maxRetries
      invariant 0 <= attempt <= Max(r.maxRetries + 1, 0) && |attempts| == attempt
      invariant breaker.Valid(clock) && old(breaker.trace) <= breaker.trace
      invariant cache.Valid() && old(cache.steps) <= cache.steps
      invariant Turns(breaker.threshold, fp, r, |old(breaker.trace)|, breaker.trace, attempts)
      invariant attempt <= r.maxRetries ==> Rested(fp, r, breaker.trace, attempts, clock.now)
      invariant Visits(cache.steps, |old(cache.steps)|, service, enableCache, i, attempts)
      invariant AllFailed(attempts) && lastErr == LastError(attempts)
    {
      ghost var a;
      var outcome, ran;
      outcome, ran, a := Try(breaker, clock, cache, service, attempt, enableCache, i, r, fp,
                             |old(breaker.trace)|, |old(cache.steps)|, attempts);
      if outcome.Ok? {
        Succeeded(attempts, a, r.maxRetries);
        return outcome, attempts + [a];
      }
      LastErrorSnoc(attempts, a);
      attempts := attempts + [a];
      if ran {
        lastErr := Some(outcome.error);
      }
      if attempt < r.maxRetries {
        Wait(breaker, clock, CalculateBackoff(fp, r, attempt));
        NowRested(fp, r, breaker.trace, attempts, clock.now);
      }
      attempt := attempt + 1;
    }
    GaveUp(attempts, r.maxRetries);
    return Err(ClientError(lastErr)), attempts;
  }

  /** No attempt that ran returned a value. */
  predicate AllFailed(attempts: seq<Attempt>) {
    forall n :: 0 <= n < |attempts| ==> !attempts[n].ran || attempts[n].outcome.Err?
  }

  /**
   What the attempts of a call decide: it returns a value if and only if one that ran
   did, which is the last one; otherwise all were made, and the cause of the error is
   that of the last one that ran, if any did.
   */
  predicate Verdict(result: Result<string, Error>, attempts: seq<Attempt>, maxRetries: int) {
    && |attempts| <= Max(maxRetries + 1, 0)
    && (result.Err? <==> AllFailed(attempts))
    && (result.Ok? ==> attempts != [] && attempts[|attempts| - 1].ran && attempts[|attempts| - 1].outcome == result)
    && (result.Err? ==>
          |attempts| == Max(maxRetries + 1, 0) && result.error == ClientError(LastError(attempts)))
  }

  lemma NothingTried(fp: Float, r: RetryManager, trace: seq<Event>, now: Time)
    ensures Rested(fp, r, trace, [], now) && AllFailed([]) && LastError([]) == None
  {}

  lemma Succeeded(attempts: seq<Attempt>, a: Attempt, maxRetries: int)
    requires a.ran && a.outcome.Ok? && |attempts| <= maxRetries
    ensures Verdict(a.outcome, attempts + [a], maxRetries)
  {
    var more := attempts + [a];
    assert more[|attempts|] == a;
  }

  lemma GaveUp(attempts: seq<Attempt>, maxRetries: int)
    requires AllFailed(attempts) && |attempts| == Max(maxRetries + 1, 0)
    ensures Verdict(Err(ClientError(LastError(attempts))), attempts, maxRetries)
  {
    hide LastError;
  }

  lemma NowRested(fp: Float, r: RetryManager, trace: seq<Event>, attempts: seq<Attempt>, now: Time)
    requires attempts != [] && attempts[|attempts| - 1].end < |trace|
    requires now >= EndOf(trace, attempts[|attempts| - 1]) + Max(CalculateBackoff(fp, r, |attempts| - 1), 0)
    ensures Rested(fp, r, trace, attempts, now)
  {}

  /** time.Sleep between two attempts: the breaker's run is still timed afterwards. */
  method Wait(breaker: CircuitBreaker, clock: Clock, d: Duration)
    requires breaker.Valid(clock)
    modifies clock
    ensures breaker.Valid(clock) && clock.now >= old(clock.now) + Max(d, 0)
  {
    clock.Sleep(d);
    Breaker.TimedLater(breaker.trace, old(clock.now), clock.now);
  }

  /**
   GetConfigValue.  Past the checks for a usable plugin it returns a value if and
   only if an admitted attempt succeeded, namely the last one, and the value is
   that attempt's, which the server once had for exactly this namespace and key.  On
   failure every allowed attempt was made, and the cause is the error of the last one
   that ran, or nil if the breaker refused them all.
   */
  method GetConfigValue(initialized: bool, destroyed: bool, breaker: CircuitBreaker?, retry: Option<RetryManager>,
                        clock: Clock, fp: Float, cache: CacheObject.ConfigCache, service: Service,
                        enableCache: bool, i: Cache.Item)
    returns (result: Result<string, Error>, ghost attempts: seq<Attempt>)
    requires cache.Valid() && (breaker != null ==> breaker.Valid(clock))
    modifies clock, cache, if breaker == null then {} else {breaker}
    ensures cache.Valid() && old(cache.steps) <= cache.steps
    ensures !initialized || destroyed || breaker == null || retry == None ==>
              result.Err? && result.error.InitError? && attempts == []
    ensures initialized && !destroyed && breaker != null && retry != None ==>
              && breaker.Valid(clock) && old(breaker.trace) <= breaker.trace
              && Turns(breaker.threshold, fp, retry.value, |old(breaker.trace)|, breaker.trace, attempts)
              && Verdict(result, attempts, retry.value.maxRetries)
              && Visits(cache.steps, |old(cache.steps)|, service, enableCache, i, attempts)
    ensures result.Ok? ==> Answers(cache.steps, i, result.value)
  {
    hide Turns, Verdict, Answers, Visits, Breaker.Exec, Breaker.Timed, WellFormed, InFlight;
    hide Cache.Exec, CacheObject.Values;
    if !initialized {
      return Err(InitError("Apollo plugin not initialized")), [];
    }
    if destroyed {
      return Err(InitError("Apollo plugin has been destroyed")), [];
    }
    if breaker == null || retry == None {
      return Err(InitError("Apollo resilience components are not initialized")), [];
    }
    result, attempts := ReadWithRetry(breaker, retry.value, clock, fp, cache, service, enableCache, i);
  }

  // ---- what a trip does to the call that caused it ------------------------------

  /** Nothing forces the breaker closed between two events of its run. */
  ghost predicate NoForceClose(trace: seq<Event>, from: nat, to: nat)
    requires to <= |trace|
  {
    forall m :: from < m < to ==> !trace[m].ForceClose?
  }

  /** Attempt i trips the breaker: it was not open before the outcome and is open after it. */
  ghost predicate TripsAt(threshold: real, trace: seq<Event>, a: Attempt)
    requires a.end < |trace|
  {
    && a.ran
    && Breaker.Exec(threshold, trace[..a.end]).state != Breaker.Open
    && Breaker.Exec(threshold, trace[..a.end + 1]).state == Breaker.Open
  }

  lemma {:induction false} TurnsOrdered(threshold: real, fp: Float, r: RetryManager, start: nat,
                                        trace: seq<Event>, attempts: seq<Attempt>, i: nat, k: nat)
    requires Turns(threshold, fp, r, start, trace, attempts) && i < k < |attempts|
    ensures Recorded(threshold, trace, attempts[i]) && Recorded(threshold, trace, attempts[k])
    ensures attempts[i].end < attempts[k].begin
  {
    if i + 1 < k {
      TurnsOrdered(threshold, fp, r, start, trace, attempts, i, k - 1);
    }
  }

  /**
   If an attempt of a call trips the breaker and nobody forces it closed, no later
   attempt of the same call runs until more than 30s have passed, whatever the
   other users of the breaker do.
   */
  lemma TripSilencesCall(threshold: real, fp: Float, r: RetryManager, start: nat, trace: seq<Event>, now: Time,
                         attempts: seq<Attempt>, i: nat, k: nat)
    requires Breaker.Timed(trace, now) && Turns(threshold, fp, r, start, trace, attempts) && i < k < |attempts|
    requires attempts[i].end < |trace| && TripsAt(threshold, trace, attempts[i])
    requires attempts[k].begin < |trace| && NoForceClose(trace, attempts[i].end, attempts[k].begin)
    requires trace[attempts[k].begin].at <= EndOf(trace, attempts[i]) + 30 * SECOND
    ensures !attempts[k].ran
  {
    TurnsOrdered(threshold, fp, r, start, trace, attempts, i, k);
    var j := attempts[i].end;
    OpensOnlyByStamp(threshold, trace, j);
    HoldOffOnceOpen(threshold, trace, now, j, attempts[k].begin);
  }

  /** The backoffs are slept exactly, and refused attempts take no time. */
  ghost predicate ExactSleeps(r: RetryManager, trace: seq<Event>, attempts: seq<Attempt>, i: nat)
    requires forall k :: 0 <= k < |attempts| ==> attempts[k].begin < |trace| && attempts[k].end < |trace|
  {
    forall k :: i < k < |attempts| ==> trace[attempts[k].begin].at == EndOf(trace, attempts[k - 1]) + Backoff(r, k - 1)
  }

  /** With exact sleeps every later attempt that starts within the period is refused. */
  lemma {:induction false} ExactSleepsSilence(threshold: real, fp: Float, r: RetryManager, start: nat,
                                              trace: seq<Event>, now: Time,
                                              attempts: seq<Attempt>, i: nat, k: nat)
    requires Breaker.Timed(trace, now) && Turns(threshold, fp, r, start, trace, attempts) && i < k < |attempts|
    requires forall m :: 0 <= m < |attempts| ==> Recorded(threshold, trace, attempts[m])
    requires TripsAt(threshold, trace, attempts[i]) && NoForceClose(trace, attempts[i].end, |trace|)
    requires r.retryInterval >= 0 && ExactSleeps(r, trace, attempts, i)
    requires TotalBackoff(r, i, k) <= 30 * SECOND
    ensures !attempts[k].ran
    ensures trace[attempts[k].begin].at == EndOf(trace, attempts[i]) + TotalBackoff(r, i, k)
    decreases k
  {
    hide Turns, Recorded, TripsAt, Breaker.Exec, Breaker.Timed, CalculateBackoff, Backoff;
    TurnsOrdered(threshold, fp, r, start, trace, attempts, i, k);
    AllWithin(threshold, trace, attempts);
    SleptUntil(r, trace, attempts, i, k);
    if i + 1 < k {
      BackoffGrows(r, k - 1, k - 1);
      ExactSleepsSilence(threshold, fp, r, start, trace, now, attempts, i, k - 1);
      RefusedAtOnce(threshold, trace, attempts[k - 1]);
    }
    TripSilencesCall(threshold, fp, r, start, trace, now, attempts, i, k);
  }

  lemma SleptUntil(r: RetryManager, trace: seq<Event>, attempts: seq<Attempt>, i: nat, k: nat)
    requires forall m :: 0 <= m < |attempts| ==> attempts[m].begin < |trace| && attempts[m].end < |trace|
    requires ExactSleeps(r, trace, attempts, i) && i < k < |attempts|
    ensures trace[attempts[k].begin].at == EndOf(trace, attempts[k - 1]) + Backoff(r, k - 1)
    ensures TotalBackoff(r, i, k) == TotalBackoff(r, i, k - 1) + Backoff(r, k - 1)
    ensures i + 1 == k ==> TotalBackoff(r, i, k - 1) == 0
  {}

  lemma AllWithin(threshold: real, trace: seq<Event>, attempts: seq<Attempt>)
    requires forall m :: 0 <= m < |attempts| ==> Recorded(threshold, trace, attempts[m])
    ensures forall m :: 0 <= m < |attempts| ==> attempts[m].begin < |trace| && attempts[m].end < |trace|
  {}

  /** A refused attempt ends when it begins. */
  lemma RefusedAtOnce(threshold: real, trace: seq<Event>, a: Attempt)
    requires Recorded(threshold, trace, a) && !a.ran
    ensures EndOf(trace, a) == trace[a.begin].at
  {}

  /** If no attempt after attempt i ran, the cause of the failure is the error of attempt i. */
  lemma {:induction false} LastErrorIs(attempts: seq<Attempt>, i: nat)
    requires i < |attempts| && attempts[i].ran && attempts[i].outcome.Err?
    requires forall k :: i < k < |attempts| ==> !attempts[k].ran
    ensures LastError(attempts) == Some(attempts[i].outcome.error)
  {
    if i < |attempts| - 1 {
      LastErrorIs(attempts[..|attempts| - 1], i);
    }
  }

  /**
   With the retry manager built from settings that omit retries and interval (three
   retries, after 1s, 2s and 4s) and exact sleeps, an attempt that trips the breaker is
   the last one of its call that runs, and its error is the cause the caller gets.
   */
  lemma DefaultCallEndsWithTrip(s: Settings, threshold: real, fp: Float, start: nat, trace: seq<Event>, now: Time,
                                attempts: seq<Attempt>, i: nat)
    requires s.maxRetryTimes == 0 && s.retryInterval == None
    requires Breaker.Timed(trace, now) && i < |attempts| <= BuildRetry(s).maxRetries + 1
    requires Turns(threshold, fp, BuildRetry(s), start, trace, attempts)
    requires forall m :: 0 <= m < |attempts| ==> Recorded(threshold, trace, attempts[m])
    requires TripsAt(threshold, trace, attempts[i]) && NoForceClose(trace, attempts[i].end, |trace|)
    requires ExactSleeps(BuildRetry(s), trace, attempts, i)
    ensures forall k :: i < k < |attempts| ==> !attempts[k].ran
    ensures attempts[i].outcome.Err? && LastError(attempts) == Some(attempts[i].outcome.error)
  {
    var r := BuildRetry(s);
    BuiltAsConfigured(s);
    assert r == RetryManager(3, SECOND);
    OpensOnlyByStamp(threshold, trace, attempts[i].end);
    forall k | i < k < |attempts| ensures !attempts[k].ran {
      DefaultBackoffs(i, k);
      ExactSleepsSilence(threshold, fp, r, start, trace, now, attempts, i, k);
    }
    LastErrorIs(attempts, i);
  }

  lemma DefaultBackoffs(i: nat, k: nat)
    requires i < k < 4
    ensures TotalBackoff(RetryManager(3, SECOND), i, k) <= 7 * SECOND
  {
    var r := RetryManager(3, SECOND);
    assert Pow2(0) == 1 && Pow2(1) == 2 && Pow2(2) == 4;
    assert Backoff(r, 0) == SECOND && Backoff(r, 1) == 2 * SECOND && Backoff(r, 2) == 4 * SECOND;
    assert TotalBackoff(r, 0, 0) == TotalBackoff(r, 1, 1) == TotalBackoff(r, 2, 2) == 0;
  }
}
