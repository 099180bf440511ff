/**
 The calls that the framework makes on the plugin over its life, one after the
 other and in any order: InitializeResources, startup and cleanup.
 */
module Lifecycle {
  /** The flags of PlugApollo, and whether it has a configuration. */
  datatype Phase = Phase(initialized: bool, destroyed: bool, configured: bool)

  datatype Call =
    | Initialize(base: bool)   // base: the framework's part of it succeeds
    | Startup(passes: bool)    // passes: context, settings and all phases are in order
    | Cleanup

  const Fresh := Phase(false, false, false)

  function After(p: Phase, c: Call): Phase {
    match c
    case Initialize(base) => if base then p.(destroyed := false, configured := true) else p
    case Startup(_) => if Starts(p, c) then p.(initialized := true) else p
    case Cleanup => if TearsDown(p, c) then p.(initialized := false, destroyed := true) else p
  }

  /** The call starts the plugin up; startup does not look at destroyed. */
  predicate Starts(p: Phase, c: Call) {
    c.Startup? && c.passes && p.configured && !p.initialized
  }

  predicate TearsDown(p: Phase, c: Call) {
    c.Cleanup? && p.initialized && !p.destroyed
  }

  /** Reads are accepted. */
  predicate Usable(p: Phase) { p.initialized && !p.destroyed }

  /** The plugin runs, but every read is refused and no cleanup tears it down. */
  predicate Stranded(p: Phase) { p.initialized && p.destroyed }

  function Exec(cs: seq<Call>): Phase {
    if cs == [] then Fresh else After(Exec(cs[..|cs| - 1]), cs[|cs| - 1])
  }

  /** After a startup reads are accepted, and the next cleanup tears down, exactly if destroyed was not set. */
  lemma StartupDecides(p: Phase, c: Call)
    requires Starts(p, c)
    ensures Usable(After(p, c)) <==> !p.destroyed
    ensures TearsDown(After(p, c), Cleanup) <==> !p.destroyed
    ensures Stranded(After(p, c)) <==> p.destroyed
  {}

  // ---- how the plugin gets stranded ---------------------------------------------------

  predicate TearsDownAt(cs: seq<Call>, j: nat) { j < |cs| && TearsDown(Exec(cs[..j]), cs[j]) }

  predicate StartsAt(cs: seq<Call>, k: nat) { k < |cs| && Starts(Exec(cs[..k]), cs[k]) }

  predicate NotInitializedSince(cs: seq<Call>, j: nat) {
    forall i :: j < i < |cs| ==> cs[i] != Initialize(true)
  }

  ghost predicate TornDown(cs: seq<Call>) {
    exists j: nat :: TearsDownAt(cs, j) && NotInitializedSince(cs, j)
  }

  ghost predicate RestartedAfter(cs: seq<Call>, j: nat) {
    exists k: nat :: j < k && StartsAt(cs, k)
  }

  /** A cleanup tore the plugin down, and it was started again without InitializeResources in between or since. */
  ghost predicate RestartedDestroyed(cs: seq<Call>) {
    exists j: nat :: TearsDownAt(cs, j) && NotInitializedSince(cs, j) && RestartedAfter(cs, j)
  }

  lemma AtLater(cs: seq<Call>, c: Call, j: nat)
    requires j < |cs|
    ensures TearsDownAt(cs + [c], j) == TearsDownAt(cs, j) && StartsAt(cs + [c], j) == StartsAt(cs, j)
    ensures NotInitializedSince(cs + [c], j) <==> NotInitializedSince(cs, j) && c != Initialize(true)
  {
    var ds := cs + [c];
    assert ds[..j] == cs[..j] && ds[|cs|] == c;
    assert forall i :: 0 <= i < |cs| ==> ds[i] == cs[i];
  }

  lemma AtLast(cs: seq<Call>, c: Call)
    ensures Exec(cs + [c]) == After(Exec(cs), c)
    ensures TearsDownAt(cs + [c], |cs|) == TearsDown(Exec(cs), c) && StartsAt(cs + [c], |cs|) == Starts(Exec(cs), c)
    ensures NotInitializedSince(cs + [c], |cs|)
  {
    assert (cs + [c])[..|cs|] == cs;
  }

  lemma TornDownSnoc(cs: seq<Call>, c: Call)
    ensures TornDown(cs + [c]) <==> TearsDown(Exec(cs), c) || (TornDown(cs) && c != Initialize(true))
  {
    hide TearsDownAt, StartsAt, NotInitializedSince, Exec, TearsDown;
    AtLast(cs, c);
    BoundedBy(cs, c);
    forall j: nat | j < |cs| ensures TearsDownAt(cs + [c], j) == TearsDownAt(cs, j)
      ensures NotInitializedSince(cs + [c], j) <==> NotInitializedSince(cs, j) && c != Initialize(true)
    {
      AtLater(cs, c, j);
    }
  }

  lemma BoundedBy(cs: seq<Call>, c: Call)
    ensures forall j: nat :: TearsDownAt(cs, j) || StartsAt(cs, j) ==> j < |cs|
    ensures forall j: nat :: TearsDownAt(cs + [c], j) || StartsAt(cs + [c], j) ==> j <= |cs|
  {}

  lemma RestartedSnoc(cs: seq<Call>, c: Call)
    ensures RestartedDestroyed(cs + [c]) <==>
              (RestartedDestroyed(cs) && c != Initialize(true)) || (TornDown(cs) && Starts(Exec(cs), c))
  {
    var ds := cs + [c];
    if RestartedDestroyed(ds) {
      var j: nat :| TearsDownAt(ds, j) && NotInitializedSince(ds, j) && RestartedAfter(ds, j);
      var k: nat :| j < k && StartsAt(ds, k);
      RestartedBack(cs, c, j, k);
    }
    if RestartedDestroyed(cs) && c != Initialize(true) {
      var j: nat :| TearsDownAt(cs, j) && NotInitializedSince(cs, j) && RestartedAfter(cs, j);
      var k: nat :| j < k && StartsAt(cs, k);
      AtLater(cs, c, j);
      AtLater(cs, c, k);
      assert RestartedAfter(ds, j);
    }
    if TornDown(cs) && Starts(Exec(cs), c) {
      var j: nat :| TearsDownAt(cs, j) && NotInitializedSince(cs, j);
      AtLater(cs, c, j);
      AtLast(cs, c);
      assert RestartedAfter(ds, j);
    }
  }

  lemma RestartedBack(cs: seq<Call>, c: Call, j: nat, k: nat)
    requires TearsDownAt(cs + [c], j) && NotInitializedSince(cs + [c], j) && j < k && StartsAt(cs + [c], k)
    ensures (RestartedDestroyed(cs) && c != Initialize(true)) || (TornDown(cs) && Starts(Exec(cs), c))
  {
    AtLater(cs, c, j);
    if k < |cs| {
      AtLater(cs, c, k);
      assert RestartedAfter(cs, j);
    } else {
      AtLast(cs, c);
    }
  }

  /**
   Exactly when the plugin is stranded, over every sequence of calls: a cleanup tore
   it down, and it was then started again, with no InitializeResources since that
   cleanup.  And destroyed is set exactly between such a cleanup and the next
   InitializeResources.
   */
  lemma {:induction false} StrandedExactly(cs: seq<Call>)
    ensures Exec(cs).destroyed <==> TornDown(cs)
    ensures Stranded(Exec(cs)) <==> RestartedDestroyed(cs)
  {
    if cs != [] {
      var n := |cs| - 1;
      assert cs[..n] + [cs[n]] == cs;
      StrandedExactly(cs[..n]);
      TornDownSnoc(cs[..n], cs[n]);
      RestartedSnoc(cs[..n], cs[n]);
      hide TornDown, RestartedDestroyed;
    }
  }

  /** Until InitializeResources a stranded plugin stays so: no call starts it or tears it down. */
  lemma {:induction false} StrandedUntilInitialized(cs: seq<Call>, k: nat)
    requires k <= |cs| && Stranded(Exec(cs[..k])) && forall i :: k <= i < |cs| ==> cs[i] != Initialize(true)
    ensures Stranded(Exec(cs)) && forall i: nat :: k <= i ==> !TearsDownAt(cs, i) && !StartsAt(cs, i)
    decreases |cs|
  {
    if k == |cs| {
      assert cs[..k] == cs;
    } else {
      var n := |cs| - 1;
      assert cs[..n][..k] == cs[..k] && cs[..n] + [cs[n]] == cs;
      StrandedUntilInitialized(cs[..n], k);
      forall i: nat | k <= i ensures !TearsDownAt(cs, i) && !StartsAt(cs, i) {
        if i < n {
          AtLater(cs[..n], cs[n], i);
        }
      }
    }
  }

  /** The shortest way there: started, cleaned up, and started again. */
  lemma RestartStrands()
    ensures Stranded(Exec([Initialize(true), Startup(true), Cleanup, Startup(true)]))
  {
    assert Exec([]) == Fresh;
    AtLast([], Initialize(true));
    AtLast([Initialize(true)], Startup(true));
    AtLast([Initialize(true), Startup(true)], Cleanup);
    AtLast([Initialize(true), Startup(true), Cleanup], Startup(true));
    assert [Initialize(true)] == [] + [Initialize(true)];
    assert [Initialize(true), Startup(true)] == [Initialize(true)] + [Startup(true)];
    assert [Initialize(true), Startup(true), Cleanup] == [Initialize(true), Startup(true)] + [Cleanup];
    assert [Initialize(true), Startup(true), Cleanup, Startup(true)]
        == [Initialize(true), Startup(true), Cleanup] + [Startup(true)];
    StartupDecides(Exec([Initialize(true), Startup(true), Cleanup]), Startup(true));
    hide Exec;
  }

  // ---- clients ------------------------------------------------------------------------

  /** The clients that successful startups have left open, and those that cleanups have closed. */
  function Opened(cs: seq<Call>): nat {
    if cs == [] then 0 else Opened(cs[..|cs| - 1]) + if StartsAt(cs, |cs| - 1) then 1 else 0
  }

  function ClosedAgain(cs: seq<Call>): nat {
    if cs == [] then 0 else ClosedAgain(cs[..|cs| - 1]) + if TearsDownAt(cs, |cs| - 1) then 1 else 0
  }

  /** Every client is closed by one cleanup, but for the one of an initialized plugin. */
  lemma {:induction false} ClientsBalance(cs: seq<Call>)
    ensures Opened(cs) == ClosedAgain(cs) + if Exec(cs).initialized then 1 else 0
  {
    if cs != [] {
      ClientsBalance(cs[..|cs| - 1]);
    }
  }
}
