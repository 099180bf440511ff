/**
 Which namespaces a configuration stands for (config.go).  Two pieces of code
 resolve them independently: GetConfigSources, which loads them, and
 GetConfigWatchTargets, which says what to watch.
 */
module Namespaces {
  import opened Common
  import opened Validation

  /** An additional namespace, with the fallbacks of both loops. */
  function Fallback(s: Settings, sc: ServiceConfig, namespace: string): string {
    if namespace != "" then namespace
    else if sc.namespace != "" then sc.namespace
    else s.namespace
  }

  function Additional(s: Settings): seq<string> {
    match s.serviceConfig
    case None => []
    case Some(sc) => seq(|sc.additionalNamespaces|, i requires 0 <= i < |sc.additionalNamespaces| =>
                       Fallback(s, sc, sc.additionalNamespaces[i]))
  }

  lemma AdditionalNames(s: Settings)
    requires s.serviceConfig.Some?
    ensures var sc := s.serviceConfig.value;
            && |Additional(s)| == |sc.additionalNamespaces|
            && forall i :: 0 <= i < |sc.additionalNamespaces| ==>
                 Additional(s)[i] == Fallback(s, sc, sc.additionalNamespaces[i])
  {}

  /** The namespaces that are loaded: GetConfig falls back to the configured one, which may be empty. */
  function Loaded(s: Settings): seq<string> {
    [match s.serviceConfig
     case None => if s.namespace == "" then DEFAULT_NAMESPACE else s.namespace
     case Some(sc) => if sc.namespace == "" then s.namespace else sc.namespace] + Additional(s)
  }

  /**
   What is loaded, place by place: the service's namespace or else the configured one
   first, and then each additional name in its own place, where an empty one becomes the
   service's, or else the configured one.
   */
  lemma LoadedInPlace(s: Settings)
    ensures s.serviceConfig.None? ==> Loaded(s) == [if s.namespace == "" then "application" else s.namespace]
    ensures s.serviceConfig.Some? ==>
              var sc := s.serviceConfig.value;
              var inherited := if sc.namespace == "" then s.namespace else sc.namespace;
              && |Loaded(s)| == 1 + |sc.additionalNamespaces| && Loaded(s)[0] == inherited
              && forall n :: 0 <= n < |sc.additionalNamespaces| ==>
                   Loaded(s)[n + 1] ==
                     if sc.additionalNamespaces[n] == "" then inherited else sc.additionalNamespaces[n]
  {
    if s.serviceConfig.Some? {
      AdditionalNames(s);
    }
  }

  function NonEmpty(names: seq<string>): (r: seq<string>)
    ensures "" !in r && |r| <= |names|
  {
    if names == [] then []
    else
      var n := |names| - 1;
      NonEmpty(names[..n]) + if names[n] == "" then [] else [names[n]]
  }

  lemma NonEmptySnoc(names: seq<string>, i: nat)
    requires i < |names|
    ensures NonEmpty(names[..i + 1])
         == if names[i] == "" then NonEmpty(names[..i]) else NonEmpty(names[..i]) + [names[i]]
  {
    assert names[..i + 1][..i] == names[..i];
    assert NonEmpty(names[..i]) + [] == NonEmpty(names[..i]);
  }

  /** The main namespace and those of the first n others that are not empty. */
  function Kept(main: string, names: seq<string>, n: nat): seq<string>
    requires n <= |names|
  {
    [main] + NonEmpty(names[..n])
  }

  lemma KeptSnoc(main: string, names: seq<string>, n: nat)
    requires n < |names|
    ensures Kept(main, names, n + 1)
         == if names[n] == "" then Kept(main, names, n) else Kept(main, names, n) + [names[n]]
  {
    NonEmptySnoc(names, n);
  }

  lemma KeptAll(main: string, names: seq<string>)
    ensures Kept(main, names, 0) == [main] && Kept(main, names, |names|) == [main] + NonEmpty(names)
  {
    assert names[..|names|] == names;
  }

  /** The namespaces that are watched: the main one falls back to the default, empty ones are skipped. */
  function Watched(s: Settings): seq<string> {
    [if s.serviceConfig.Some? && s.serviceConfig.value.namespace != "" then s.serviceConfig.value.namespace
     else if s.namespace != "" then s.namespace
     else DEFAULT_NAMESPACE] + NonEmpty(Additional(s))
  }

  lemma {:induction false} NonEmptyOfFull(names: seq<string>)
    requires "" !in names
    ensures NonEmpty(names) == names
  {
    if names != [] {
      NonEmptyOfFull(names[..|names| - 1]);
    }
  }

  /** Some namespace is configured, at the top or for the service, or there is no service configuration. */
  predicate HasNamespace(s: Settings) {
    s.namespace != "" || s.serviceConfig.None? || s.serviceConfig.value.namespace != ""
  }

  /**
   The two agree, in order and number, exactly when some namespace is configured
   or there is no service configuration; then none of them is empty.  Settings
   whose namespace was defaulted always qualify.
   */
  lemma LoadedIsWatched(s: Settings)
    ensures Loaded(s) == Watched(s) <==> HasNamespace(s)
    ensures HasNamespace(s) ==> "" !in Loaded(s)
    ensures HasNamespace(s) ==>
              |Loaded(s)| == 1 + if s.serviceConfig.None? then 0 else |s.serviceConfig.value.additionalNamespaces|
  {
    if HasNamespace(s) {
      assert "" !in Additional(s);
      NonEmptyOfFull(Additional(s));
      assert Loaded(s)[0] == Watched(s)[0] && Loaded(s)[1..] == Additional(s);
    } else {
      assert Loaded(s)[0] == "" && Watched(s)[0] == DEFAULT_NAMESPACE;
    }
  }
}
