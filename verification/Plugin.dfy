/**
 PlugApollo (apollo.go, lifecycle_context.go, cleanup.go and the namespace part of
 config.go): initialisation, startup with rollback, teardown, and the resolution
 of namespaces, as operations on one object.  Library calls are parameters that
 say whether they succeed.
 */
module Plugin {
  import opened Common
  import opened Validation
  import opened Retry
  import opened Circuit
  import Breaker
  import Namespaces
  import Lifecycle
  import Cache
  import CacheObject

  class ApolloHTTPClient {
    var closed: bool

    constructor ()
      ensures !closed
    {
      closed := false;
    }

    method Close()
      modifies this
      ensures closed
    {
      closed := true;
    }
  }

  /** What the plugin keeps of a registered ConfigWatcher. */
  class ConfigWatcher {
    var stopped: bool

    constructor ()
      ensures !stopped
    {
      stopped := false;
    }

    method Stop()
      modifies this
      ensures stopped
    {
      stopped := true;
    }
  }

  /** The outcomes of the library calls of one startup, and when its context is seen to have ended. */
  datatype StartupScript = StartupScript(
    ended: nat -> bool,          // at the k-th look at ctx.Err()
    setControlPlane: bool,
    initControlPlaneConfig: bool,
    publishResources: bool,
    loadPlugins: bool)

  /** The phases after the client is set all succeed. */
  predicate PhasesPass(script: StartupScript) {
    && !script.ended(1) && script.setControlPlane
    && !script.ended(2) && script.initControlPlaneConfig
    && !script.ended(3) && script.publishResources
    && !script.ended(4) && script.loadPlugins
  }

  datatype ConfigTarget = ConfigTarget(fileName: string, priority: int, mergeStrategy: string)

  /** One target per namespace, all with the same merge settings. */
  function TargetsOf(names: seq<string>, priority: int, mergeStrategy: string): (targets: seq<ConfigTarget>)
    ensures |targets| == |names|
  {
    seq(|names|, n requires 0 <= n < |names| => ConfigTarget(names[n], priority, mergeStrategy))
  }

  lemma TargetsOfSnoc(names: seq<string>, name: string, priority: int, mergeStrategy: string)
    ensures TargetsOf(names + [name], priority, mergeStrategy)
         == TargetsOf(names, priority, mergeStrategy) + [ConfigTarget(name, priority, mergeStrategy)]
  {}

  function PriorityOf(s: Settings): int {
    if s.serviceConfig.Some? then s.serviceConfig.value.priority else 0
  }

  function StrategyOf(s: Settings): string {
    if s.serviceConfig.Some? then s.serviceConfig.value.mergeStrategy else ""
  }

  /** setDefaultConfig, on the fields that are modelled. */
  function WithDefaults(s: Settings): Settings {
    s.(cluster := if s.cluster == "" then DEFAULT_CLUSTER else s.cluster,
       namespace := if s.namespace == "" then DEFAULT_NAMESPACE else s.namespace,
       timeout := if s.timeout.None? then Some(ProtoDuration(10, 0)) else s.timeout,
       notificationTimeout := if s.notificationTimeout.None? then Some(ProtoDuration(30, 0)) else s.notificationTimeout,
       cacheDir := if s.cacheDir == "" then DEFAULT_CACHE_DIR else s.cacheDir,
       threshold := if s.threshold == 0.0 then DEFAULT_THRESHOLD else s.threshold)
  }

  /** Defaulting fills in what is missing, once, and leaves alone what is given. */
  lemma DefaultsFill(s: Settings)
    ensures WithDefaults(WithDefaults(s)) == WithDefaults(s)
    ensures IsComplete(s) ==> WithDefaults(s) == s
  {}

  predicate IsComplete(s: Settings) {
    && s.cluster != "" && s.namespace != "" && s.timeout.Some? && s.notificationTimeout.Some?
    && s.cacheDir != "" && s.threshold != 0.0
  }

  /** A configuration that gives an application id, a meta server, and nothing else. */
  function Minimal(appId: string, metaServer: string): Settings {
    Settings(appId, "", "", metaServer, "", None, None, false, "", false, 0, None, 0.0, None, "", None)
  }

  /**
   Such a configuration is enough: the defaults complete it to an accepted one, with
   the documented values, and the retry manager has three retries from 1s.
   */
  lemma MinimalSuffices(appId: string, metaServer: string, parse: ParseURL)
    requires AppIdOk(appId) && metaServer != "" && parse(metaServer).Some? && parse(metaServer) != Some("http")
    ensures var d := WithDefaults(Minimal(appId, metaServer));
            && Acceptable(d, parse) && BuildRetry(d) == RetryManager(3, SECOND)
            && d.cluster == "default" && d.namespace == "application" && d.cacheDir == "/tmp/apollo-cache"
            && AsDuration(d.timeout.value) == 10 * SECOND && AsDuration(d.notificationTimeout.value) == 30 * SECOND
            && BuildThreshold(d) == 0.5
  {
    var d := WithDefaults(Minimal(appId, metaServer));
    forall f ensures FieldOk(d, parse, f) {
      match f case _ =>
    }
  }

  /** After defaulting, what is loaded is what is watched: same namespaces, same order, none empty. */
  lemma DefaultedSourcesAreWatched(s: Settings)
    ensures var d := WithDefaults(s);
            && Namespaces.Loaded(d) == Namespaces.Watched(d) && "" !in Namespaces.Loaded(d)
            && |Namespaces.Loaded(d)|
                 == 1 + if s.serviceConfig.None? then 0 else |s.serviceConfig.value.additionalNamespaces|
  {
    Namespaces.LoadedIsWatched(WithDefaults(s));
  }

  class PlugApollo {
    var conf: Conf?
    var client: ApolloHTTPClient?
    var retryManager: Option<RetryManager>
    var circuitBreaker: CircuitBreaker?
    var initialized: bool
    var destroyed: bool
    var healthCheckOpen: bool
    var configWatchers: map<string, ConfigWatcher>
    const cache: CacheObject.ConfigCache

    /** Between lifecycle calls the plugin is initialized if and only if it has a client. */
    ghost predicate Valid()
      reads this
    {
      initialized <==> client != null
    }

    /** The plugin as the framework sees it. */
    ghost function Phase(): Lifecycle.Phase
      reads this
    {
      Lifecycle.Phase(initialized, destroyed, conf != null)
    }

    constructor ()
      ensures Valid() && !initialized && !destroyed && healthCheckOpen
      ensures conf == null && circuitBreaker == null && retryManager == None
      ensures configWatchers == map[] && fresh(cache) && cache.Valid() && Phase() == Lifecycle.Fresh
    {
      conf, client, retryManager, circuitBreaker := null, null, None, null;
      initialized, destroyed, healthCheckOpen := false, false, true;
      configWatchers := map[];
      cache := new CacheObject.ConfigCache();
    }

    // ---- initialisation -------------------------------------------------------------

    method SetDefaultConfig()
      modifies if conf == null then {} else {conf}
      ensures conf != null ==> conf.value == WithDefaults(old(conf.value))
    {
      if conf == null {
        return;
      }
      if conf.value.cluster == "" {
        conf.value := conf.value.(cluster := DEFAULT_CLUSTER);
      }
      if conf.value.namespace == "" {
        conf.value := conf.value.(namespace := DEFAULT_NAMESPACE);
      }
      if conf.value.timeout.None? {
        conf.value := conf.value.(timeout := Some(ProtoDuration(10, 0)));
      }
      if conf.value.notificationTimeout.None? {
        conf.value := conf.value.(notificationTimeout := Some(ProtoDuration(30, 0)));
      }
      if conf.value.cacheDir == "" {
        conf.value := conf.value.(cacheDir := DEFAULT_CACHE_DIR);
      }
      if conf.value.threshold == 0.0 {
        conf.value := conf.value.(threshold := DEFAULT_THRESHOLD);
      }
    }

    /** initComponents: a new breaker and the retry manager, as configured, with defaults for what is not positive. */
    method InitComponents()
      modifies this`retryManager, this`circuitBreaker
      ensures conf != null ==> retryManager == Some(BuildRetry(conf.value))
      ensures retryManager.Some?
      ensures retryManager.value.maxRetries ==
                if conf != null && conf.value.maxRetryTimes > 0 then conf.value.maxRetryTimes else 3
      ensures retryManager.value.retryInterval ==
                if conf != null && conf.value.retryInterval.Some? && AsDuration(conf.value.retryInterval.value) > 0
                then AsDuration(conf.value.retryInterval.value) else SECOND
      ensures circuitBreaker != null && fresh(circuitBreaker)
      ensures circuitBreaker.threshold ==
                if conf != null && conf.value.threshold > 0.0 then conf.value.threshold else 0.5
      ensures circuitBreaker.trace == []
      ensures forall clock: Clock :: circuitBreaker.Valid(clock)
    {
      var maxRetries := DEFAULT_MAX_RETRY_TIMES;
      if conf != null && conf.value.maxRetryTimes > 0 {
        maxRetries := conf.value.maxRetryTimes;
      }
      var retryInterval := DEFAULT_RETRY_INTERVAL;
      if conf != null && conf.value.retryInterval.Some? && AsDuration(conf.value.retryInterval.value) > 0 {
        retryInterval := AsDuration(conf.value.retryInterval.value);
      }
      retryManager := Some(RetryManager(maxRetries, retryInterval));

      var threshold := DEFAULT_THRESHOLD;
      if conf != null && conf.value.threshold > 0.0 {
        threshold := conf.value.threshold;
      }
      circuitBreaker := new CircuitBreaker(threshold);
    }

    /**
     InitializeResources: succeeds exactly when the framework part and the scan
     succeed and the defaulted configuration is acceptable, and then leaves
     resilience components with bounds that make the backoff exact.
     */
    method InitializeResources(baseOk: bool, scanned: Option<Settings>, parse: ParseURL) returns (err: Option<Error>)
      requires Valid()
      modifies this
      ensures Valid() && initialized == old(initialized) && client == old(client)
      ensures Phase() == Lifecycle.After(old(Phase()), Lifecycle.Initialize(baseOk))
      ensures err == None <==> baseOk && scanned.Some? && Acceptable(WithDefaults(scanned.value), parse)
      ensures err == None ==>
                && conf != null && fresh(conf) && conf.value == WithDefaults(scanned.value)
                && retryManager == Some(BuildRetry(conf.value)) && 1 <= retryManager.value.maxRetries <= 10
                && retryManager.value.maxRetries
                   == (if scanned.value.maxRetryTimes == 0 then 3 else scanned.value.maxRetryTimes)
                && circuitBreaker != null && fresh(circuitBreaker) && 0.1 <= circuitBreaker.threshold <= 0.9
                && circuitBreaker.threshold == (if scanned.value.threshold == 0.0 then 0.5 else scanned.value.threshold)
                && (Normal(conf.value.retryInterval) ==> SECOND <= retryManager.value.retryInterval < 31 * SECOND)
    {
      if !baseOk {
        return Some(InitError("base"));
      }
      destroyed := false;
      if scanned.None? {
        var partial: Settings := *;
        conf := new Conf(partial);
        return Some(InitError("scan"));
      }
      conf := new Conf(scanned.value);
      SetDefaultConfig();
      assert WithImplicitDefaults(conf.value) == conf.value;
      var validator := new Validator(conf, parse);
      var result := validator.Validate();
      if !result.isValid {
        return Some(InitError("validation"));
      }
      InitComponents();
      AcceptedBounds(conf.value, parse);
      AcceptedAsConfigured(conf.value, parse);
      return None;
    }

    /** checkInitialized */
    method CheckInitialized() returns (err: Option<Error>)
      ensures err == None <==> Lifecycle.Usable(Phase())
    {
      if !initialized {
        return Some(InitError("Apollo plugin not initialized"));
      }
      if destroyed {
        return Some(InitError("Apollo plugin has been destroyed"));
      }
      return None;
    }

    // ---- startup --------------------------------------------------------------------

    method InitApolloClient() returns (r: Result<ApolloHTTPClient, Error>)
      requires conf != null
      ensures r.Ok? <==> conf.value.metaServer != "" && conf.value.appId != ""
      ensures r.Ok? ==> fresh(r.value) && !r.value.closed
    {
      if conf.value.metaServer == "" {
        return Err(InitError("meta server address is required"));
      }
      if conf.value.appId == "" {
        return Err(InitError("app ID is required"));
      }
      var c := new ApolloHTTPClient();
      return Ok(c);
    }

    /** The phases between setting the client and the end of startup. */
    method RunPhases(script: StartupScript) returns (err: Option<Error>)
      ensures err == None <==> PhasesPass(script)
    {
      if script.ended(1) { return Some(Cancelled); }
      if !script.setControlPlane { return Some(InitError("set control plane")); }
      if script.ended(2) { return Some(Cancelled); }
      if !script.initControlPlaneConfig { return Some(InitError("init control plane config")); }
      if script.ended(3) { return Some(Cancelled); }
      if !script.publishResources { return Some(InitError("publish runtime resources")); }
      if script.ended(4) { return Some(Cancelled); }
      if !script.loadPlugins { return Some(InitError("load dependent plugins")); }
      return None;
    }

    /** Everything that startup checks, but for the flags. */
    ghost predicate StartupPasses(script: StartupScript)
      reads this, if conf == null then {} else {conf}
    {
      && !script.ended(0) && conf != null && conf.value.metaServer != "" && conf.value.appId != ""
      && PhasesPass(script)
    }

    /**
     startupTasksContext: on success the plugin is initialized with a new open
     client.  Whatever phase fails or is cancelled, a failed startup leaves the
     plugin exactly as initialized as it found it, and no client of its own open.
     */
    method StartupTasksContext(script: StartupScript)
      returns (err: Option<Error>, ghost created: ApolloHTTPClient?)
      requires Valid()
      modifies this`client, this`initialized
      ensures Valid()
      ensures err == None <==>
                && !old(initialized) && conf != null && conf.value.metaServer != "" && conf.value.appId != ""
                && !script.ended(0) && !script.ended(1) && !script.ended(2) && !script.ended(3) && !script.ended(4)
                && script.setControlPlane && script.initControlPlaneConfig
                && script.publishResources && script.loadPlugins
      ensures Phase() == Lifecycle.After(old(Phase()), Lifecycle.Startup(StartupPasses(script)))
      ensures err == None ==> initialized && client != null && client == created && fresh(client) && !client.closed
      ensures err != None ==> initialized == old(initialized) && client == old(client)
      ensures err != None && created != null ==> fresh(created) && created.closed
    {
      created := null;
      if script.ended(0) {
        return Some(Cancelled), null;
      }
      if initialized {
        return Some(InitError("Apollo plugin already initialized")), null;
      }
      if conf == null {
        return Some(InitError("configuration is required")), null;
      }
      var c := InitApolloClient();
      if c.Err? {
        return Some(c.error), null;
      }
      client := c.value;
      created := c.value;
      initialized := true;
      err := RunPhases(script);
      if err != None {
        initialized := false;
        if client != null {
          client.Close();
          client := null;
        }
      }
    }

    // ---- teardown -------------------------------------------------------------------

    method StopHealthCheck()
      modifies this`healthCheckOpen
      ensures !healthCheckOpen
    {
      healthCheckOpen := false;
    }

    /** Stops every registered watcher and empties the map. */
    method CleanupWatchers()
      modifies this`configWatchers, configWatchers.Values
      ensures configWatchers == map[]
      ensures forall ns :: ns in old(configWatchers) ==> old(configWatchers)[ns].stopped
    {
      var left := configWatchers.Keys;
      while left != {}
        invariant left <= configWatchers.Keys && configWatchers == old(configWatchers)
        invariant forall ns :: ns in configWatchers && ns !in left ==> configWatchers[ns].stopped
        decreases left
      {
        var ns :| ns in left;
        configWatchers[ns].Stop();
        left := left - {ns};
      }
      configWatchers := map[];
    }

    method CloseClientConnection()
      modifies this`client, if client == null then {} else {client}
      ensures client == null && (old(client) != null ==> old(client).closed)
    {
      var c := client;
      client := null;
      if c != null {
        c.Close();
      }
    }

    method ReleaseMemoryResources(clock: Clock)
      requires cache.Valid() && (circuitBreaker != null ==> circuitBreaker.Valid(clock))
      modifies this`retryManager, this`circuitBreaker, cache
      modifies if circuitBreaker == null then {} else {circuitBreaker}
      ensures retryManager == None && circuitBreaker == null
      ensures cache.Valid() && cache.configCache == map[] && cache.steps == old(cache.steps) + [Cache.Clear]
      ensures old(circuitBreaker) != null ==>
                old(circuitBreaker).Valid(clock) && old(circuitBreaker).state == Breaker.Closed
    {
      var breaker := circuitBreaker;
      retryManager, circuitBreaker := None, null;
      if breaker != null {
        breaker.ForceClose(clock);
        Breaker.ExecSnoc(breaker.threshold, old(breaker.trace), Breaker.ForceClose(clock.now));
      }
      cache.ClearConfigCache();
    }

    method StopBackgroundTasks()
      modifies this`retryManager
      ensures retryManager == None
    {
      retryManager := None;
    }

    /**
     cleanupTasksContext: tears down if the plugin is initialized and not yet
     destroyed, completely and whether or not the context has ended, which only
     shows in the result; otherwise it does nothing.
     */
    method CleanupTasksContext(ended: bool, clock: Clock) returns (err: Option<Error>)
      requires Valid() && cache.Valid()
      requires circuitBreaker != null ==> circuitBreaker.Valid(clock)
      modifies this, cache, configWatchers.Values, if client == null then {} else {client}
      modifies if circuitBreaker == null then {} else {circuitBreaker}
      ensures Valid()
      ensures Phase() == Lifecycle.After(old(Phase()), Lifecycle.Cleanup)
      ensures !Lifecycle.TearsDown(old(Phase()), Lifecycle.Cleanup) ==>
                && err == None && unchanged(this, cache) && unchanged(old(configWatchers).Values)
                && (client != null ==> unchanged(client))
                && (circuitBreaker != null ==> unchanged(circuitBreaker))
      ensures Lifecycle.TearsDown(old(Phase()), Lifecycle.Cleanup) ==>
                && (err != None <==> ended) && destroyed && !initialized && client == null && old(client).closed
                && circuitBreaker == null && retryManager == None && cache.configCache == map[] && !healthCheckOpen
                && configWatchers == map[]
                && forall ns :: ns in old(configWatchers) ==> old(configWatchers)[ns].stopped
    {
      if !initialized {
        return None;
      }
      if destroyed {
        return None;
      }
      destroyed := true;
      Teardown(clock);
      initialized := false;
      if ended {
        return Some(Cancelled);
      }
      return None;
    }

    /** The five steps of the teardown, in dependency order. */
    method Teardown(clock: Clock)
      requires cache.Valid()
      requires circuitBreaker != null ==> circuitBreaker.Valid(clock)
      modifies this`healthCheckOpen, this`configWatchers, this`client
      modifies this`retryManager, this`circuitBreaker, cache
      modifies configWatchers.Values, if client == null then {} else {client}
      modifies if circuitBreaker == null then {} else {circuitBreaker}
      ensures client == null && (old(client) != null ==> old(client).closed)
      ensures circuitBreaker == null && retryManager == None && cache.configCache == map[] && !healthCheckOpen
      ensures configWatchers == map[]
      ensures forall ns :: ns in old(configWatchers) ==> old(configWatchers)[ns].stopped
    {
      hide *;
      StopHealthCheck();
      CleanupWatchers();
      CloseClientConnection();
      ReleaseMemoryResources(clock);
      StopBackgroundTasks();
    }

    // ---- namespaces -----------------------------------------------------------------

    /** GetConfig: the namespace of the source it returns. */
    method GetConfig(fileName: string) returns (r: Result<string, Error>)
      requires initialized && !destroyed && client != null ==> conf != null
      ensures r.Ok? <==> initialized && !destroyed && client != null
      ensures r.Ok? ==> r.value == if fileName == "" then conf.value.namespace else fileName
    {
      var err := CheckInitialized();
      if err != None {
        return Err(err.value);
      }
      if client == null {
        return Err(InitError("Apollo client is nil"));
      }
      var namespace := fileName;
      if namespace == "" {
        namespace := conf.value.namespace;
      }
      return Ok(namespace);
    }

    method GetMainConfigSource() returns (r: Result<string, Error>)
      requires conf != null
      ensures r.Ok? <==> initialized && !destroyed && client != null
      ensures r.Ok? ==> r.value == Namespaces.Loaded(conf.value)[0]
    {
      var namespace: string;
      if conf.value.serviceConfig.None? {
        namespace := conf.value.namespace;
        if namespace == "" {
          namespace := DEFAULT_NAMESPACE;
        }
      } else {
        namespace := conf.value.serviceConfig.value.namespace;
        if namespace == "" {
          namespace := conf.value.namespace;
        }
      }
      r := GetConfig(namespace);
    }

    method GetAdditionalConfigSources() returns (r: Result<seq<string>, Error>)
      requires conf != null
      ensures initialized && !destroyed && client != null ==> r.Ok?
      ensures r.Ok? ==> r.value == Namespaces.Additional(conf.value)
    {
      if conf.value.serviceConfig.None? || |conf.value.serviceConfig.value.additionalNamespaces| == 0 {
        assert Namespaces.Additional(conf.value) == [];
        return Ok([]);
      }
      var sc := conf.value.serviceConfig.value;
      var sources := [];
      var i := 0;
      while i < |sc.additionalNamespaces|
        invariant 0 <= i <= |sc.additionalNamespaces|
        invariant sources == Namespaces.Additional(conf.value)[..i]
      {
        var namespace := sc.additionalNamespaces[i];
        if namespace == "" {
          namespace := sc.namespace;
        }
        if namespace == "" {
          namespace := conf.value.namespace;
        }
        var source := GetConfig(namespace);
        if source.Err? {
          return Err(source.error);
        }
        sources := sources + [source.value];
        i := i + 1;
      }
      return Ok(sources);
    }

    /** GetConfigSources: the namespaces of the sources, in order. */
    method GetConfigSources() returns (r: Result<seq<string>, Error>)
      requires initialized && !destroyed ==> conf != null
      ensures r.Ok? <==> initialized && !destroyed && client != null
      ensures r.Ok? ==> r.value == Namespaces.Loaded(conf.value)
      ensures r.Ok? && conf.value.serviceConfig.Some? ==>
                var names := conf.value.serviceConfig.value.additionalNamespaces;
                |r.value| == 1 + |names| &&
                forall n :: 0 <= n < |names| && names[n] != "" ==> r.value[n + 1] == names[n]
    {
      var err := CheckInitialized();
      if err != None {
        return Err(err.value);
      }
      Namespaces.LoadedInPlace(conf.value);
      var main := GetMainConfigSource();
      if main.Err? {
        return Err(main.error);
      }
      var more := GetAdditionalConfigSources();
      if more.Err? {
        return more;
      }
      return Ok([main.value] + more.value);
    }

    /** GetConfigWatchTargets: one target per watched namespace, all with the service's merge settings. */
    method GetConfigWatchTargets() returns (r: Result<seq<ConfigTarget>, Error>)
      requires initialized && !destroyed ==> conf != null
      ensures r.Ok? <==> initialized && !destroyed
      ensures r.Ok? ==>
                r.value == TargetsOf(Namespaces.Watched(conf.value), PriorityOf(conf.value), StrategyOf(conf.value))
      ensures r.Ok? ==>
                && |r.value| == |Namespaces.Watched(conf.value)|
                && forall n :: 0 <= n < |r.value| ==>
                     && r.value[n].fileName == Namespaces.Watched(conf.value)[n]
                     && match conf.value.serviceConfig
                        case None => r.value[n].priority == 0 && r.value[n].mergeStrategy == ""
                        case Some(sc) =>
                          r.value[n].priority == sc.priority && r.value[n].mergeStrategy == sc.mergeStrategy
    {
      var err := CheckInitialized();
      if err != None {
        return Err(err.value);
      }
      var s := conf.value;
      var mainNamespace, mainPriority, mainStrategy := s.namespace, 0, "";
      if s.serviceConfig.Some? {
        if s.serviceConfig.value.namespace != "" {
          mainNamespace := s.serviceConfig.value.namespace;
        }
        mainPriority := s.serviceConfig.value.priority;
        mainStrategy := s.serviceConfig.value.mergeStrategy;
      }
      if mainNamespace == "" {
        mainNamespace := DEFAULT_NAMESPACE;
      }
      var targets := [ConfigTarget(mainNamespace, mainPriority, mainStrategy)];
      TargetsOfSnoc([], mainNamespace, mainPriority, mainStrategy);
      assert [] + [mainNamespace] == [mainNamespace];
      assert Namespaces.Watched(s) == [mainNamespace] + Namespaces.NonEmpty(Namespaces.Additional(s));
      if s.serviceConfig.None? {
        return Ok(targets);
      }
      targets := AppendTargets(s, targets, mainNamespace);
      return Ok(targets);
    }
  }

  /** The loop over the additional namespaces, which skips those that resolve to nothing. */
  method AppendTargets(s: Settings, main: seq<ConfigTarget>, ghost name: string) returns (targets: seq<ConfigTarget>)
    requires s.serviceConfig.Some? && main == TargetsOf([name], PriorityOf(s), StrategyOf(s))
    ensures targets
         == TargetsOf([name] + Namespaces.NonEmpty(Namespaces.Additional(s)), PriorityOf(s), StrategyOf(s))
  {
    var sc := s.serviceConfig.value;
    ghost var all := Namespaces.Additional(s);
    ghost var names := [name];
    Namespaces.AdditionalNames(s);
    Namespaces.KeptAll(name, all);
    hide TargetsOf, Namespaces.Additional, Namespaces.Kept;
    targets := main;
    var i := 0;
    while i < |sc.additionalNamespaces|
      invariant 0 <= i <= |sc.additionalNamespaces|
      invariant targets == TargetsOf(names, sc.priority, sc.mergeStrategy)
      invariant names == Namespaces.Kept(name, all, i)
    {
      var namespace := sc.additionalNamespaces[i];
      if namespace == "" {
        namespace := sc.namespace;
      }
      if namespace == "" {
        namespace := s.namespace;
      }
      assert namespace == Namespaces.Fallback(s, sc, sc.additionalNamespaces[i]) == all[i];
      Namespaces.KeptSnoc(name, all, i);
      if namespace != "" {
        targets := targets + [ConfigTarget(namespace, sc.priority, sc.mergeStrategy)];
        TargetsOfSnoc(names, namespace, sc.priority, sc.mergeStrategy);
        names := names + [namespace];
      }
      i := i + 1;
    }
  }
}
