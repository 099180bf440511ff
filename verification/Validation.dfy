/**
 The configuration message, its defaults and its validator (conf/defaults.go,
 validator.go), and what an accepted configuration guarantees to the retry
 manager and the circuit breaker that apollo.go builds from it.
 */
module Validation {
  import opened Common
  import opened Floats
  import opened Retry

  const DEFAULT_NAMESPACE := "application"
  const DEFAULT_CLUSTER := "default"
  const DEFAULT_CACHE_DIR := "/tmp/apollo-cache"
  const DEFAULT_MAX_RETRY_TIMES := 3
  const DEFAULT_RETRY_INTERVAL: Duration := SECOND
  const DEFAULT_THRESHOLD := 0.5

  const MIN_RETRY_INTERVAL: Duration := 100 * MILLISECOND
  const MAX_RETRY_INTERVAL: Duration := 30 * SECOND

  /** A protobuf duration. */
  datatype ProtoDuration = ProtoDuration(seconds: int, nanos: int)

  function AsDuration(d: ProtoDuration): Duration { d.seconds * SECOND + d.nanos }

  /** The whole seconds that the validator looks at. */
  function WholeSeconds(d: ProtoDuration): Duration { d.seconds * SECOND }

  datatype ServiceConfig = ServiceConfig(
    namespace: string,
    additionalNamespaces: seq<string>,
    priority: int,
    mergeStrategy: string)

  /** The fields of conf.Apollo that the modelled code reads; strings are byte strings. */
  datatype Settings = Settings(
    appId: string,
    cluster: string,
    namespace: string,
    metaServer: string,
    token: string,
    timeout: Option<ProtoDuration>,
    notificationTimeout: Option<ProtoDuration>,
    enableCache: bool,
    cacheDir: string,
    enableRetry: bool,
    maxRetryTimes: int,
    retryInterval: Option<ProtoDuration>,
    threshold: real,
    shutdownTimeout: Option<ProtoDuration>,
    logLevel: string,
    serviceConfig: Option<ServiceConfig>)

  /** url.Parse: the scheme of a string that parses as a URL. */
  type ParseURL = string -> Option<string>

  /** What a validation error is about; its message is not modelled. */
  datatype Field =
    | Configuration | AppId | MetaServer | Cluster | Namespace | Token | CacheDir | MaxRetryTimes
    | CircuitBreakerThreshold | LogLevel | MergeStrategy
    | Timeout | NotificationTimeout | RetryInterval | ShutdownTimeout

  /** The configuration behind its pointer. */
  class Conf {
    var value: Settings

    constructor (value: Settings)
      ensures this.value == value
    {
      this.value := value;
    }
  }

  class ValidationResult {
    var isValid: bool
    var errors: seq<Field>

    ghost predicate Valid()
      reads this
    {
      isValid <==> errors == []
    }

    constructor ()
      ensures Valid() && isValid
    {
      isValid, errors := true, [];
    }

    method AddError(field: Field)
      requires Valid()
      modifies this
      ensures Valid() && errors == old(errors) + [field] && !isValid
    {
      isValid := false;
      errors := errors + [field];
    }
  }

  // ---- the promise --------------------------------------------------------------

  predicate AppIdChar(c: char) {
    'a' <= c <= 'z' || 'A' <= c <= 'Z' || '0' <= c <= '9' || c == '_' || c == '-'
  }

  predicate AppIdOk(appId: string) {
    0 < |appId| <= 128 && forall c :: c in appId ==> AppIdChar(c)
  }

  /** The rules of each part of the validator, field by field. */
  predicate BasicOk(s: Settings, parse: ParseURL, f: Field) {
    match f
    case AppId => AppIdOk(s.appId)
    case MetaServer => s.metaServer != "" && parse(s.metaServer).Some?
    case Cluster => |s.cluster| <= 64
    case Namespace => |s.namespace| <= 128
    case Token => s.token == "" || 8 <= |s.token| <= 1024
    case CacheDir => |s.cacheDir| <= 512
    case _ => true
  }

  predicate NumberOk(s: Settings, f: Field) {
    match f
    case MaxRetryTimes => 0 <= s.maxRetryTimes <= 10
    case CircuitBreakerThreshold => 0.1 <= s.threshold <= 0.9
    case _ => true
  }

  predicate EnumOk(s: Settings, f: Field) {
    match f
    case LogLevel => s.logLevel in ["", "debug", "info", "warn", "error"]
    case MergeStrategy =>
      s.serviceConfig.Some? ==> s.serviceConfig.value.mergeStrategy in ["", "override", "merge", "append"]
    case _ => true
  }

  predicate SecondsWithin(d: Option<ProtoDuration>, low: int, high: int) {
    d.Some? ==> low <= d.value.seconds <= high
  }

  predicate TimeOk(s: Settings, f: Field) {
    match f
    case Timeout => SecondsWithin(s.timeout, 1, 60)
    case NotificationTimeout => SecondsWithin(s.notificationTimeout, 5, 300)
    case RetryInterval => SecondsWithin(s.retryInterval, 1, 30)
    case ShutdownTimeout => SecondsWithin(s.shutdownTimeout, 5, 300)
    case _ => true
  }

  predicate DependencyOk(s: Settings, f: Field) {
    match f
    case Timeout =>
      s.timeout.Some? && s.notificationTimeout.Some? ==> s.timeout.value.seconds < s.notificationTimeout.value.seconds
    case CacheDir => s.enableCache ==> s.cacheDir != ""
    case _ => true
  }

  predicate SecurityOk(s: Settings, parse: ParseURL, f: Field) {
    match f
    case Token => s.token == "" || 8 <= |s.token|
    case MetaServer => s.metaServer == "" || parse(s.metaServer) != Some("http")
    case _ => true
  }

  predicate NetworkOk(s: Settings, f: Field) {
    match f
    case Timeout => s.timeout.Some? ==> 100 * MILLISECOND <= AsDuration(s.timeout.value) <= 30 * SECOND
    case MaxRetryTimes => 0 <= s.maxRetryTimes <= 10
    case _ => true
  }

  predicate FieldOk(s: Settings, parse: ParseURL, f: Field) {
    && BasicOk(s, parse, f) && NumberOk(s, f) && EnumOk(s, f) && TimeOk(s, f)
    && DependencyOk(s, f) && SecurityOk(s, parse, f) && NetworkOk(s, f)
  }

  /** What a configuration must satisfy to be accepted. */
  ghost predicate Acceptable(s: Settings, parse: ParseURL) {
    forall f :: FieldOk(s, parse, f)
  }

  /** The threshold that validation puts in place of an omitted one. */
  function WithImplicitDefaults(s: Settings): Settings {
    if s.threshold == 0.0 then s.(threshold := DEFAULT_THRESHOLD) else s
  }

  // ---- the validator --------------------------------------------------------------

  class Validator {
    const config: Conf?
    const parse: ParseURL

    constructor (config: Conf?, parse: ParseURL)
      ensures this.config == config && this.parse == parse
    {
      this.config := config;
      this.parse := parse;
    }

    /**
     A nil configuration is invalid; any other is valid if and only if it is
     acceptable, and the errors name exactly the fields that break a rule.
     */
    method Validate() returns (result: ValidationResult)
      modifies if config == null then {} else {config}
      ensures fresh(result) && result.Valid()
      ensures config == null ==> !result.isValid
      ensures config != null ==>
                && config.value == WithImplicitDefaults(old(config.value))
                && (forall f :: f in result.errors <==> !FieldOk(config.value, parse, f))
                && result.isValid == Acceptable(config.value, parse)
    {
      result := new ValidationResult();
      if config == null {
        result.AddError(Configuration);
        return;
      }
      ApplyImplicitDefaults(config);
      var s := config.value;
      ValidateBasicFields(s, result);
      ValidateNumericRanges(s, result);
      ValidateEnumValues(s, result);
      ValidateTimeConfigs(s, result);
      ValidateDependencies(s, result);
      ValidateSecurityConfigs(s, result);
      ValidateNetworkConfigs(s, result);
      if result.errors != [] {
        assert result.errors[0] in result.errors;
        assert !FieldOk(s, parse, result.errors[0]);
      }
    }

    method ApplyImplicitDefaults(c: Conf)
      modifies c
      ensures c.value == WithImplicitDefaults(old(c.value))
    {
      if c.value.threshold == 0.0 {
        c.value := c.value.(threshold := DEFAULT_THRESHOLD);
      }
    }

    method ValidateBasicFields(s: Settings, result: ValidationResult)
      requires result.Valid()
      modifies result
      ensures result.Valid()
      ensures forall f :: f in result.errors <==> f in old(result.errors) || !BasicOk(s, parse, f)
    {
      CheckAppId(s.appId, result);
      CheckMetaServer(s.metaServer, result);
      CheckLength(s.cluster, 64, Cluster, result);
      CheckLength(s.namespace, 128, Namespace, result);
      CheckLength(s.token, 1024, Token, result);
      if s.token != "" && |s.token| < 8 {
        result.AddError(Token);
      }
      CheckLength(s.cacheDir, 512, CacheDir, result);
    }

    method CheckAppId(appId: string, result: ValidationResult)
      requires result.Valid()
      modifies result
      ensures result.Valid()
      ensures forall f :: f in result.errors <==> f in old(result.errors) || (f == AppId && !AppIdOk(appId))
    {
      if appId == "" {
        result.AddError(AppId);
      } else if |appId| > 128 {
        result.AddError(AppId);
      } else {
        var matched := MatchesAppId(appId);
        if !matched {
          result.AddError(AppId);
        }
      }
    }

    method CheckMetaServer(metaServer: string, result: ValidationResult)
      requires result.Valid()
      modifies result
      ensures result.Valid()
      ensures forall f :: f in result.errors <==>
                f in old(result.errors) || (f == MetaServer && (metaServer == "" || parse(metaServer).None?))
    {
      if metaServer == "" {
        result.AddError(MetaServer);
      } else if parse(metaServer).None? {
        result.AddError(MetaServer);
      }
    }

    method CheckLength(text: string, limit: nat, field: Field, result: ValidationResult)
      requires result.Valid()
      modifies result
      ensures result.Valid()
      ensures forall f :: f in result.errors <==> f in old(result.errors) || (f == field && |text| > limit)
    {
      if text != "" && |text| > limit {
        result.AddError(field);
      }
    }

    method ValidateNumericRanges(s: Settings, result: ValidationResult)
      requires result.Valid()
      modifies result
      ensures result.Valid()
      ensures forall f :: f in result.errors <==> f in old(result.errors) || !NumberOk(s, f)
    {
      if s.maxRetryTimes < 0 || s.maxRetryTimes > 10 {
        result.AddError(MaxRetryTimes);
      }
      if s.threshold < 0.1 || s.threshold > 0.9 {
        result.AddError(CircuitBreakerThreshold);
      }
    }

    method ValidateEnumValues(s: Settings, result: ValidationResult)
      requires result.Valid()
      modifies result
      ensures result.Valid()
      ensures forall f :: f in result.errors <==> f in old(result.errors) || !EnumOk(s, f)
    {
      if s.logLevel != "" {
        var valid := Contains(["debug", "info", "warn", "error"], s.logLevel);
        if !valid {
          result.AddError(LogLevel);
        }
      }
      if s.serviceConfig.Some? && s.serviceConfig.value.mergeStrategy != "" {
        var valid := Contains(["override", "merge", "append"], s.serviceConfig.value.mergeStrategy);
        if !valid {
          result.AddError(MergeStrategy);
        }
      }
    }

    method CheckSeconds(d: Option<ProtoDuration>, low: Duration, high: Duration, field: Field, result: ValidationResult)
      requires result.Valid()
      modifies result
      ensures result.Valid()
      ensures forall f :: f in result.errors <==>
                f in old(result.errors) || (f == field && d.Some? && !(low <= WholeSeconds(d.value) <= high))
    {
      if d.Some? {
        var duration := WholeSeconds(d.value);
        if duration < low || duration > high {
          result.AddError(field);
        }
      }
    }

    method ValidateTimeConfigs(s: Settings, result: ValidationResult)
      requires result.Valid()
      modifies result
      ensures result.Valid()
      ensures forall f :: f in result.errors <==> f in old(result.errors) || !TimeOk(s, f)
    {
      CheckSeconds(s.timeout, 1 * SECOND, 60 * SECOND, Timeout, result);
      CheckSeconds(s.notificationTimeout, 5 * SECOND, 300 * SECOND, NotificationTimeout, result);
      CheckSeconds(s.retryInterval, MIN_RETRY_INTERVAL, MAX_RETRY_INTERVAL, RetryInterval, result);
      CheckSeconds(s.shutdownTimeout, 5 * SECOND, 300 * SECOND, ShutdownTimeout, result);
    }

    method ValidateDependencies(s: Settings, result: ValidationResult)
      requires result.Valid()
      modifies result
      ensures result.Valid()
      ensures forall f :: f in result.errors <==> f in old(result.errors) || !DependencyOk(s, f)
    {
      if s.timeout.Some? && s.notificationTimeout.Some? {
        if WholeSeconds(s.timeout.value) >= WholeSeconds(s.notificationTimeout.value) {
          result.AddError(Timeout);
        }
      }
      if s.enableCache && s.cacheDir == "" {
        result.AddError(CacheDir);
      }
    }

    method ValidateSecurityConfigs(s: Settings, result: ValidationResult)
      requires result.Valid()
      modifies result
      ensures result.Valid()
      ensures forall f :: f in result.errors <==> f in old(result.errors) || !SecurityOk(s, parse, f)
    {
      if s.token != "" {
        if |s.token| < 8 {
          result.AddError(Token);
        }
      }
      if s.metaServer != "" {
        var scheme := parse(s.metaServer);
        if scheme == Some("http") {
          result.AddError(MetaServer);
        }
      }
    }

    method ValidateNetworkConfigs(s: Settings, result: ValidationResult)
      requires result.Valid()
      modifies result
      ensures result.Valid()
      ensures forall f :: f in result.errors <==> f in old(result.errors) || !NetworkOk(s, f)
    {
      if s.timeout.Some? {
        var timeout := AsDuration(s.timeout.value);
        if timeout < 100 * MILLISECOND {
          result.AddError(Timeout);
        }
        if timeout > 30 * SECOND {
          result.AddError(Timeout);
        }
      }
      if s.maxRetryTimes < 0 {
        result.AddError(MaxRetryTimes);
      }
      if s.maxRetryTimes > 10 {
        result.AddError(MaxRetryTimes);
      }
    }
  }

  method MatchesAppId(s: string) returns (matched: bool)
    ensures matched <==> s != "" && forall c :: c in s ==> AppIdChar(c)
  {
    var i := 0;
    while i < |s|
      invariant 0 <= i <= |s|
      invariant forall k :: 0 <= k < i ==> AppIdChar(s[k])
    {
      if !AppIdChar(s[i]) {
        return false;
      }
      i := i + 1;
    }
    return s != "";
  }

  method Contains(supported: seq<string>, wanted: string) returns (found: bool)
    ensures found <==> wanted in supported
  {
    var i := 0;
    while i < |supported|
      invariant 0 <= i <= |supported|
      invariant wanted !in supported[..i]
    {
      if supported[i] == wanted {
        return true;
      }
      i := i + 1;
    }
    return false;
  }

  // ---- what acceptance guarantees ---------------------------------------------------

  /** initComponents: the retry manager and the threshold built from the configuration. */
  function BuildRetry(s: Settings): RetryManager {
    RetryManager(
      if s.maxRetryTimes > 0 then s.maxRetryTimes else DEFAULT_MAX_RETRY_TIMES,
      if s.retryInterval.Some? && AsDuration(s.retryInterval.value) > 0
      then AsDuration(s.retryInterval.value) else DEFAULT_RETRY_INTERVAL)
  }

  function BuildThreshold(s: Settings): real {
    if s.threshold > 0.0 then s.threshold else DEFAULT_THRESHOLD
  }

  /** The nanoseconds of a well-formed non-negative protobuf duration. */
  predicate Normal(d: Option<ProtoDuration>) {
    d.Some? ==> 0 <= d.value.nanos < SECOND
  }

  /** What is configured is built, and what is not is three retries from 1s and a threshold of 0.5. */
  lemma BuiltAsConfigured(s: Settings)
    ensures BuildRetry(s).maxRetries == if s.maxRetryTimes > 0 then s.maxRetryTimes else 3
    ensures BuildRetry(s).retryInterval ==
              if s.retryInterval.Some? && AsDuration(s.retryInterval.value) > 0 then AsDuration(s.retryInterval.value)
              else SECOND
    ensures BuildThreshold(s) == if s.threshold > 0.0 then s.threshold else 0.5
  {}

  /** Once accepted, zero retries and an omitted interval mean the defaults, and all else is as given. */
  lemma AcceptedAsConfigured(s: Settings, parse: ParseURL)
    requires Acceptable(s, parse)
    ensures BuildRetry(s).maxRetries == if s.maxRetryTimes == 0 then 3 else s.maxRetryTimes
    ensures Normal(s.retryInterval) ==>
              BuildRetry(s).retryInterval ==
                if s.retryInterval.None? then SECOND
                else s.retryInterval.value.seconds * SECOND + s.retryInterval.value.nanos
    ensures BuildThreshold(s) == s.threshold
  {
    assert FieldOk(s, parse, MaxRetryTimes);
    assert FieldOk(s, parse, RetryInterval);
    assert FieldOk(s, parse, CircuitBreakerThreshold);
  }

  /** Every accepted configuration yields bounds within which the backoff arithmetic is exact. */
  lemma AcceptedBounds(s: Settings, parse: ParseURL)
    requires Acceptable(s, parse)
    ensures 1 <= BuildRetry(s).maxRetries <= 10
    ensures Normal(s.retryInterval) ==> SECOND <= BuildRetry(s).retryInterval < 31 * SECOND
    ensures 0.1 <= BuildThreshold(s) <= 0.9
  {
    assert FieldOk(s, parse, MaxRetryTimes);
    assert FieldOk(s, parse, RetryInterval);
    assert FieldOk(s, parse, CircuitBreakerThreshold);
  }

  /** Within those bounds every product of the backoff stays below 2^53. */
  lemma BoundedProduct(interval: Duration, attempt: nat)
    requires 0 <= interval < 31 * SECOND && attempt <= 9
    ensures 0 <= interval * Pow2(attempt) < MAX_EXACT
  {
    Pow2Grows(attempt, 9);
    assert Pow2(9) == 512 by {
      assert Pow2(4) == 16;
      assert Pow2(7) == 128;
    }
    TimesGrows(interval, Pow2(attempt), 512);
    TimesGrows(interval, 0, Pow2(attempt));
  }

  /**
   Consequences for the retry loop of any accepted configuration, on any machine
   with correct rounding: every product stays below 2^53, every computed backoff
   is the promised one, backoffs never shrink, and one call sleeps at most 300s.
   */
  lemma AcceptedBackoff(s: Settings, parse: ParseURL, fp: Float, attempt: nat)
    requires Acceptable(s, parse) && Normal(s.retryInterval) && Correct(fp)
    requires attempt < BuildRetry(s).maxRetries
    ensures BuildRetry(s).retryInterval * Pow2(attempt) < MAX_EXACT
    ensures CalculateBackoff(fp, BuildRetry(s), attempt) == Backoff(BuildRetry(s), attempt)
    ensures attempt > 0 ==> Backoff(BuildRetry(s), attempt - 1) <= Backoff(BuildRetry(s), attempt)
    ensures TotalBackoff(BuildRetry(s), 0, BuildRetry(s).maxRetries) <= 300 * SECOND
  {
    hide *;
    AcceptedBounds(s, parse);
    BoundedBackoff(BuildRetry(s), fp, attempt);
  }

  lemma BoundedBackoff(r: RetryManager, fp: Float, attempt: nat)
    requires Correct(fp) && attempt < r.maxRetries <= 10 && 0 <= r.retryInterval < 31 * SECOND
    ensures r.retryInterval * Pow2(attempt) < MAX_EXACT
    ensures CalculateBackoff(fp, r, attempt) == Backoff(r, attempt)
    ensures attempt > 0 ==> Backoff(r, attempt - 1) <= Backoff(r, attempt)
    ensures TotalBackoff(r, 0, r.maxRetries) <= 300 * SECOND
  {
    hide CalculateBackoff, Backoff, Correct, Pow2, Nearest, Product;
    BoundedProduct(r.retryInterval, attempt);
    NearestIs(fp, r.retryInterval);
    BackoffExactness(fp, r, attempt);
    if attempt > 0 { BackoffGrows(r, attempt - 1, attempt); }
    TotalBackoffBound(r, 0, r.maxRetries);
  }

  /**
   The documented range of retry_interval is 100ms to 30s, but the validator
   drops the nanoseconds first.  It therefore differs from the document exactly
   on [100ms, 1s), which it rejects, and on (30s, 31s), which it accepts.
   */
  lemma RetryIntervalVerdict(d: ProtoDuration)
    requires Normal(Some(d))
    ensures var duration := AsDuration(d);
            var documented := MIN_RETRY_INTERVAL <= duration <= MAX_RETRY_INTERVAL;
            var differs := MIN_RETRY_INTERVAL <= duration < SECOND || MAX_RETRY_INTERVAL < duration < 31 * SECOND;
            SecondsWithin(Some(d), 1, 30) == documented <==> !differs
  {}
}
