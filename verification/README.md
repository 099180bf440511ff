# Apollo plugin: verified model of its stateful mechanisms

This project models, in Dafny, the parts of the Lynx Apollo plugin whose
correctness depends on state that several goroutines share, and proves what
they keep over every run:

- **the circuit breaker and the retry loop** (`Breaker`, `Ledger`,
  `BreakerRuns`, `HalfOpen`, `Conservation`, `Circuit`, `Floats`, `Retry`,
  `ConfigRead`), with the numeric bounds that the validator feeds them
  (`Validation`);
- **the long-poll watcher** (`Watcher`, `WatcherRuns`, `WatcherCalls`, `WatchLoop`), the
  watcher around it (`Dispatcher`, `DispatchRuns`), the registration that shares one
  watcher per namespace (`Registry`, `RegistryRuns`) and what a cleanup leaves of it
  (`Survivors`);
- **the read-through cache** and its eviction (`Cache`, `CacheOrigins`, `CacheObject`), driven by
  the watcher end to end (`EndToEnd`);
- **the lifecycle and the namespace resolution** (`Plugin`, `Lifecycle`,
  `Teardown`, `Namespaces`).

## How it is built

*Objects.* `Circuit.CircuitBreaker`, `WatchLoop.ApolloConfigWatcher`,
`CacheObject.ConfigCache`, `Plugin.PlugApollo` and `Validation.Validator` are
classes with the fields of the source, whose methods update them in place as the
Go methods do. The first three carry a ghost history of the critical sections
that ran on them (`trace`, `steps`), and `Valid` says that the fields are what
this run of the step system computes; a method may extend the history by a step
only after its own assignments have brought the fields where the step does. So
every theorem about runs holds of every reachable object. A nondeterministic
method (`OtherGoroutines`) stands for all other users wherever the lock is not
held; `world`, `running` and `sections` hold what these need to know and the code
cannot see.

*Interleavings.* Where goroutines meet, a state, a set of steps (one for each
locked section, channel operation or atomic access), `Enabled` and `Apply`
describe the protocol; `Exec` runs a sequence of steps. HTTP replies,
cancellations and the order of steps are chosen by the run, so a statement about
all runs is a statement about all of these.

*References.* The breaker is compared with `Ledger`, a breaker that never prunes;
the backoff with `Retry.Backoff`, integer arithmetic without rounding; the
cache with direct reads of the server; the loop of the watch targets with the
loop of the sources; the validator with the predicate `Validation.Acceptable`;
the loop object with the step system; the outer watcher with the inner one.

*Time.* The clock is explicit, never goes back, and may stand still. The two
readings in `recordSuccess` (`resilience.go:247-248`) are two readings here.

## Where the code and what is written about it differ

The model follows the code.

- `VALIDATION.md:33` says that the breaker opens as soon as the rate reaches the
  threshold. The rate is compared only when a failure is recorded, and it also
  rises when successes leave the window. `ClosedRateCanReachThreshold` is a run
  that stays closed at rate 1; `ToleratedFailureReachesOne` shows that every tolerated
  failure leads there unless a success is as late; `StaysBelowExactly` says exactly when
  the rate stays below, and `LegalTransitions` exactly when the breaker opens.
- The log message at `resilience.go:177` speaks of one attempt in the half-open
  state; `AdmitsAll` says when it is only one, and `LateSuccessCloses` is a run with two
  that is closed by an attempt from before the trip (`FirstOutcomeDecides`).
- `README.md:92` of the repository gives `500ms` as an example for
  `retry_interval`. The validator looks at whole seconds: `RetryIntervalVerdict`
  says for which durations that differs from the range 100ms to 30s (it rejects
  `500ms` and accepts 30.9s).
- `README.md:33`, `README.md:76` and `conf/example_config.yml:9` of the repository use
  an `http://` meta server, which the validator refuses (`Validator.Validate`, with
  `SecurityOk` inside `FieldOk`).
- `retryConfigWatch` announces that it recreates a watcher (`watchers.go:297-302`). It
  calls `WatchConfig`, which returns the registered watcher
  (`RegisteredForGood`), and the error callback that would start it is never called
  (`NeverReportsError`).
- A reload that fails loses its change (`FailedReloadLosesChange`). A second `Start`
  can end the loop (`SecondStartEndsLoop`) or do no harm (`SecondStartHarmless`);
  `LoopEndsExactly` is the condition. A `Stop` that overtakes the
  publication of the inner watcher leaks it (`EarlyStopLeaks`, with the exact condition in
  `StopReachesInner`).
- A cached value can outlive the server's: after a read that straddles an eviction
  (`StraddlingReadStoresStale`) or for a deleted key (`DeletedKeyStaysCached`). By
  `CachedReadsAgree` a value whose key is still there is stale at rest exactly if it was
  stale already when it was stored. With a
  colon in a namespace a read can return another namespace's value
  (`ColonMixesNamespaces`; `CollisionsExactly` is the exact condition).
- Startup does not look at `destroyed` (`lifecycle_context.go:41-46`): started again
  after a cleanup without `InitializeResources`, the plugin runs but refuses every
  read and cannot be cleaned up (`RestartStrands`, `StrandedExactly`). `WatchConfig` does not look at it
  either: a watcher may be registered after the cleanup has replaced the map, or be
  started after the cleanup has stopped it, and nothing stops it then
  (`LateWatcherSurvives`, `StoppedTooEarlySurvives`; `SurvivorsExactly` is the condition).

## Model

| member | source | states |
|---|---|---|
| Ledger.PruneIsSince | resilience.go:206-215 | On stamps in order, the front scan keeps exactly the stamps that are not before the cutoff. |
| Ledger.SinceSince | resilience.go:199-203 | Pruning at an earlier and then at a later cutoff is pruning at the later one alone. |
| Ledger.RunRefines | resilience.go:199-262 | After any run with a non-decreasing clock both slices are, in order, the full history of outcomes since the last reset filtered by one cutoff, which is 60s before the last clock reading if the run ends in an outcome or a query; state and lastFailure agree with those of the breaker that never prunes. |
| Ledger.SameObservations | resilience.go:163-295 | Every admission, rejection, rate and state shown along any run is that of the breaker that never prunes. |
| Ledger.QueriesInvisible | resilience.go:272-278 | Leaving any of the GetFailureRate calls out of any run changes nothing that the remaining events show, although each call prunes for good. |
| BreakerRuns.LastFailureIsLastStamp | resilience.go:228-231 | lastFailure is the time of the last failure or ForceOpen of the run, an open breaker has one, and no run reaches an invalid state. |
| BreakerRuns.OpenAdmission | resilience.go:167-175 | An open breaker admits an attempt if and only if more than 30s separate it from the latest failure or ForceOpen of the whole run; a rejection changes nothing. |
| BreakerRuns.StaysOpen | resilience.go:163-183 | Without ForceClose a breaker left open at T stays open while no attempt comes later than T+30s, whatever else is recorded. |
| BreakerRuns.HoldOff | resilience.go:146-195 | If a failure or ForceOpen at T leaves the breaker open and no ForceClose follows, every attempt up to and including T+30s is rejected, over every interleaving with late outcomes. |
| BreakerRuns.HoldOffOnceOpen | resilience.go:234-242 | The same from the moment the breaker becomes open, however it became so. |
| BreakerRuns.OpensOnlyByStamp | resilience.go:281-287 | Only a recorded failure or ForceOpen makes a breaker open, so it always stamps lastFailure at that moment. |
| BreakerRuns.LegalTransitions | resilience.go:163-256 | Exactly when each unforced transition happens, and that there is no other: Closed to Open if the failure brings the rate over the full history of the last 60s to the threshold, Open to HalfOpen after the period, HalfOpen to Open or Closed with the next outcome. |
| BreakerRuns.NeverInvalid | resilience.go:179-180 | The rejection for an invalid state is unreachable. |
| BreakerRuns.ClosedStartsEmpty | resilience.go:250-262 | Closed is entered, or re-entered by force, with empty windows. |
| BreakerRuns.ClosedHistoryBelow | resilience.go:234-238 | While closed, every failure recorded since Closed was entered left the rate over its own 60s window below the threshold. |
| BreakerRuns.TripsCounts | resilience.go:219-236 | The trip condition without division: failures >= threshold * total, with at least one failure. |
| BreakerRuns.AboveOneNeverTrips | resilience.go:234-238 | With a threshold above 1 and no ForceOpen the breaker is closed after every run. |
| BreakerRuns.ClosedRateCanReachThreshold | resilience.go:228-243 | A run of well-formed calls after which the breaker is closed and answers the rate 1 at threshold 0.5. |
| BreakerRuns.StaysBelowExactly | resilience.go:219-225 | After any run: if nothing more is recorded, GetFailureRate stays below the threshold for ever if and only if the rate is below it at the finitely many moments at which a failure is about to leave the window. |
| BreakerRuns.ToleratedFailureReachesOne | resilience.go:199-243 | If a run ends in a failure that leaves the breaker closed, and every success in its slice is strictly earlier, GetFailureRate answers 1 at 60s after it if nothing more is recorded. |
| BreakerRuns.ClosedStaysBelow | resilience.go:228-256 | A breaker that is closed after a run answers less than the threshold at every later time, as long as no success recorded since it was closed has left the window. |
| HalfOpen.AdmitsAll | resilience.go:167-178 | From the event that makes the breaker half-open until an outcome or a force, every attempt is admitted; the one that made it half-open is the only one if and only if no other comes. |
| HalfOpen.FirstOutcomeDecides | resilience.go:239-255 | The first outcome of that stretch closes the breaker if it is a success and opens it if it is a failure; it is that of an admitted call, one of the stretch if and only if it was begun in it, and every other attempt admitted in the stretch is still in flight. |
| HalfOpen.EnteredByProbe | resilience.go:168-173 | A breaker becomes half-open only by admitting an attempt while open. |
| HalfOpen.LateSuccessCloses | resilience.go:250-253 | A run in which the half-open breaker admits two attempts and is then closed by a call admitted before the trip, with both still in flight. |
| BreakerRuns.FateOfCalls | resilience.go:146-159 | A call is in flight exactly from its admission to the one outcome that records it. |
| BreakerRuns.RecordedOnce | resilience.go:150-158 | No call is recorded twice. |
| Conservation.CallsConserved | resilience.go:146-195 | Calls begun = refused + in flight + recorded, after every run. |
| Conservation.SlicesAreSince | resilience.go:199-262 | After every run the slices are the history since the last reset filtered by the cutoff of the last prune. |
| Conservation.OutcomesConserved | resilience.go:199-262 | Outcomes recorded = live in the slices + older than the window + taken out of the slices by resets, after every run; an outcome that had aged before a reset counts as aged. |
| Circuit.CircuitBreaker.constructor | resilience.go:131-137 | A new breaker is what the empty run computes. |
| Circuit.CircuitBreaker.BeforeAttempt | resilience.go:163-183 | Extends the run by one Begin at the time read; an open breaker fails it if and only if that is not later than 30s after the last failure or ForceOpen, with the open error and no change of a field, and becomes half-open otherwise; any other breaker admits it and stays as it is. |
| Circuit.CircuitBreaker.AfterAttempt | resilience.go:186-195 | Extends the run by the one outcome of the call; a failure is stamped at the end, a success at a time within the call. |
| Circuit.CircuitBreaker.PruneLocked | resilience.go:199-203 | Both slices lose the same window; nothing else changes. |
| Circuit.PruneBefore | resilience.go:206-215 | The loop computes the front scan, and on stamps in order the exact filter. |
| Circuit.CircuitBreaker.RecordFailure | resilience.go:228-243 | The new fields are those of the run extended by a failure at the time read. |
| Circuit.CircuitBreaker.RecordSuccess | resilience.go:246-256 | The new fields are those of the run extended by a success with two clock readings. |
| Circuit.CircuitBreaker.GetFailureRate | resilience.go:272-278 | Answers the rate of the never-pruned history over the last 60s, a number from 0 to 1 that is 0 if and only if no failure lies in that window, and extends the run by a query. |
| Circuit.CircuitBreaker.GetState | resilience.go:265-269 | The state that the run computes, which is never an invalid one. |
| Circuit.CircuitBreaker.ForceOpen | resilience.go:281-287 | Extends the run by ForceOpen at the time read. |
| Circuit.CircuitBreaker.ForceClose | resilience.go:290-296 | Extends the run by ForceClose. |
| Circuit.CircuitBreaker.OtherGoroutines | resilience.go:146-159 | Any number of critical sections of other goroutines only extend the run, and leave the outcomes of my calls to me. |
| Circuit.CircuitBreaker.Enter | resilience.go:146-149 | Extends the run by one attempt, admitted unless the run refuses it, and then in flight. |
| Circuit.CircuitBreaker.Leave | resilience.go:150-159 | After whatever the others do meanwhile, the last event of the run is the outcome of this call. |
| Circuit.CircuitBreaker.Do | resilience.go:146-159 | The operation runs if and only if the run does not refuse the attempt; its own result is returned, and its outcome is recorded as the last event, for this call, failed exactly when it is an error; a refusal returns the open error at once. |
| Floats.ProductFits | resilience.go:90-91 | For every int64 interval whose float product is within the int64 range, the product and its conversion are exact: the nearest float of the interval times the power. |
| Retry.BackoffExactness | resilience.go:90-99 | For every int64 interval and every attempt: the computed backoff is min(interval * 2^attempt, 30s) if and only if, for a positive interval, the float product is below 2^63 or the overflowing conversion yields at least 30s; for zero, 2^attempt is finite or converting NaN yields 0; for a negative one, it is a float and the product fits. |
| Retry.BackoffGrows | resilience.go:90-99 | Backoffs do not shrink from one attempt to the next and lie between min(interval, 30s) and 30s. |
| Retry.TotalBackoffBound | resilience.go:42-46 | The sleep between two attempts is at most 30s per backoff. |
| Retry.DoWithRetry | resilience.go:31-52 | Succeeds if and only if one of the first maxRetries + 1 runs does, stops at the first success, sleeps exactly one backoff between runs, and fails with the error of the last run. |
| Retry.DoWithRetryContext | resilience.go:55-87 | No run starts after the context was seen ended; success exactly when the last run made succeeded; a cancellation only where the context ended; otherwise all runs were made and failed. |
| ConfigRead.Read | config.go:242-244 | One read through the cache: its result is an error without a client; with the cache enabled the cached value if it was there when the read looked, else what the server had when it was asked, or an error if it could not be reached or had no such key; with the cache disabled what the server has. A value returned is one that the server had for exactly this item, if the namespaces asked for are separable. |
| ConfigRead.Turn | config.go:242-252 | One attempt of the loop, among other users of breaker and cache: recorded in the breaker's run with its outcome and time, and its result is that of its own read, as in Read. |
| ConfigRead.ReadWithRetry | config.go:239-253 | The attempts of one call are recorded in the breaker's run in order, one backoff apart, and each that ran has the outcome of its own read of the cache; it succeeds if and only if an admitted attempt did, with the value of the last one, which with separable namespaces the server had for the item; on failure all attempts were made. |
| ConfigRead.GetConfigValue | config.go:200-262 | An initialization error without attempts for an unusable plugin; otherwise a value if and only if an admitted attempt returned it, each attempt having the outcome that the events of its read determine, and with separable namespaces one that the server had at some moment for exactly this namespace and key; on failure the error of the last attempt that ran, or none if all were refused. |
| ConfigRead.OutcomeExactly | config.go:267-313 | An attempt that ran succeeded if and only if there was a client, and the cache held the item when the read looked or the server was reachable and had it when it was asked. |
| ConfigRead.TripSilencesCall | config.go:239-253 | If an attempt trips the breaker and nobody forces it closed, no later attempt of the call runs within 30s of the trip, whatever other users do. |
| ConfigRead.ExactSleepsSilence | resilience.go:31-52 | With exact sleeps whose sum stays within 30s, every later attempt of the call is refused, at the time of the summed backoffs. |
| ConfigRead.DefaultCallEndsWithTrip | config.go:239-261 | With the retry manager built from settings that omit retries and interval, the attempt that trips the breaker is the last that runs and its error is the cause returned. |
| ConfigRead.LastErrorIs | config.go:242-250 | If no attempt after a failed one ran, its error is the cause. |
| Validation.ValidationResult.AddError | validator.go:38-45 | Appends the field and makes the result invalid; valid means no errors, always. |
| Validation.Validator.Validate | validator.go:73-99 | Nil is invalid; any other configuration is valid if and only if every field satisfies its rules after the implicit threshold default, which is written back; the errors name exactly the fields that do not. |
| Validation.Validator.ValidateBasicFields | validator.go:101-142 | Adds errors, for the fields concerned, exactly when a basic field breaks its rule. |
| Validation.Validator.ValidateNumericRanges | validator.go:144-152 | Adds errors, for the fields concerned, exactly outside [0,10] retries or a threshold outside [0.1,0.9]. |
| Validation.Validator.ValidateEnumValues | validator.go:154-180 | Adds errors, for the fields concerned, exactly for an unknown log level or merge strategy. |
| Validation.Validator.ValidateTimeConfigs | validator.go:182-210 | Adds errors, for the fields concerned, exactly when the whole seconds of a duration leave its range. |
| Validation.Validator.ValidateDependencies | validator.go:212-227 | Adds errors, for the fields concerned, exactly when an enabled feature lacks what it needs. |
| Validation.Validator.ValidateSecurityConfigs | validator.go:229-243 | Adds errors, for the fields concerned, exactly for a short token or a plain-HTTP meta server. |
| Validation.Validator.ValidateNetworkConfigs | validator.go:245-263 | Adds errors, for the fields concerned, exactly when timeout or retries leave the network limits. |
| Validation.MatchesAppId | validator.go:106-111 | The scan accepts exactly the non-empty strings of permitted characters. |
| Validation.AcceptedBounds | apollo.go:148-165 | Any accepted configuration gives 1 to 10 retries, an interval in [1s, 31s) and a threshold in [0.1, 0.9]. |
| Validation.BuiltAsConfigured | apollo.go:148-165 | For every configuration: the configured retries, interval and threshold if they are positive, and otherwise 3, 1s and 0.5. |
| Validation.AcceptedAsConfigured | apollo.go:148-165 | For an accepted one: its own threshold, its own retries unless they are 0 (then 3), and its own interval unless it is omitted (then 1s). |
| Validation.AcceptedBackoff | resilience.go:90-99 | For any accepted configuration every product is below 2^53, every computed backoff is min(interval * 2^attempt, 30s), backoffs do not shrink, and one call sleeps at most 300s. |
| Validation.RetryIntervalVerdict | validator.go:197-202 | The verdict on retry_interval is the documented range if and only if the duration is not in [100ms, 1s) or (30s, 31s). |
| WatcherRuns.RunInv | watcher_adapter.go:54-188 | After every run: at most one loop, counted by the wait group; the once bodies and the closed flag agree; Stop has returned only if the loop is gone; the delivery and polled-id invariants hold. |
| WatcherRuns.Delivered | watcher_adapter.go:54-184 | In every run: at most one loop, at most one batch in the channel, what Next returned is a prefix of what was sent, each batch follows a matching notification of its own, and batches + failed reloads are exactly the matching notifications but for the one in hand and one given up at the exit. |
| WatcherRuns.PolledIdIsLastMatched | watcher_adapter.go:129-158 | Every poll asks with the id of the last matching notification processed, or 0. |
| WatcherRuns.IdsIncrease | watcher_adapter.go:152-168 | If the server replies only with growing ids above the polled one, the processed ids strictly increase, through failures, pauses and restarts. |
| WatcherRuns.StopIsFinal | watcher_adapter.go:71-81 | Once a Stop has returned no poll is issued and nothing is sent, in every interleaving. |
| WatcherRuns.AtMostOneMorePoll | watcher_adapter.go:117-135 | After stopCh is closed at most one poll is issued, and only by a loop that had already passed its check. |
| WatcherRuns.StoppedLoopEnds | watcher_adapter.go:116-188 | After stopCh is closed the number of loop steps is bounded by a measure of the program counter and the notifications still replied, and until the loop has exited one of its steps is always enabled, given that HTTP calls return. |
| WatcherRuns.LoopEndsExactly | watcher_adapter.go:136-166 | Unless the lifecycle cancels its contexts, before Stop is called the loop has ended if and only if a call of the server failed and the loop looked at its context after another Start had replaced it. |
| WatcherRuns.AliveUntilStopped | watcher_adapter.go:137-139 | So a watcher that is started once ends only after Stop was called. |
| WatcherRuns.SecondStartEndsLoop | watcher_adapter.go:95-99 | A run in which a second Start ends the loop for good, without any Stop. |
| WatcherRuns.SecondStartHarmless | watcher_adapter.go:95-99 | A run in which a second Start precedes the snapshot of the context, and a failed poll does not end the loop. |
| WatcherRuns.FailedReloadLosesChange | watcher_adapter.go:157-168 | For every id a run in which the reload for it fails, nothing is sent, and the next poll already asks with that id. |
| WatcherCalls.StopCancelsAll | watcher_adapter.go:71-81 | From the cancellation in Stop on, every context created before it is cancelled, so a call of the server that fails under one of them ends the loop. |
| WatcherCalls.StartLaunches | watcher_adapter.go:90-110 | Once any call of Start has returned, exactly one loop has been launched, in every interleaving. |
| WatcherCalls.CallsGoOn | watcher_adapter.go:71-110 | A Start under way can always take its next step, and so can a Stop, but for its wait for a loop that has not exited. |
| WatcherCalls.LoopGoesOn | watcher_adapter.go:116-188 | A loop that has not exited can take a step, if calls return and timers fire, unless and only unless it has a batch to send, the channel is full and stopCh is open. |
| WatchLoop.ApolloConfigWatcher.OtherGoroutines | watcher_adapter.go:71-110 | Whatever Start, Stop and Next do meanwhile leaves the place of the loop, the polled id and all that was polled, matched and sent as it was, and never reopens stopCh. |
| WatchLoop.ApolloConfigWatcher.Run | watcher_adapter.go:116-188 | The loop on its own fields, among all other goroutines and for whatever the server answers, extends a run of the protocol that ends where the code is; unless it has returned, or is left waiting to send into a full channel that nobody stops, it has made every poll and processed exactly the matching notifications of the answers. The batches it has sent enumerate, in order, the configurations answered to their own fetches, and the failed reloads are exactly the fetches without an answer. |
| WatchLoop.ApolloConfigWatcher.PollOnce | watcher_adapter.go:129-186 | One poll, asked with the context and id just read, and the handling of its answer: unless the loop ends, exactly its matching notifications, each with the batch that was answered to its fetch or a failed reload. |
| WatchLoop.ApolloConfigWatcher.CheckStop | watcher_adapter.go:117-127 | Exits or passes on, with the history unchanged; it exits if stopCh was closed before. |
| WatchLoop.ApolloConfigWatcher.AfterPollError | watcher_adapter.go:136-148 | Returns only into the exited state, else goes back to the head after the pause; nothing is polled, matched or sent. |
| WatchLoop.ApolloConfigWatcher.HandleNotifications | watcher_adapter.go:151-186 | Processes the notifications in order, all of them unless it returns: exactly the ids of the matching ones are added, notificationId is the last of these, and each of these but one on which it returns or waits has led to the batch answered to its own fetch, or to one failed reload if that had no answer. |
| WatchLoop.ApolloConfigWatcher.HandleOne | watcher_adapter.go:153-184 | A matching notification advances notificationId and, if the loop goes on, is settled by the batch of what its fetch answered or by one failed reload; any other changes nothing. |
| WatchLoop.ApolloConfigWatcher.ReloadAndSend | watcher_adapter.go:160-184 | If the loop goes on: with an answer to this fetch one batch was sent that lists every key of it once with its value, and without one a single failed reload was skipped; otherwise nothing was sent. |
| WatchLoop.KeyValues | watcher_adapter.go:169-175 | In whatever order the map is ranged over, the batch lists every key once with its value. |
| Dispatcher.InnerRun | watchers.go:67-157 | Every run of the outer watcher is, seen from inside, a run of the inner one, so all its theorems apply. |
| Dispatcher.NeverReportsError | watchers.go:116-129 | The error callback is never called, in any interleaving of Start, Stop and the goroutines. |
| Dispatcher.ChangesFollowDeliveries | watchers.go:106-141 | The change callbacks are the key/values delivered by the inner watcher, in order, none skipped or repeated. |
| Dispatcher.NoChangeAfterStop | watchers.go:144-157 | No change callback is made after Stop has returned. |
| Dispatcher.StopSeesPublished | watchers.go:145-153 | Stop finds the inner watcher if and only if Start had published it when Stop looked. |
| Dispatcher.StopReachesInner | watchers.go:144-157 | Once Stop has returned, the inner watcher is stopped if and only if Stop found it, and then never polls or sends again. |
| Dispatcher.EarlyStopLeaks | watchers.go:67-157 | A run in which Stop has returned and the inner watcher polls with nobody left to stop it. |
| DispatchRuns.StartedDispatches | watchers.go:67-101 | Over all runs, a watcher with a client that has been started and not stopped has a dispatch goroutine at work. |
| DispatchRuns.DispatchGoesOn | watchers.go:106-141 | That goroutine can always take its next act, unless and only unless it waits in Next with nothing sent and nobody stopping the inner watcher. |
| DispatchRuns.CanCatchUp | watchers.go:106-141 | From every state of every run of a started watcher that is not stopped, the dispatch goroutine alone can go on to have called back all that was sent, whole and in order. |
| DispatchRuns.DeliveredWhole | watchers.go:67-141 | For every batch a run from Start on in which it is fetched, sent, and called back whole. |
| DispatchRuns.StoppedDispatchEnds | watchers.go:106-157 | Once both channels are closed the goroutine can always go on, and each of its acts lowers a measure of what is left to its end. |
| Registry.Deduplicated | watchers.go:182-224 | While no cleanup resets the map, at every moment only registered watchers were started, only unregistered ones were stopped, and every result returned is the registered watcher. |
| Registry.ExactlyOneStarted | watchers.go:162-225 | Once all calls have returned, with no cleanup: all callers of a namespace have the same watcher, registered, started and not stopped; every other one was stopped unstarted. |
| Registry.RegisteredForGood | watchers.go:182-204 | Until a cleanup resets the map, a registration is never replaced. |
| RegistryRuns.RefusedExactly | watchers.go:162-165 | A call is refused if and only if the plugin was not initialized when it was made. |
| RegistryRuns.LookFinds | watchers.go:182-188 | A call that finds its namespace registered returns that watcher and creates none; otherwise it goes on to create one. |
| RegistryRuns.CallGoesOn | watchers.go:182-224 | A call that has not returned can take its next step, unless and only unless it waits for the lock that a cleanup holds. |
| RegistryRuns.CleanupStopsAll | cleanup.go:29-44 | Every watcher that was registered when a cleanup took the lock has been stopped when it replaces the map, and stays so. |
| RegistryRuns.CleanupGoesOn | cleanup.go:29-44 | A cleanup that holds the lock can always go on: it stops another watcher or replaces the map. |
| Survivors.SurvivorsExactly | cleanup.go:29-44 | Over all runs with any number of cleanups, which stop the registered watchers one by one: a watcher runs if and only if it was started with a client, and a cleanup had stopped it before that or none did afterwards; so a cleanup ends exactly the watchers that it finds registered and whose Start comes before its Stop of them. |
| Survivors.LateWatcherSurvives | watchers.go:162-225 | A run in which a call that began before the reset registers and starts a watcher after it, which runs when the cleanup has ended. |
| Survivors.StoppedTooEarlySurvives | cleanup.go:33-40 | A run in which the cleanup stops a registered watcher before its call starts it, all under the lock, and it runs when the cleanup has ended. |
| Cache.CollisionsExactly | config.go:280-281 | Keys of two namespaces collide if and only if one namespace continues the other after a colon. |
| Cache.Injective | config.go:280-281 | Between separable namespaces, and within one, the encoding is injective. |
| Cache.NoColonSeparable | config.go:280-281 | Namespaces without a colon are separable. |
| Cache.CachedIsCurrent | config.go:267-313 | In every run a cached value that no eviction crossed is the server's, or a change of its namespace is on its way or its reload failed, or its key is gone from the server. |
| CacheOrigins.CachedReadsAgree | config.go:267-313 | Every cached value was fetched at an event f and stored at an event t, with an eviction of its item in between exactly if it is crossed; once no change of its namespace is on its way, it is the server's if and only if the server still has the key and had this very value when it was stored, at t. |
| CacheOrigins.ReturnedWasServed | config.go:267-313 | With separable namespaces, what a read has returned is a value that the server had for exactly its namespace and key at some moment of the run. |
| Cache.NoStraddleNoCross | config.go:297-308 | If no read lies between its fetch and its store when its item is evicted, no value is ever crossed. |
| Cache.CacheRefinesServer | watchers.go:132-139 | Then, once no change of its namespace is on its way, every cached value of an item that the server has is the server's. |
| Cache.Provenance | config.go:280-310 | With separable namespaces every value returned or cached was once served for exactly that namespace and key. |
| Cache.EvictionIsLocal | watchers.go:229-245 | Dispatching an item evicts it and leaves every other item of separable namespaces as it was. |
| Cache.StraddlingReadStoresStale | config.go:297-308 | A run that leaves a stale value cached with nothing left to dispatch. |
| Cache.DeletedKeyStaysCached | watchers.go:241-244 | A run after which a key deleted on the server is still cached. |
| Cache.ColonMixesNamespaces | config.go:280-310 | A run in which a read of "a:b"/"c" returns a value that was only ever served for another item. |
| CacheObject.ConfigCache.GetConfigValueFromApollo | config.go:267-313 | With everybody else interleaved between its critical sections: the run goes on with this read. With the cache enabled its result is the cached value if it looked and found one, and otherwise what the server had at the moment of the fetch, stored and returned; with the cache disabled it is the server's value; without a client it fails and changes nothing. |
| CacheObject.ConfigCache.DispatchReload | watchers.go:132-139 | Every key/value of a reload is evicted by an event of its own, in order, with everybody else in between. |
| CacheObject.ConfigCache.HandleConfigChanged | watchers.go:229-245 | Extends the run by the eviction of exactly the changed item. |
| EndToEnd.RunOfWatcher | watchers.go:106-141 | A joint run of the watcher and the cache is, for the watcher, a run of its own protocol. |
| EndToEnd.EvictionsAreChanges | watchers.go:106-245 | And for the cache one of its own, whose evictions are, in order, exactly the key/values that the change callback got; what the cache still waits for is what was fetched and not yet called back. |
| EndToEnd.CalledBackMeansCurrent | watchers.go:106-245 | Once all changes of the watched namespace are fetched without a failure and all fetched key/values called back, whatever happens to other namespaces: a value cached for it is the server's if and only if the server has its key and had this value when it was stored; one that no eviction crossed is the server's if the server has its key. |
| Namespaces.LoadedIsWatched | config.go:44-116 | The namespaces loaded and the namespaces watched are the same, in order and number, if and only if some namespace is configured or there is no service configuration; then none is empty. |
| Namespaces.LoadedInPlace | config.go:138-197 | The service's namespace comes first, or the plugin's if it has none; then every additional name stands in its own place, an empty one replaced by the first. |
| Plugin.DefaultedSourcesAreWatched | apollo.go:108-130 | After setDefaultConfig that always holds, with one namespace more than additional ones. |
| Plugin.DefaultsFill | apollo.go:108-130 | Filling in the defaults twice is filling them in once, and a complete configuration is left as it is. |
| Plugin.MinimalSuffices | apollo.go:108-168 | Any permitted application id and any meta server that is not plain HTTP are, with nothing else, an accepted configuration, with the documented defaults: 3 retries from 1s, threshold 0.5, 10s and 30s timeouts. |
| Plugin.AppendTargets | config.go:94-113 | The loop that skips empty namespaces appends one target for each non-empty one, in order. |
| Plugin.PlugApollo.GetConfigSources | config.go:44-66 | Succeeds exactly with an initialized plugin and a client, with the loaded namespaces in order, every non-empty additional name at its own place. |
| Plugin.PlugApollo.GetConfigWatchTargets | config.go:69-116 | Succeeds exactly with an initialized plugin, with one target per watched namespace in order, with the priority and merge strategy of the service configuration. |
| Plugin.PlugApollo.GetMainConfigSource | config.go:138-161 | The first of the loaded namespaces. |
| Plugin.PlugApollo.GetAdditionalConfigSources | config.go:164-197 | The resolved additional namespaces, in order. |
| Plugin.PlugApollo.GetConfig | config.go:16-40 | Succeeds exactly with an initialized plugin and a client; an empty file name means the configured namespace. |
| Plugin.PlugApollo.InitComponents | apollo.go:148-168 | A fresh breaker with an empty run and a retry manager, with the configured retries, interval and threshold where they are positive, and 3, 1s and 0.5 otherwise or without a configuration. |
| Plugin.PlugApollo.InitializeResources | apollo.go:79-103 | Succeeds if and only if the defaulted configuration is acceptable and the framework part and the scan succeed; then the components are built from it: the scanned retries, or 3 for 0, the scanned threshold, or 0.5 for 0, and the bounds that make the backoff exact. |
| Plugin.PlugApollo.StartupTasksContext | lifecycle_context.go:37-123 | Succeeds if and only if the plugin was not initialized, application id and meta server are given, the context has not ended at any of its five looks and every phase succeeds; after a failure or cancellation at any phase the plugin is as initialized as before, with its old client, and the client created meanwhile is closed. |
| Plugin.PlugApollo.CleanupWatchers | cleanup.go:29-44 | Every registered watcher is stopped and the map is empty. |
| Plugin.PlugApollo.ReleaseMemoryResources | cleanup.go:76-111 | The components are gone, the cache is cleared by one event of its run, and the old breaker is closed. |
| Plugin.PlugApollo.CleanupTasksContext | lifecycle_context.go:131-178 | Tears down completely if initialized and not destroyed, whether or not the context has ended; otherwise changes neither the plugin nor its client, breaker, cache and watchers; keeps "initialized if and only if there is a client". |
| Lifecycle.StrandedExactly | lifecycle_context.go:37-147 | Over every sequence of initialisations, startups and cleanups: the plugin is initialized and destroyed at once, so that it refuses every read and no cleanup tears it down, if and only if it was started again after a cleanup with no InitializeResources since that cleanup. |
| Lifecycle.RestartStrands | lifecycle_context.go:37-147 | The run that gets there: initialized, started, cleaned up, started again. |
| Lifecycle.StrandedUntilInitialized | apollo.go:79-84 | A stranded plugin stays so, and no call starts it or tears it down, until InitializeResources. |
| Lifecycle.ClientsBalance | lifecycle_context.go:75-147 | Clients opened by startups = clients closed by cleanups, plus one if the plugin is initialized. |
| Teardown.ExactlyOneTearsDown | lifecycle_context.go:131-178 | Of any number of concurrent cleanups exactly one tears down; when all have returned, everything is released. |
| Teardown.InitializedIffClient | lifecycle_context.go:131-178 | With no cleanup running, initialized holds if and only if there is a client. |
| Teardown.NoClientAfterClose | config.go:239-276 | From the moment the client is taken, no read gets hold of it: a read that has a client later had it then, in the same attempt of its retry loop, and a read that succeeds later had it then or had succeeded. |
| Teardown.OutlivesClient | cleanup.go:50-57 | Exactly which reads may still succeed then: those that had found the client in the attempt they are in. |
| Teardown.UntouchedMaySucceed | config.go:200-262 | Until a cleanup has won the swap, every read that has not returned may still succeed, if and only if the retry manager allows an attempt at all. |
| Teardown.ReadersKeepSnapshot | config.go:205-227 | Beside any teardown, every read past its nil checks works with the breaker and the retry manager that the plugin was started with, and with its client if it found one. |

## Left out

- HTTP, URL building and JSON decoding (`client.go`): replies, including errors from cancelled contexts, are chosen by the run.
- Metrics, logging and the text of errors: an error is a datatype with an optional cause. The validator's errors carry their field; how often and in what order a field is named is left open.
- `control_plane.go`, `plug.go`, publishing of resources and all calls into lynx and kratos: each succeeds or fails without touching the plugin's fields.
- `health.go`: a thin user of the same retry loop and breaker.
- `WatchControlPlaneConfig`, `ApolloConfigSource.Load` and `Watch`, and the cleanup statistics: glue over what is modelled.
- Rounding of the failure rate and of the threshold comparison: real numbers; the backoff, where rounding decides, is modelled over floats.
- The int64 wrap of absurd durations and of notification ids: durations and ids are unbounded here, except in the conversion of the backoff.
- Unicode: strings are byte strings; URL parsing is a parameter.
- Panic recovery, and callbacks that call Stop on their own watcher.
- The Go memory model: a step is a locked section, a channel operation or an atomic access.
- Callbacks of the framework into the plugin while startup holds its lock.
- WatcherRuns.StoppedLoopEnds: bounds the steps of the loop over the run; that an enabled step is eventually taken is left to the scheduler.
- WatchLoop.ApolloConfigWatcher.Run: the number of polls is a parameter, because the loop of the source does not end by itself; so is what the server answers to each poll and fetch; Start, Stop and Next are steps of the other goroutines.
- Circuit.CircuitBreaker.Do: the operation is a parameter that only returns a value or an error; in ConfigRead it is the read through the cache, with its effects.
- ConfigRead.GetConfigValue: whether the client is there and the server can be reached at each attempt is a parameter.
- Cache.CacheRefinesServer: speaks of items that the server still has, because a deleted key is never evicted (DeletedKeyStaysCached).
- Registry.ExactlyOneStarted: of Start only the publication of the inner watcher is a step here, and of Stop only the look for it; Dispatcher.StopReachesInner says that their order decides, and has the rest of both.
- EndToEnd.CalledBackMeansCurrent: one watcher, of one namespace; that the server announces every change of it is the hypothesis that no notice of it is left.
- Plugin.ConfigWatcher: only whether it was stopped; its behaviour is in Dispatcher.
- Watcher, Dispatcher, Registry, Survivors, Teardown, Lifecycle: step systems on values, with the concurrent callers of Start, Stop and Next counted and not named; of each sync.Once the body runs once.
