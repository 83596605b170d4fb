# Verified models of the MCP SDK's stateful algorithms

A Dafny 4.11 project that models the algorithms inside the SDK that carry guarantees over whole
runs, and proves those guarantees. `dafny verify dfyconfig.toml` checks everything.

Code that changes state step by step is a class or an array algorithm whose methods are proved
against a function of the old state; the guarantees are lemmas about runs of those functions.

| file | what it models |
|---|---|
| `TokenBuckets.dfy` | the token bucket: lazy refill, cap, debt through `ReserveN`, refunds through `Cancel` |
| `RateLimitTable.dfy` | the table of buckets by identifier, the optional global bucket, TTL eviction |
| `Identifiers.dfy` | which callers share a bucket |
| `Eviction.dfy` | whether evicting shows, over runs in which requests interleave |
| `SlidingWindow.dfy` | the REST transport's limiter by IP, against one that remembers every admission |
| `WorkerPool.dfy` | the fixed-size concurrent handler as interleaved steps of callers, queue, workers, shutdown, and its safety |
| `PoolLiveness.dfy` | what that handler's callers can count on, as written and as intended |
| `PoolCapacity.dfy` | what bounds its active requests |
| `Batcher.dfy` | the batch processor, its lock, and timers whose callbacks may be stale |
| `AdaptivePool.dfy` | the scaling controller |
| `Registry.dfy` | the discovery registry and its listeners' buffered channels |
| `Watcher.dfy` | the plugin watcher's scan, over the registry and the handler loader |
| `PluginHandlers.dfy` | what is registered for each declaration of a plugin, its handler included |
| `UnownedScans.dfy` | scans of directories whose plugins declare each other's keys |
| `Subscriptions.dfy` | the subscription manager: primary map, two indices, quota, event dispatch |
| `ErrorCodec.dfy` | hand-written JSON for errors: integers, string escapes, the object |
| `FlexibleParsing.dfy` | type-directed conversion of loose parameters into Go variables |
| `ParsingLaws.dfy` | that conversion case by case: names, numbers, limits, elements |
| `Versioning.dfy` | version printing, parsing, order, and routing |
| `Sampling.dfy` | the sampling log handler |
| `Wrappers.dfy` | the option type |

Instants, token levels and loads are reals. Clocks, UUIDs, the plugin directory, handler results,
whether a handler loads, map iteration order and goroutine interleaving are parameters or free
choices, so every statement holds for all of them.

## What the proofs found

Where a promise does not hold of the code, the model follows the code, an input is given, and the
exact condition is proved.

- The worker pool ends the process with the first item it finishes. `processWork` defers
  `activeWork.Store(nil)`, storing nil in an `atomic.Value` always panics, and nothing recovers.
  With one worker and two requests the second is never handled (`SecondRequestIsLost`). A run that
  has nowhere left to go has crashed if and only if some worker finished an item
  (`CrashesIffFinished`); without a Shutdown, if and only if any request was ever submitted
  (`CrashesIffSubmitted`). The safety properties hold of the code as written. The liveness properties
  `NobodyStranded` and `EveryCallerFinishes` are about the pool with the field cleared as intended.
- `maxQueueSize` bounds the queue, not the active requests: the check and the increment are two
  steps. With at most p callers between them at once, the least bound on active requests is
  maxQueueSize - 1 + p, so a positive maxQueueSize is itself a bound exactly for p = 1; with
  maxQueueSize 0 no request is ever active (`ActiveBoundIff`).
- Evicting idle buckets goes unnoticed in every run, with requests interleaved in any way, if and
  only if nobody is limited by identifier, or the burst is not positive, or a drained bucket refills
  within the TTL, or the global limiter is on with rate 0, or with a negative rate and burst 1
  (`EvictionInvisibleIff`). At a positive rate the global limiter does not make up for a short TTL: it is asked at one instant and the identifier's limiter
  at a later one, so the latter can hold less (`GlobalDoesNotHide` is a run). Only if no time ever
  passed between the two would it hide every eviction (`GlobalHidesEviction`).
- Limited by user and address at once, different callers can share a bucket: the identifier does not
  show where a user's name ends. Two of them share one if and only if one's name takes up the
  beginning of the other's address (`SameIdentifierIff`; `ColonsCanCollide` is a pair), so never if no
  name has a colon.
- Cancelling a reservation after other calls is exact if and only if the bucket would have lost no
  refill to its cap meanwhile, or would be full now; otherwise it gives back more than was taken
  (`CancelExactIff`; `CancelAfterGrantOverRefunds` is a run).
- Scaling down shortens the list of workers and stops no goroutine (`GoroutinesOutliveScaleDown`).
- If every key belongs to one plugin, a second scan of an unchanged directory is silent if and only
  if no plugin id stands for two unlike manifests (`SecondScanSilentIff`). An id can: the manifest of
  the watched directory itself goes by that directory's base name, which can also be the name of a
  plugin directory inside it.
- If plugins declare each other's keys, an update that is refused is undone and tried again on every
  scan (`PerpetualChurn`). For any registry and directory, `ScanSilentIff` says when a scan is
  silent. If an item of a new or changed plugin is registered already or declared twice, the items
  before it stay registered without the manifest being remembered (`RefusalOrphansIff`;
  `OrphansAfterIff` says which keys exactly), and no later scan takes them back (`OrphansStay`).
- A listener loses nothing if and only if it is never more than 100 events behind
  (`LosesNothingIff`).
- `itoa` prints the minimum integer as a lone minus, so error objects can be read back for every
  other code and not for that one (`ItoaParsesBack`, `MarshalledParsesBack`).
- Which of several keys that differ only in case a field is filled from is left to map iteration,
  unless the exact key is there (`LookupUniqueIff`). A json tag such as `",omitempty"` makes the
  field's name the empty string. The length limit on strings is reached only by types other than
  plain `string` (`StringAcceptedIff`). A conversion panics if and only if it runs into a nil entry of
  a map it has to convert, before anything else fails (`PanicsIffTraps`; `NilEntryPanics` is an input).
- The wrap of the sampling counter is not a multiple of 100: the next hundred records meet the quota
  at every rate if and only if they do not cross the wrap or start right at it
  (`HundredIsExactIff`).
- Version parsing also inverts printing for negative components, so router keys are injective
  without any condition (`ParseInvertsPrint`).

## Model

| member | source | states |
|---|---|---|
| TokenBuckets.TokenBucket.constructor | middleware/ratelimit.go:60-67 | A new bucket is full. |
| TokenBuckets.TokenBucket.AllowN | middleware/ratelimit.go:78-106 | Refill, cap, then spend n or nothing: the whole new state and the verdict. |
| TokenBuckets.TokenBucket.Wait | middleware/ratelimit.go:109-138 | With no other consumer and any rate: granted exactly when the tokens are there, or the timer goes off, the bucket earns tokens and n is at most the burst; the context's error exactly when it ends first; the state either way. |
| TokenBuckets.TokenBucket.ReserveN | middleware/ratelimit.go:146-172 | At any rate, always spends n, into debt if need be; the release time is now or when the debt is earned back. |
| TokenBuckets.Reservation.Cancel | middleware/ratelimit.go:196-210 | Refunds up to the cap, once; a second call changes nothing. |
| TokenBuckets.RetryIsExact | middleware/ratelimit.go:109-138 | A retry no earlier than the computed wait succeeds if and only if the rate is positive and n <= burst. |
| TokenBuckets.CancelIsExact | middleware/ratelimit.go:146-210 | Reserve, any refills, cancel: the bucket is as if the reservation had never been made. |
| TokenBuckets.CancelExactIff | middleware/ratelimit.go:78-210 | After any calls whose verdicts the reservation did not turn, Cancel never gives back too little, and leaves the bucket as if the reservation had never been made if and only if n = 0, no refill was lost to the cap without it, or the bucket would be full without it. |
| TokenBuckets.CancelAfterGrantOverRefunds | middleware/ratelimit.go:196-210 | A run of that kind where a grant in between makes Cancel leave ten tokens too many. |
| TokenBuckets.WindowBound | middleware/ratelimit.go:78-172 | With any clock, everything granted between two grants, the later leaving no debt, is within burst + rate * elapsed. |
| TokenBuckets.AllowWindowBound | middleware/ratelimit.go:78-172 | So the tokens of successful AllowN calls between any two of them are, reservations in between or not. |
| TokenBuckets.NeverAboveBurst | middleware/ratelimit.go:86-106 | No run with n >= 0 takes tokens above burst, whatever the clock does. |
| TokenBuckets.ReleaseBound | middleware/ratelimit.go:86-172 | At release times, debt included: from the i-th to the j-th grant at most max(burst, n_i) + rate * difference of the release times. |
| TokenBuckets.ReleasesInOrder | middleware/ratelimit.go:86-172 | With a monotone clock release times never decrease in request order. |
| TokenBuckets.ReleasedInBound | middleware/ratelimit.go:86-172 | With every n <= burst, the tokens released in any window of time are at most burst + rate * length. |
| RateLimitTable.RateLimitMiddleware.constructor | middleware/ratelimit.go:228-257 | A zero TTL becomes thirty minutes; no limiter but the global one, if configured, which is full. |
| RateLimitTable.RateLimitMiddleware.GetLimiter | middleware/ratelimit.go:320-361 | The identifier's bucket, or a full new one; the access time is recorded; no other entry changes. |
| RateLimitTable.RateLimitMiddleware.GetIdentifier | middleware/ratelimit.go:285-317 | User and address, as far as configured and known, joined by a colon. |
| RateLimitTable.RateLimitMiddleware.AllowGlobal | middleware/ratelimit.go:262-267 | The first part of a request: the global bucket's verdict and state, at one instant. |
| RateLimitTable.RateLimitMiddleware.AllowIdentifier | middleware/ratelimit.go:271-277 | The second part: the identifier's bucket, found or new, is asked at its own instant, and no other entry changes. |
| RateLimitTable.RateLimitMiddleware.Process | middleware/ratelimit.go:260-282 | Both parts, at their two instants, with nothing in between: admitted exactly when the global bucket, if any, and then the identifier's bucket allow one; a global refusal touches no identifier. |
| RateLimitTable.ProcessedSpelledOut | middleware/ratelimit.go:260-282 | Refused by the global bucket without touching another; admitted for want of an identifier; else admitted exactly if the identifier's bucket, a full one if new, has a token; the access is recorded. |
| Identifiers.PerIPTellsAddressesApart | middleware/ratelimit.go:285-317 | With PerIP alone, callers have one identifier if and only if they have one address. |
| Identifiers.PerUserTellsUsersApart | middleware/ratelimit.go:285-317 | With PerUser alone, if and only if they are one user. |
| Identifiers.SameIdentifierIff | middleware/ratelimit.go:285-317 | With both, callers with a user and an address have one identifier if and only if they are the same or one's name takes up the beginning of the other's address. |
| Identifiers.NoColonsNoSharing | middleware/ratelimit.go:285-317 | So, if no name has a colon, if and only if they are the same. |
| Identifiers.ColonsCanCollide | middleware/ratelimit.go:305-314 | Two different callers with one identifier. |
| Identifiers.KindsDiffer | middleware/ratelimit.go:285-317 | A caller known by user and one known by address only never have one identifier. |
| Identifiers.BucketUntouchedIff | middleware/ratelimit.go:270-277 | An admitted request leaves another caller's bucket alone if and only if their identifiers differ. |
| Eviction.ProcessedIsTwoParts | middleware/ratelimit.go:260-282 | In a run, a request whose parts nothing comes between is that. |
| RateLimitTable.RateLimitMiddleware.Cleanup | middleware/ratelimit.go:379-402 | Removes exactly the entries idle for longer than the TTL. |
| Eviction.EvictionInvisible | middleware/ratelimit.go:260-402 | If a drained bucket refills within the TTL in force, cleanup at any moments of any run changes no verdict, however the two parts of requests interleave. |
| Eviction.GlobalHidesEviction | middleware/ratelimit.go:260-402 | Under the hypothesis, which the code does not meet, that both parts of every request happen at one instant: with the global limiter on cleanup changes no verdict, whatever the TTL, rate and clock. |
| Eviction.GlobalDoesNotHide | middleware/ratelimit.go:260-282 | Without it: a run of two requests that do not overlap, the second admitted with a cleanup and refused without. |
| Eviction.RevisitVisible | middleware/ratelimit.go:260-402 | A family of runs whose verdicts a cleanup does change, with or without the global limiter: calls wait between their parts until the old bucket may be evicted, holding too little for them. |
| Eviction.EvictionInvisibleIff | middleware/ratelimit.go:228-402 | For every configuration, no run with a monotone clock and any interleaving tells an evicting middleware from one that never evicts if and only if neither PerUser nor PerIP is set, the burst is not positive, rate >= 0 and rate * TTL >= burst for the TTL in force (as zero if negative), or the global limiter is on with rate 0, or with a negative rate and burst 1. |
| SlidingWindow.RateLimiter.Allow | transport/rest.go:630-656 | Prunes the caller's list to the last minute, rejects at the limit without recording, else appends now. |
| SlidingWindow.PrunedRefinesHistory | transport/rest.go:630-656 | With a monotone clock the same verdicts as a limiter that never forgets, and each stored list is the complete history filtered to the minute before that IP's last call. |
| SlidingWindow.HistoryCapped | transport/rest.go:630-656 | In the complete history no window (T - 60s, T] holds more than the limit; no condition on the clock. |
| SlidingWindow.WindowNeverExceedsLimit | transport/rest.go:630-656 | Nor, for the pruned limiter under a monotone clock, do the admissions read off its verdicts. |
| SlidingWindow.AdmittedIff | transport/rest.go:630-656 | Under a monotone clock a request is admitted if and only if fewer than `limit` of its IP's requests were admitted in the sixty seconds up to it. |
| WorkerPool.InvStep | server/concurrent.go:124-232 | Every step of every caller, worker and shutdown keeps the pool's invariant, the store that ends the process included. |
| WorkerPool.ExactlyOnePlace | server/concurrent.go:124-167 | In every reachable state a submitted item is in exactly one of queue, one worker, finished; the queue is bounded; nothing is started twice. |
| WorkerPool.SendNeverBlocks | server/concurrent.go:215-232 | A reply slot is written at most once, so a worker about to send always can. |
| WorkerPool.RepliesAreOwn | server/concurrent.go:136-166 | A caller that returns a reply returns the handler's result for its own request. |
| WorkerPool.ErrorsAreDue | server/concurrent.go:146-166 | A caller is told that its context ended only if it did, and that it was canceled only if Shutdown was called. |
| WorkerPool.Accounting | server/concurrent.go:126-135 | totalRequests = rejected + active + returned after activation + callers between counter steps; the wait group is the number of running workers. |
| WorkerPool.NilShutdownIsFinal | server/concurrent.go:170-187 | Once Shutdown has returned nil no handler call is running, and in no continuation does one start. |
| PoolLiveness.FinishingCrashes | server/concurrent.go:215-232 | As written: no worker handles a second item; an item has been finished exactly when the process has crashed or some worker's next step crashes it; after that nothing is possible. |
| PoolLiveness.CrashesIffFinished | server/concurrent.go:124-232 | As written: a run that can go no further has crashed if and only if an item was finished; if not, every caller has returned, none with a reply. |
| PoolLiveness.CrashesIffSubmitted | server/concurrent.go:124-232 | As written, with at least one worker and no Shutdown: a pool that can go no further has crashed if and only if any request was ever submitted. |
| PoolLiveness.SecondRequestIsLost | server/concurrent.go:215-218 | As written: the run of one worker and two requests, with what it leaves behind. |
| PoolLiveness.NobodyStranded | server/concurrent.go:146-232 | As intended, and with at least one worker: while a caller has not returned, some step of the pool is possible. |
| PoolLiveness.WorkIsBounded | server/concurrent.go:124-232 | As written or intended, however steps interleave, a run makes at most the steps owed at its start plus ten per new caller. |
| PoolLiveness.RunsDry | server/concurrent.go:124-232 | As written or intended, with at least one worker: a run without new callers is bounded, and where it can go no further without having crashed every caller has returned. |
| PoolLiveness.EveryCallerFinishes | server/concurrent.go:124-232 | As intended, and with at least one worker: a run without new callers is bounded, and where the pool can go no further every caller has returned. |
| PoolCapacity.CheckedTogether | server/concurrent.go:128-135 | From any state with room for one more, callers that all check before any is counted are all counted, however many. |
| PoolCapacity.ActiveBoundIff | server/concurrent.go:128-135 | For every pool and p > 0, k bounds the active requests of all runs with at most p callers between check and increment at once if and only if k >= maxQueueSize - 1 + p (k >= 0 if maxQueueSize is 0). |
| PoolCapacity.CapacityCanBeOverrun | server/concurrent.go:128-135 | The smallest overrun: a limit of one and two active requests. |
| Batcher.BatchProcessor.HandleRequest | server/concurrent.go:291-324 | Appends; a full batch is processed at once, else a timer is set if none is. |
| Batcher.BatchProcessor.ProcessBatchLocked | server/concurrent.go:327-362 | Disarms the timer, empties the batch, and everyone in it is handled once and has the handler's answer to its own request. |
| Batcher.BatchProcessor.Callback | server/concurrent.go:308-312 | A fired timer's callback processes whatever batch there is when it gets the lock. |
| Batcher.RequestSpelledOut | server/concurrent.go:291-324 | A request that leaves the batch short of full handles nobody and leaves a timer set, a new one only if none was; one that fills it handles everybody and stops the timer. |
| Batcher.CallbackSpelledOut | server/concurrent.go:308-312 | A callback handles exactly what is in the batch and leaves no timer set. |
| Batcher.LockFreeInvariant | server/concurrent.go:291-362 | Whenever the lock is free the batch is short of full, non-empty exactly when a timer is set, and that timer is armed or its callback waiting. |
| Batcher.HandledAtMostOnce | server/concurrent.go:291-362 | Stale callbacks or not, each request is handled at most once, and is unhandled exactly while in the batch. |
| Batcher.NobodyStranded | server/concurrent.go:291-362 | With no further request the timer alone gets every submitted request handled. |
| Batcher.EveryCallbackEmptiesTheBatch | server/concurrent.go:308-312 | Any waiting callback, stale or not, leaves nothing unhandled. |
| AdaptivePool.NewAdaptiveWorkerPool | server/concurrent.go:513-561 | Of options that are not nil: panics exactly if the embedded options are nil, the queue size is negative or the interval is not positive; else a pool within its repaired bounds. |
| AdaptivePool.AdaptiveWorkerPool.constructor | server/concurrent.go:513-556 | The options are repaired and as many workers as the repaired number started. |
| AdaptivePool.AdaptiveWorkerPool.AverageUtilization | server/concurrent.go:645-656 | The loop computes the mean of the history, zero if empty. |
| AdaptivePool.AdaptiveWorkerPool.EvaluateScaling | server/concurrent.go:579-642 | One tick: sample, decide, respect the interval, scale; the whole new state. |
| AdaptivePool.AdaptiveWorkerPool.ScaleWorkers | server/concurrent.go:659-703 | The list, the counter and the goroutines after scaling up or down; a target on the wrong side changes nothing. |
| AdaptivePool.DecisionFacts | server/concurrent.go:598-630 | A decision moves the size strictly, stays in bounds, and never reaches the clamp in removeWorkers. |
| AdaptivePool.AlwaysInBounds | server/concurrent.go:513-703 | For all options and runs min <= currentWorkers = len(workers) <= max, and the clamp is not reached. |
| AdaptivePool.HistoryIsLatest | server/concurrent.go:579-596 | After any run the history is the latest at most ten of all samples taken. |
| AdaptivePool.OverloadGrows | server/concurrent.go:598-687 | An overloaded tick below the maximum adds a quarter, at least one worker, at most what is missing. |
| AdaptivePool.OverloadReachesMax | server/concurrent.go:579-687 | As many overloaded ticks as workers are missing reach the maximum. |
| AdaptivePool.OverloadStaysAtMax | server/concurrent.go:598-630 | At the maximum an overloaded tick only records its sample, if the thresholds are in order. |
| AdaptivePool.UnderloadShrinks | server/concurrent.go:610-618 | An underloaded tick above the minimum takes away a quarter, at least one worker, at most what is too much. |
| AdaptivePool.UnderloadReachesMin | server/concurrent.go:579-703 | As many underloaded ticks as there are workers too many reach the minimum. |
| AdaptivePool.NothingScaled | server/concurrent.go:593-624 | With fewer than three samples, within the interval, or with the average between the thresholds a tick only records its sample. |
| AdaptivePool.ChangeIsTimed | server/concurrent.go:621-703 | A change of size is timed, comes no sooner than the interval, and takes workers from the end of the list or adds them there. |
| AdaptivePool.RepairedSpelledOut | server/concurrent.go:518-530 | Options in order are kept; otherwise minimum one, maximum twice the minimum, number of workers between the two. |
| AdaptivePool.AverageTimesCount | server/concurrent.go:645-656 | The number of samples times the average is their sum. |
| AdaptivePool.AverageOfLike | server/concurrent.go:645-656 | The average of like samples is their value. |
| AdaptivePool.SamplesSpelledOut | server/concurrent.go:583-590 | A sample times the workers is the active requests; the history is the latest ten. |
| AdaptivePool.GoroutinesOutliveScaleDown | server/concurrent.go:676-703 | Running goroutines exceed currentWorkers by exactly the workers ever retired. |
| Registry.RegistryObject.RegisterItem | discovery/registry.go:31-58 | A taken key is refused and nothing changes; else the entry is stored and its event offered to every listener. |
| Registry.RegistryObject.UnregisterItem | discovery/registry.go:61-78 | Removes the entry and notifies, or refuses and changes nothing. |
| Registry.RegistryObject.SetAvailability | discovery/registry.go:331-364 | Changes one entry's flag and emits nothing. |
| Registry.RegistryObject.NotifyListeners | discovery/registry.go:320-328 | Each listener gets the event unless its buffer of 100 is full. |
| Registry.RegistryObject.AddListener | discovery/registry.go:216-223 | A new empty channel at the end of the list. |
| Registry.RegistryObject.RemoveListener | discovery/registry.go:226-237 | Closes and removes the channel if it is listed, keeping the others in order. |
| Registry.RegisterDelivers | discovery/registry.go:31-58 | Registering a free key stores the entry and emits its event, which every listener with fewer than 100 unread has as its last one, and a listener with 100 loses; a taken key changes nothing. |
| Registry.UnregisterDelivers | discovery/registry.go:61-78 | The same for unregistering a taken key; a free one changes nothing. |
| Registry.UpdateSetsFlag | discovery/registry.go:331-364 | One entry's flag becomes what was asked, everything else stays, and nobody hears of it. |
| Registry.NewListener | discovery/registry.go:216-223 | A new listener comes last, with nothing heard and nothing unread. |
| Registry.UnsubscribedHearsNothing | discovery/registry.go:226-237 | Its channel is closed and gets no further event; the other listeners go on. |
| Registry.LosesNothingIff | discovery/registry.go:320-328 | Over any run a listener loses no event if and only if it is at no point more than 100 events behind. |
| Registry.KeepingUpReplays | discovery/registry.go:216-328 | A listener that keeps up so can replay the registry from the moment it subscribed. |
| Registry.StepKeepsInv | discovery/registry.go:31-237 | Every operation keeps the invariant relating entries, event log and channels. |
| Registry.ReplayRecovers | discovery/registry.go:31-328 | What a listener received and has buffered is a subsequence of what was emitted since it subscribed, at most 100 buffered; all of it exactly when nothing was dropped, and then replaying it yields the present keys. |
| Watcher.PluginWatcher.LoadHandler | discovery/handler.go:72-128 | Loads a handler unless one is loaded or the load fails; nothing else changes. |
| Watcher.PluginWatcher.UnloadHandler | discovery/handler.go:131-170 | Removes the handler unless its subprocess cannot be killed. |
| Watcher.PluginWatcher.RegisterPlugin | discovery/watcher.go:227-265 | Registers a manifest's items in order, stopping at the first refusal. |
| Watcher.PluginWatcher.UnregisterAll | discovery/watcher.go:277-307 | Unregisters the remembered manifest's items, carrying on past those missing. |
| Watcher.PluginWatcher.Process | discovery/watcher.go:138-185 | Unreadable: kept. Equal: untouched. New or changed: replaced, and remembered if every item registered. |
| Watcher.PluginWatcher.ForgetUnseen | discovery/watcher.go:187-196 | Every remembered plugin that was not seen is unregistered and forgotten, in whatever order the map gives. |
| Watcher.PluginWatcher.Scan | discovery/watcher.go:117-198 | A whole scan; if the directory cannot be read nothing changes. |
| Watcher.RegisterItemsEffect | discovery/watcher.go:227-265 | With fresh distinct keys all items register, each with its payload, source and tags, and no other key changes. |
| Watcher.UnregisterItemsEffect | discovery/watcher.go:277-307 | The items' keys are gone and no other key changes. |
| PluginHandlers.DeclaredInOrder | discovery/watcher.go:231-262 | Tools, then resources, then prompts, each under its own category. |
| PluginHandlers.RegistersWithHandlers | discovery/watcher.go:227-265 | Fresh distinct items are registered available, a tool with its handler exactly if it can be loaded and was not loaded already, resources and prompts with none; which handlers are loaded afterwards. |
| PluginHandlers.UnregistersWithHandlers | discovery/watcher.go:277-307 | The items are gone, and so are the handlers of their tools, stuck ones excepted. |
| PluginHandlers.NewPluginRegistered | discovery/watcher.go:154-185 | Every entry of a new plugin's tools, resources and prompts, spelled out. |
| PluginHandlers.FoundKeepsHandlers | discovery/watcher.go:154-185 | With no process stuck, every tool of a new or changed plugin has its handler if it can be loaded, and the registry's handlers stay those loaded. |
| PluginHandlers.HandlersFollowScans | discovery/watcher.go:117-307 | After any run of scans with no process stuck, each plugin's tool is registered with exactly the handler loaded for it, and none is loaded for a tool that is gone. |
| Watcher.ProcessFoundAgrees | discovery/watcher.go:138-185 | One manifest file keeps registry and remembered manifests in agreement, with the exact number of events it emits. |
| Watcher.ScanAgrees | discovery/watcher.go:117-198 | A scan over any directory state keeps the agreement; remembered is the loaded manifest where readable, the previous one where unreadable, none where gone; keys nobody owns are untouched. |
| Watcher.IncrementalEqualsRebuild | discovery/watcher.go:117-307 | After any run of scans and manual operations, if each key belongs to one plugin, the owned entries (key, payload, source, tags) are those of a registry rebuilt from the manifests that should be remembered. |
| Watcher.SecondScanSilentIff | discovery/watcher.go:154-184 | If each key belongs to one plugin, is declared once in a manifest and never registered by hand, a second scan of an unchanged directory emits no event if and only if no plugin id stands for two unlike manifests. |
| UnownedScans.ScanSilentIff | discovery/watcher.go:117-307 | With no condition on ownership: a scan emits no event if and only if each manifest is unreadable, unchanged, or has nothing of its old form registered and is empty or refused at its first item, and no plugin to be forgotten has anything registered. |
| UnownedScans.PerpetualChurn | discovery/watcher.go:160-182 | A directory that never changes and of which every scan emits two events, because the update of one plugin is refused each time. |
| UnownedScans.ChurnIsReached | discovery/watcher.go:117-198 | One scan from nothing leads there. |
| UnownedScans.OrphansAfterIff | discovery/watcher.go:160-185 | Which registered keys no remembered manifest declares after a new or changed manifest, from the state before: if all items are fresh the manifest is remembered, otherwise the items before the first taken or repeated one stay and it is not. |
| UnownedScans.RefusalOrphansIff | discovery/watcher.go:160-185 | Of a new plugin or an update, an item nobody remembered declares, coming before any taken or repeated one, is left behind if and only if some item is registered already (once the plugin's own are unregistered) or declared twice. |
| UnownedScans.OrphansStay | discovery/watcher.go:117-307 | Whatever directories come and go, no scan removes or replaces such an entry. |
| Watcher.ListenersFollowScans | discovery/watcher.go:117-307 | Replay recovers the registry's keys after any run of scans too, with no condition on ownership. |
| Subscriptions.Manager.Subscribe | subscriptions/manager.go:59-89 | Refused at the quota or for an unknown method with nothing changed; else added to the map and both indices. |
| Subscriptions.Manager.Unsubscribe | subscriptions/manager.go:92-121 | Found exactly if live; the state without that id, and no empty list left. |
| Subscriptions.Manager.UnsubscribeClient | subscriptions/manager.go:124-148 | The state without exactly that client's subscriptions. |
| Subscriptions.Manager.CleanupInactive | subscriptions/manager.go:341-375 | The state without exactly the entries older than the cutoff, and their number, in any iteration order. |
| Subscriptions.Manager.TouchSubscription | subscriptions/manager.go:331-338 | One entry's time changes; the indices stay right. |
| Subscriptions.Manager.RemoveFromSlice | subscriptions/manager.go:321-328 | The list without the first occurrence. |
| Subscriptions.Manager.IsValidMethod | subscriptions/manager.go:302-318 | The loop finds exactly the listed methods. |
| Subscriptions.Manager.HandleEvent | subscriptions/manager.go:221-299 | Each once, and spelled out for every event type: a resource event reaches exactly the live subscriptions to its URI, a list event every live one to that list, if there is a handler; any other event none. |
| Subscriptions.Manager.Dispatch | subscriptions/manager.go:229-254 | The loop over one index finds exactly what a full scan of the primary map would match. |
| Subscriptions.AcceptedIff | subscriptions/manager.go:59-89 | A subscription is accepted if and only if its client has fewer live ones than allowed and the method is one of the five; the limit is found first. |
| Subscriptions.ClientLeaves | subscriptions/manager.go:124-148 | Exactly the subscriptions of other clients stay, unchanged. |
| Subscriptions.InactiveLeave | subscriptions/manager.go:341-375 | Exactly those last active at the cutoff or later stay, unchanged, and the number is of those that do not. |
| Subscriptions.IndicesAlwaysAgree | subscriptions/manager.go:59-375 | In every reachable state each live id is once in its client's and once in its method's list, the lists hold nothing else, none is empty, and no client is over its quota. |
| Subscriptions.SubscribingKeepsInv | subscriptions/manager.go:59-89 | Subscribing with a fresh id keeps the indices right and the quota. |
| Subscriptions.WithoutKeepsInv | subscriptions/manager.go:92-148 | So does removing any set of ids. |
| Subscriptions.RemovingOne | subscriptions/manager.go:92-121 | Editing the two lists of one id amounts to removing it from every list. |
| Subscriptions.ClientRemoved | subscriptions/manager.go:124-148 | Editing the method lists and dropping the client's own list amounts to removing the client's ids everywhere. |
| Subscriptions.CleanOneMore | subscriptions/manager.go:348-359 | One turn of the cleanup loop adds one id to those removed. |
| ErrorCodec.FillDigits | protocol/json_optimized.go:283-287 | The backwards loop: the digits at the end of the 20-byte buffer, with room for a sign. |
| ErrorCodec.ItoaBuffer | protocol/json_optimized.go:271-295 | The whole text, sign first, never outside the buffer. |
| ErrorCodec.DigitsSpelledOut | protocol/json_optimized.go:271-295 | One digit for less than ten, one more digit for more, a minus in front of a negative. |
| ErrorCodec.EscapeString | protocol/json_optimized.go:298-342 | Fast path or slow, the byte-wise escapes. |
| ErrorCodec.MarshalError | protocol/json_optimized.go:239-268 | The object text, the encoder's newline taken off; fails exactly when the data does not encode. |
| ErrorCodec.ItoaParsesBack | protocol/json_optimized.go:271-295 | A reader of JSON integers, which refuses leading zeros, gets the code back if and only if it is not the minimum. |
| ErrorCodec.ItoaIsShort | protocol/json_optimized.go:273-295 | One to twenty bytes for every code. |
| ErrorCodec.NothingToEscape | protocol/json_optimized.go:300-312 | Where the fast path is taken it equals the slow one. |
| ErrorCodec.EscapedReadsBack | protocol/json_optimized.go:298-342 | For every byte string the escapes decode back (section 7 of RFC 8259), with no control byte and no bare quote before the closing one. |
| ErrorCodec.EscapesSpelledOut | protocol/json_optimized.go:316-350 | The short escapes, the long one with lower-case digits, and no other. |
| ErrorCodec.ObjectSpelledOut | protocol/json_optimized.go:239-268 | The members' names, order and punctuation. |
| ErrorCodec.MarshalledParsesBack | protocol/json_optimized.go:239-268 | Code, message and data text are recovered from the emitted object if and only if the code is not the minimum. |
| FlexibleParsing.EqualFold | protocol/flexible_parsing.go:113-133 | The loop decides equality up to the case of ASCII letters. |
| FlexibleParsing.FoldEquivalence | protocol/flexible_parsing.go:113-133 | That is an equivalence. |
| FlexibleParsing.FindKey | protocol/types.go:368-385 | The exact key if there is one, else a fold-equal one, else none exists; any iteration order. |
| FlexibleParsing.LookupUniqueIff | protocol/types.go:368-385 | The answer is independent of iteration order if and only if the exact key exists or no two keys fold to the name. |
| FlexibleParsing.SetFieldValue | protocol/flexible_parsing.go:19-109 | Terminates; the variable holds a value of its declared type; slice lengths are kept; on failure it is unchanged; if every name looked up has one answer the outcome is one function of the input, whatever the iteration order. |
| FlexibleParsing.ConvertMap | protocol/flexible_parsing.go:249-270 | In any order: assignable entries copied, others dropped, a nil value panics once keys are assignable. |
| FlexibleParsing.ConvertSlice | protocol/flexible_parsing.go:272-318 | The same guarantees for slices, filled in place element by element. |
| FlexibleParsing.ConvertItem | protocol/flexible_parsing.go:281-313 | The same for one element: assigned, filled as a struct, or converted. |
| FlexibleParsing.MapToStruct | protocol/types.go:328-398 | The struct stays well typed and fields the map has nothing for keep their value, whatever happens; if every name looked up has one answer the outcome is one function of the input. |
| FlexibleParsing.FillField | protocol/types.go:343-395 | One field: unexported or not found leaves it alone, else it is set from the key found. |
| ParsingLaws.FieldReadsItsTag | protocol/types.go:351-395 | A tagged field is set from the key that folds to the tag's name, options or not, and from no other. |
| ParsingLaws.UntaggedFieldReadsItsName | protocol/types.go:351-395 | Without a tag, or with a dash for it, from the key that folds to its Go name. |
| ParsingLaws.ExactKeyWins | protocol/types.go:368-385 | Of two keys that fold to the name the one spelled like it is read. |
| ParsingLaws.FailsAtFirst | protocol/types.go:343-395 | A struct that cannot be filled keeps what was set before the first field that fails, and its old values from there on. |
| FlexibleParsing.FoldDistinctIsSettled | protocol/types.go:368-385 | Keys pairwise fold-distinct at every depth give every name looked up one answer, for every type. |
| FlexibleParsing.ElementByElement | protocol/flexible_parsing.go:281-316 | A slice converts if and only if every element does, and to the elements' conversions. |
| FlexibleParsing.FieldByField | protocol/types.go:343-398 | A struct is filled if and only if every field can be, each field independently of the others. |
| FlexibleParsing.IntegerArrivesIff | protocol/flexible_parsing.go:50-61 | An integer of any width arrives unchanged in an integer variable of any width if and only if that type has it. |
| ParsingLaws.RangesSpelledOut | protocol/flexible_parsing.go:50-61 | The range of every integer type. |
| ParsingLaws.WholeFloatArrives | protocol/flexible_parsing.go:165-169 | A float holding an integer of the declared type's range arrives as that integer. |
| ParsingLaws.FractionDropped | protocol/flexible_parsing.go:165-169 | Any other float loses its fraction towards zero. |
| ParsingLaws.LowBitsKept | protocol/flexible_parsing.go:50-61 | An integer that does not fit a narrow type is off by a multiple of the type's size. |
| ParsingLaws.NegativeRefused | protocol/flexible_parsing.go:174-216 | Negative numbers are refused by unsigned types. |
| ParsingLaws.TooLargeRefused | protocol/flexible_parsing.go:147-164 | Unsigned numbers beyond 64 signed bits are refused by signed types. |
| ParsingLaws.NumberBecomesFloat | protocol/flexible_parsing.go:218-247 | Numbers become floats by rounding. |
| ParsingLaws.TextIsNoNumber | protocol/flexible_parsing.go:50-73 | Text and bools are refused by number types, text by bools. |
| ParsingLaws.SliceLimit | protocol/flexible_parsing.go:87-92 | Slices to be converted are refused above 100000 elements and not below. |
| ParsingLaws.MapEntryByEntry | protocol/flexible_parsing.go:249-270 | Maps to be converted are refused above 50000 entries; otherwise the assignable entries arrive, unless one is nil. |
| ParsingLaws.WrongKindsRefused | protocol/flexible_parsing.go:249-276 | What is no map or slice is refused by those types; other keys leave a map empty; a nil slice becomes an empty one. |
| ParsingLaws.OtherKindsByJson | protocol/flexible_parsing.go:93-106 | Structs and other kinds go by way of JSON. |
| ParsingLaws.ElementSpelledOut | protocol/flexible_parsing.go:281-313 | A nil element leaves the zero value, a map fills a struct, anything else converts like a field. |
| FlexibleParsing.StringAcceptedIff | protocol/flexible_parsing.go:27-49 | A string is accepted if and only if the type is plain string or the length is within the limit. |
| FlexibleParsing.NilFreeNeverPanics | protocol/flexible_parsing.go:19-318 | A value with no nil map entry at any depth never makes a conversion panic. |
| FlexibleParsing.PanicsIffTraps | protocol/flexible_parsing.go:19-318 | A conversion panics if and only if, before anything fails, it reaches a map of the right kind and size with a nil entry for a map type with string keys that it is not assignable to; through slices and structs of any depth. |
| FlexibleParsing.StructPanicsIff | protocol/types.go:328-398 | The same for filling a whole struct. |
| FlexibleParsing.NilEntryPanics | protocol/flexible_parsing.go:258-263 | The smallest input that panics. |
| FlexibleParsing.CheckRequired | protocol/flexible_parsing.go:357-369 | Complete if and only if every required name has a fold-equal key. |
| FlexibleParsing.RequiredFieldIsFound | protocol/flexible_parsing.go:357-369 | A field named like a required parameter, up to case, is found by every lookup if and only if the parameter was supplied. |
| FlexibleParsing.ValidateAndParseParams | protocol/flexible_parsing.go:321-373 | Without a map or with a required name missing it fails and touches nothing; else, and only else, the struct is filled from the map, or from what JSON decoding left, and is well typed either way. |
| FlexibleParsing.FlexibleParseParams | protocol/types.go:281-308 | Nil leaves the target alone; maps are filled in; anything else goes by way of JSON text. |
| FlexibleParsing.FlexibleUnmarshal | protocol/types.go:311-325 | What a failed decoding left behind is the start for the field-wise filling. |
| Versioning.ParseInvertsPrint | versioning/versioning.go:427-458 | Parsing inverts printing for every version. |
| Versioning.ShortVersionsCompleted | versioning/versioning.go:427-458 | With or without the v, missing numbers are zero and what follows the third is ignored. |
| Versioning.NotVersions | versioning/versioning.go:427-458 | Texts that are no version. |
| Versioning.PrintInjective | versioning/versioning.go:23-25 | Two versions never share a router key. |
| Versioning.CompareIsTotalOrder | versioning/versioning.go:52-75 | Antisymmetric, transitive, and zero exactly for equal versions. |
| Versioning.CompareIsLexicographic | versioning/versioning.go:41-75 | Majors decide, then minors, then patches; compatible is the same major and no smaller minor. |
| Versioning.VersionRouter.AddHandler | versioning/versioning.go:357-362 | Replaces the handler of that version and of no other. |
| Versioning.VersionRouter.FindCompatibleHandler | versioning/versioning.go:401-422 | The exact version if registered, else the greatest with the same major and no larger minor, else none. |
| Versioning.RoutingDeterministic | versioning/versioning.go:401-422 | There is only one such answer, so iteration order does not matter. |
| Sampling.SamplingHandler.Handle | logging/structured.go:570-577 | Counts, wrapping at 2^64, and forwards while the count modulo 100 is below 100 * rate. |
| Sampling.AnyHundred | logging/structured.go:570-577 | Any hundred consecutive counts forward exactly the quota: 100 * rate rounded up, within 0 and 100. |
| Sampling.SamplingIsExact | logging/structured.go:570-577 | From any counter, before it wraps, any 100 * k records forward exactly k quotas. |
| Sampling.HundredIsExactIff | logging/structured.go:570-577 | The next hundred records forward the quota at every rate if and only if they do not cross the wrap or start right at it. |
| Sampling.WrapBreaksTheQuota | logging/structured.go:570-577 | A hundred records across the wrap that forward at least two where the quota is one. |

## Left out

- Rounding: instants, tokens, loads and floats are reals, so that a retried `Wait` may be a
  nanosecond of refill short in practice is not captured, nor are NaN and infinities.
- TokenBuckets.TokenBucket.ReserveN: what Go makes of the infinite delay at rate zero is a parameter.
- TokenBuckets.TokenBucket.Wait: other consumers during the wait are not modelled, since with them a
  retry promises nothing.
- TokenBuckets.CancelExactIff: calls whose verdict the reservation turns are excluded; with those it
  has left a trace before Cancel.
- TokenBuckets.WindowBound: windows contain no `Cancel`; a refund may be for a reservation made
  before the window.
- RateLimitTable.RateLimitMiddleware.constructor: when cleanups run is left open, so the cleanup
  interval, on which a negative value panics, is left out.
- RateLimitTable.RateLimitMiddleware.AllowIdentifier: looking a bucket up and asking it are one
  instant; a caller that keeps a bucket across a cleanup is not modelled. Nor are `WaitN`, `ReserveN`,
  `Stats` and how a user and an address are found in a context.
- RateLimitTable.RateLimitMiddleware.Process: as a method it runs with nothing between its two parts;
  runs in which other requests and cleanups come between them are those of `Eviction.dfy`.
- Eviction.GlobalHidesEviction: holds only under its hypothesis on the two instants.
- WorkerPool.InvStep: the pool is a value with atomic steps, not objects with channels, since its
  guarantees are about interleavings. That the wrapped handler returns is a step it may take, and a
  panicking handler is not modelled. The panic of a worker's deferred store ends the process in one
  step; what other goroutines do while it unwinds is left out. Negative numbers of workers and queue
  sizes panic at construction. Worker ids and the metrics map are left out.
- PoolLiveness.NobodyStranded: is about the pool with `activeWork` cleared as intended, because as
  written the process ends with the first finished item.
- PoolLiveness.EveryCallerFinishes: likewise.
- PipelineHandler and the channel of periodic scaling: easy members beside the above.
- Batcher.BatchProcessor.HandleRequest: a negative batch size panics at construction. The caller's wait for its reply, and leaving early because
  its context ended, are left out; what is handled does not depend on them.
- AdaptivePool.AdaptiveWorkerPool.EvaluateScaling: the doubling of the minimum in the options is
  unbounded, where Go's would overflow, and its workers are counted as if the process went on after
  a finished item.
- Registry.RegistryObject.RegisterItem: tools, resources and prompts share one map keyed by category
  and name; timestamps are left out, and so is the aliasing of the entry an event carries. `Discover`
  and its filter only read.
- Watcher.PluginWatcher.LoadHandler: starting, checking and talking to subprocesses is an
  environment that lets each load succeed or fail.
- Watcher.PluginWatcher.Process: comparing manifests is equality of values, as it is after
  encoding both to JSON; reading the directory and parsing manifests are inputs.
- Subscriptions.Manager.HandleEvent: which subscriptions are dispatched, not the event variable
  their goroutines read later; `PublishEvent`, which drops events when its channel is full, is left
  out. Parameters are the outcome of parsing them.
- Subscriptions.Manager.Subscribe: subscriptions are values, so a caller that changes the one it was
  handed is not modelled.
- ErrorCodec.MarshalError: the data's JSON is whatever text the encoder yields. `marshalRequest`,
  `marshalResponse`, buffer pools and unsafe string conversions are left out.
- FlexibleParsing.SetFieldValue: interfaces with methods and recursive type declarations have no
  term in the model's types; the JSON fallback, `fmt.Sprintf` and out-of-range float conversion are
  opaque functions, the fallback's result being of the declared type.
- FlexibleParsing.MapToStruct: if keys with different values compete for a field, the outcome depends
  on iteration order; only well-typedness and the untouched fields are stated then. That competing
  values may still convert to the same result is not captured.
- FlexibleParsing.PanicsIffTraps: is about one choice among competing keys.
- FlexibleParsing.ValidateAndParseParams: the target is a struct variable; a target that is no pointer is
  an error and one that points to no struct a panic, neither of which is modelled.
- FlexibleParsing.FlexibleUnmarshal: what `encoding/json` decodes is opaque; the filling after it is not.
- Sampling.SamplingHandler.Handle: copies made by `WithAttrs` and `WithGroup` go on from the present
  count, each on its own; only one handler's counter is modelled, without concurrent use.
- Versioning: extraction of versions from requests, deprecation headers and the middleware.
- Transports, REST routing, authentication, tracing, metrics, log formatting, client profiles,
  health checks, examples and test utilities: input and output, or finite tables.
