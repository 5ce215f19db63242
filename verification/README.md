# Control plane of the inference engine, verified

Dafny models of the engine's control plane, file by file, and proofs of what it promises. `dafny verify dfyconfig.toml`
checks everything.

Concurrent code is a step relation: one event is the code between two awaits (or between two lock, semaphore or queue
operations of a thread), a run is any sequence of events, and an event that is not enabled changes nothing. The theorems
therefore hold for every interleaving. Objects that the source updates in place are classes; each of their methods is
proved to take the step of the model.

| module | what it models |
|---|---|
| `TokenStream`, `StreamObject` | the bridge from a blocking token producer to the event loop: protocol and object |
| `Registry`, `Router` | backend selection, leases, cascades, workload preferences, the dry run |
| `Scheduler` | admission with bounded concurrency, bounded queue and drain |
| `Gateway`, `Quota`, `QuotaPeak` | per-key slots and access handles; windows, usage and the quota pre-check; its exact worst case |
| `Serving`, `ServingObjects` | the request lifecycle over scheduler, registry, limiter and counters: protocol and objects |
| `Counters` | request counters and the rolling rate |
| `Ownership` | store locks, and the lifespan of any number of engine processes |
| `Download`, `Commit`, `ModelService` | resumable transfer, the cancel/commit race, ownership of model files |
| `ClientEvents` | the per-client event log, its wakeup and its server-sent stream |
| `EventBus` | the drop-oldest publish/subscribe bus |
| `Audit` | the hash-chained audit log |
| `Gguf` | the GGUF header walk |

## Findings

Promises that the code keeps only under a condition. Each is stated with its exact condition and a run or input that fails.

- A cancelled wait in `admit` leaks the key's gateway slot (`engine/api/serving.py:132-135` handles only saturation, while
  lines 112-114 promise that nothing stays held), and so does a quota store that fails after the slot was granted; a
  failing usage write leaks the active gauge. The conservation law is exact if and only if none of these happened
  (`Serving.ConservedIffNothingLeaked`), and a key is locked out for good if and only if its leaks have reached its limit
  (`Serving.LockedOutIffLeaked`). Runs: `Serving.CancelledWaitLocksOut`, `Serving.FailedStoreLeavesSlotTaken`,
  `Serving.FailedWriteLeavesGaugeUp`.
- "Drained" is final exactly when no request is still waiting at the moment nothing is in use
  (`Scheduler.DrainedIsFinalIffQueueEmpty`).
- A terminal can be refused by the token queue exactly when, as it is offered, the loop lives and a bounded queue's worth of
  tokens is in flight (`TokenStream.TerminalIsSafeIffRoom`); only a cancellation leads there.
- A quota can be overrun by concurrent requests. The worst case is computed exactly (`QuotaPeak.Peak`; nothing exceeds it,
  `QuotaPeak.UsageStaysWithinPeak`, and recorded usage reaches it, `QuotaPeak.PeakIsAttained`): limit + (M - 1) * E, where E
  is the largest estimate both limits let in, or, if smaller, what the other window lets through in all the windows of it
  that this one touches (34 stretches of five hours in a week, 2 weeks in five hours). So a quota holds exactly when M is 1,
  or there is a concurrency limit and the other window is that much tighter
  (`QuotaPeak.QuotaHoldsIffOneAtATimeOrShielded`). With the default limits the week is not shielded: its quota holds exactly
  for M = 1 (`QuotaPeak.DefaultWeekHoldsIffOneAtATime`).
- A successful download is the whole file, whatever the server does, exactly when a digest is expected that no proper prefix
  of the file has (`Download.DoneIsWholeIffDigestPins`).
- `max_bytes` is checked against a declared length and after every chunk, so a promoted file can exceed it exactly when the
  `.part` it resumes from already does and the digest does not rule it out (`Download.LimitHoldsIffPartWithin`); a failed
  attempt leaves such a `.part`, since the chunk that crosses the limit is written first
  (`Download.FailedAttemptLeavesTooMuch`).
- Deleting a model removes its file and its `.part` file, and looks only at the row's own path: it takes a file that another
  model loads, imports or downloads exactly when those paths coincide or one is the `.part` of the other
  (`ModelService.DeleteTakesLoadedFileIffShared`, `ModelService.DeleteTakesImportIffPart`,
  `ModelService.DeleteTakesDownloadIffPart`). Runs: `ModelService.SharedPathIsReachable`,
  `ModelService.LeftoverImportIsReachable`, `ModelService.PartImportIsReachable`.
- The event stream's drain (`engine/api/client_router.py:345-350` says "everything newer than the cursor") stops after
  200 rows and then sleeps, exactly when more than 200 were unread (`ClientEvents.PassStallsIffOverBatch`), as on every log
  of that many appended events (`ClientEvents.LongLogStalls`).
- The audit log's documentation (`engine/audit/log.py:7-9`) says that any deletion breaks `verify`; a cut at the end does
  not (`Audit.RemovalIsNoticedIffNotLast`). Overlapping `record` calls break it
  (`Audit.LogVerifiesIffSerial`; two of them in `Audit.OverlapBreaksLog`).
- A GGUF file that was cut short is reported as valid exactly when the cut leaves everything that is really read: it may lie
  in the last value, if that is skipped, after its length words (`Gguf.CutIsNoticedIffRead`, `Gguf.RequiredIsLast`); a file
  that ends in a skipped scalar can always lose its last byte (`Gguf.TruncatedFileIsAccepted`).

## Model

| member | source | states |
|---|---|---|
| `TokenStream.NextKeeps` | engine/inference/stream.py:89-206 | every atomic block of producer, loop and consumer keeps the permit, terminal, delivery and callback accounts |
| `TokenStream.StreamIsBounded` | engine/inference/stream.py:89-142 | in every interleaving tokens queued or in transit stay within `maxsize` although `aclose` adds a permit; at most one terminal; only a cancel-branch terminal can be refused; at most one late `next`; `on_done` at most once |
| `TokenStream.StreamDeliversInOrder` | engine/inference/stream.py:144-174 | chunks are the produced tokens in order, numbered from zero; text and `completion_tokens` of the result agree with that prefix, all of it when the terminal was consumed |
| `TokenStream.EndIsReported` | engine/inference/stream.py:89-125 | in every interleaving a terminal comes only after the call into the generator that ended it, carries an error iff that call (creation, `next` or `close`) raised, says cancelled if it was a close and otherwise the generator's own finish reason; so does the result, unless `aclose` recorded it as cancelled |
| `TokenStream.NextTells` | engine/inference/stream.py:89-125 | every block keeps: the producer is ending iff its generator is over, and the terminal it holds or offered reports how |
| `TokenStream.EverythingCanBeDelivered` | engine/inference/stream.py:89-174 | for every sequence of tokens and every end there is a run that delivers all of it, in order, and records join, count and finish or failure once |
| `TokenStream.ConsumerNeverHangs` | engine/inference/stream.py:89-142 | with everything taken and nothing in transit the producer's next block moves on, or the stream is over, or its terminal was refused after a cancellation |
| `TokenStream.BackpressureIsExact` | engine/inference/stream.py:100-104 | `backpressure_waits` counts exactly the times the producer came for a slot and found the buffer full |
| `TokenStream.AbandonedCloseRecordsNothing` | engine/inference/stream.py:176-195 | a close abandoned while joining records and fires nothing; one that returns does both, keeping an earlier result |
| `TokenStream.StreamReleasesBackend` | engine/inference/stream.py:126-133 | once the worker ended and the loop ran its callbacks, `on_done` was called exactly once, consumed or not |
| `TokenStream.CloseMakesProgress` | engine/inference/stream.py:176-184 | after `aclose` released its permit the producer is never stuck on capacity and each of its blocks brings its end closer |
| `TokenStream.CloseEndsProducer` | engine/inference/stream.py:89-133 | five blocks after `aclose` suffice under any interleaving, with exactly one terminal offered |
| `TokenStream.TerminalIsSafeIffRoom` | engine/inference/stream.py:89-142 | at the moment a terminal is offered, no continuation refuses it iff the loop is gone, the queue is unbounded or fewer tokens than its size are in flight |
| `TokenStream.CancelledTerminalCanBeRefused` | engine/inference/stream.py:95-98 | a run that reaches the refusing side of that condition |
| `StreamObject.QueueGenerationStream.constructor` | engine/inference/stream.py:50-87 | a new stream is the protocol's initial state |
| `StreamObject.QueueGenerationStream.RunBlock` | engine/inference/stream.py:89-133 | each block of the thread, on the object's fields, is the protocol's producer step |
| `StreamObject.QueueGenerationStream.Offer` | engine/inference/stream.py:135-140 | schedules the put, or sets the cancel flag when the loop is gone |
| `StreamObject.QueueGenerationStream.RunCallback` | engine/inference/stream.py:126-138 | the loop's oldest callback lands its item, meets a full queue, or fires `on_done` |
| `StreamObject.QueueGenerationStream.TakeNext` | engine/inference/stream.py:144-159 | hands out the next chunk numbered by the index and returns its permit, or ends the stream: with the failure iff the offered terminal carries one, else normally |
| `StreamObject.QueueGenerationStream.Conclude` | engine/inference/stream.py:161-174 | records the result once and fires `on_done` once |
| `StreamObject.QueueGenerationStream.BeginClose` | engine/inference/stream.py:176-180 | only the first `aclose` goes on, with the flag set |
| `StreamObject.QueueGenerationStream.EndClose` | engine/inference/stream.py:181-195 | afterwards there is a result, the stream is exhausted and `on_done` has fired |
| `StreamObject.QueueGenerationStream.FireDoneOnce` | engine/inference/stream.py:201-205 | calls `on_done` exactly when it was not called before |
| `Registry.PlacementIsExact` | engine/inference/registry.py:323-358 | leased iff some backend can take the request, and that one can; unloaded, feature error and busy iff their conditions over the pool |
| `Registry.PickFindsTaker` | engine/inference/registry.py:300-321 | a tier yields a backend iff one of its backends can take the request, key or no key |
| `Registry.SpilloverIsLastResort` | engine/inference/registry.py:276-288 | a spillover entry is chosen iff no primary one can take the request |
| `Registry.PrefixKeyCostsNothing` | engine/inference/registry.py:304-318 | a prefix key changes neither placement, nor error, nor tier |
| `Registry.ChosenIsLeastBusy` | engine/inference/registry.py:291-321 | except by affinity the choice is the least busy taker of its tier, earliest among equals; `model_map` means it was the only one |
| `Registry.ChoiceIsExplained` | engine/inference/registry.py:262-321 | the reason, exactly: a keyed request goes to the prefix-cache backend its digest selects iff that has capacity, else it is an affinity fallback; without key or cache it is `model_map` iff a model is named and the tier has a single taker, else least busy |
| `Registry.FiltersMean` | engine/inference/registry.py:214-235 | what each comprehension keeps, in terms of health, state, model, features, scope and tier |
| `Registry.AffinityIsSticky` | engine/inference/registry.py:262-313 | while the same backends of its tier are capable, a request selected by affinity is selected onto the same backend again iff that backend has capacity (and, on spillover, no primary one can take it) |
| `Registry.LeastBusyOf` | engine/inference/registry.py:317-321 | the minimum by (in flight, order) |
| `Registry.Positions` | engine/inference/registry.py:276-284 | a comprehension keeps exactly the entries that pass, in order |
| `Registry.BackendRegistry.Acquire` | engine/inference/registry.py:323-367 | one more request in flight on an entry that could take it and nothing else touched; or nothing touched, no entry able, and the classified reason |
| `Registry.BackendRegistry.Release` | engine/inference/registry.py:369-371 | one request fewer in flight on the entry, or still none; nothing else touched; right after an acquire the pool is as before it |
| `Registry.RegistryLease.Release` | engine/inference/registry.py:148-152 | releasing twice frees once |
| `Router.Acquire` | engine/inference/router.py:113-165 | the route of the specification; a failed attempt leaves the registry as it was, a lease takes one slot on the backend it names |
| `Router.AcquireCascade` | engine/inference/router.py:145-165 | the step loop with its two flags computes the cascade |
| `Router.CascadeIsFirstFit` | engine/inference/router.py:145-165 | leases from the first step that can admit, escalation iff not the first; otherwise busy over feature over unloaded |
| `Router.PreferenceIsExact` | engine/inference/router.py:96-144 | a request for a physical model is placed on a backend of the first enabled structured-output rule for it, under the rule's name, iff rules are on, it requires structured output and one of those backends can take it; every other one gets the registry's unscoped answer, error and all |
| `Router.CascadeIsExact` | engine/inference/router.py:145-165 | a request for a virtual model gets the registry's answer for the first step with a backend that can take it, with step, policy and fallbacks; else busy if any step was busy, feature error if any lacked the feature, unloaded otherwise |
| `Router.RoutedCanTake` | engine/inference/router.py:113-165 | whatever the policy, the leased backend is ready, has room and supports the features and the model |
| `Router.RouteIsFirstAttempt` | engine/inference/router.py:167-204 | `acquire` leases from the first scope of `plan` that selects |
| `Router.Plan` | engine/inference/router.py:167-219 | dry run agrees with placement: same backend, none iff `acquire` raises, same step; rows name their scope and list its eligible entries |
| `Router.RulesCostNothing` | engine/inference/router.py:127-144 | enabled rules change neither whether a request is placed nor its error |
| `Router.RulesStayPrimary` | engine/config.py:490-511 | a validated rule never places on spillover |
| `Scheduler.AdmissionIsConserved` | engine/inference/scheduler.py:115-175 | free + handed over + in use = `max_concurrency`; waiters within the depth; idle iff nothing in use; every `admit` counted once |
| `Scheduler.WakeConserves` | engine/inference/scheduler.py:139-147 | waking hands one permit to each waiter and stops when permits or waiters run out |
| `Scheduler.NobodyIsOvertaken` | engine/inference/scheduler.py:115-175 | in every run whoever holds or was handed a permit called `admit` before everyone who still waits for one, and those wait in order of arrival |
| `Scheduler.AdmissionIsExact` | engine/inference/scheduler.py:115-165 | a call holds a permit at once iff not draining, a permit is free and nobody waits; it waits, last, iff not draining, busy and the queue has room; else it is refused and counted |
| `Scheduler.ReleasedPermitIsHandedOn` | engine/inference/scheduler.py:167-175 | a released permit goes to the one who has waited longest, or becomes free if nobody waits without one |
| `Scheduler.EndingIsExact` | engine/inference/scheduler.py:145-175 | resume, timeout, cancellation and release each end that wait or lease and no other, and are counted under their own name |
| `Scheduler.DrainNeverRises` | engine/inference/scheduler.py:178-197 | draining with nobody waiting, the number in use never rises |
| `Scheduler.DrainedIsFinalIffQueueEmpty` | engine/inference/scheduler.py:178-197 | a drained scheduler stays idle in every run iff nobody was waiting |
| `Scheduler.DrainedCanBecomeBusyAgain` | engine/inference/scheduler.py:178-197 | a run that reaches drained with a waiter queued |
| `Scheduler.AdmissionControl.Admit` | engine/inference/scheduler.py:115-165 | refused iff draining, or locked with a full queue; else the step of the model |
| `Scheduler.AdmissionControl.ResumeWaiter` | engine/inference/scheduler.py:135-165 | a handed-over waiter becomes a lease |
| `Scheduler.AdmissionControl.AbandonWait` | engine/inference/scheduler.py:142-150 | a waiter that times out or is cancelled gives back what it was handed |
| `Scheduler.AdmissionControl.ReleaseLease` | engine/inference/scheduler.py:59-63 | exactly once per lease |
| `Scheduler.AdmissionControl.Drain` | engine/inference/scheduler.py:178-180 | sets the flag and evicts nobody |
| `Gateway.CountsMove` | engine/gateway.py:87-105 | taking and freeing move only the key's own count, by one |
| `Gateway.FreedUndoesTaken` | engine/gateway.py:87-105 | freeing restores the dictionary iff it stores no zero for the key |
| `Gateway.Limiter.Acquire` | engine/gateway.py:87-97 | granted iff below the limit, or without one |
| `Gateway.Limiter.Release` | engine/gateway.py:99-105 | the last slot removes the key |
| `Gateway.ApiAccess.Finalize` | engine/gateway.py:119-152 | usage once, slot given back once, also when the store fails |
| `Gateway.ApiAccess.Abort` | engine/gateway.py:154-161 | slot given back once, nothing recorded |
| `Serving.NextKeeps` | engine/api/serving.py:95-345 | every start, resume, timeout, cancellation and finish keeps the conservation law |
| `Serving.RequestsAreConserved` | engine/api/serving.py:124-219 | permits in use = in-flight over all backends = unfinished handles; gauge and per-key slots differ from theirs by exactly the leaks |
| `Serving.ConservedIffNothingLeaked` | engine/api/serving.py:95-345 | the gauge equals the unfinished handles iff no usage write failed; a key's slots are its waiting and unfinished requests iff none of its waits was cancelled and the quota store never failed on it |
| `Serving.BackendsStayWithinCapacity` | engine/inference/registry.py:88-89 | each in-flight count is its unfinished requests and within its limit |
| `Serving.ArrivalIsExact` | engine/api/serving.py:124-219 | turned away, refused while draining or with a full queue, it leaves no request; with permits in use or others waiting it waits; otherwise it is served, under its key and on the routed backend, iff the router finds one and `generate` starts |
| `Serving.ResumedIsServedIffRouted` | engine/api/serving.py:132-219 | a waiter that got its permit is served, under its key and on the routed backend, iff the router finds one then and `generate` starts; otherwise nothing of it stays |
| `Serving.EndingIsExact` | engine/api/serving.py:293-345 | a timeout, a cancelled wait and a finish end that request and no other |
| `Serving.PoolIsOperated` | engine/inference/registry.py:38-89 | requests change nothing of a backend but its in-flight count; only its own event sets state and health, only a drain the drain flag |
| `Serving.LeaksAreCounted` | engine/api/serving.py:95-345 | over any run the leaked slots of a key and the leaked gauge are exactly the numbers of leaking events: nothing else leaks, nothing heals |
| `Serving.LockedOutIffLeaked` | engine/gateway.py:87-97 | a limited key is refused in every continuation iff its leaked slots have reached its limit |
| `Serving.CancelledWaitLocksOut` | engine/api/serving.py:132-144 | a run in which a cancelled wait takes a key's only slot with no request of it left |
| `Serving.FailedStoreLeavesSlotTaken` | engine/gateway.py:341-356 | a quota store that fails after the grant leaves the key at its limit with no request |
| `Serving.FailedWriteLeavesGaugeUp` | engine/api/serving.py:334-345 | a run in which a failed usage write leaves the gauge at one with nothing running |
| `Serving.RefusedStartLeavesNoTrace` | engine/api/serving.py:111-114 | a refused start leaves no slot, lease or gauge behind |
| `ServingObjects.Engine.StartGeneration` | engine/api/serving.py:95-219 | the shared objects take the model's arrival step and keep the law; started iff authorized, admitted at once, routed and generating, waiting iff authorized, busy and the queue has room |
| `ServingObjects.Engine.AdmitAuthorized` | engine/api/serving.py:132-144 | refused, waiting or placed, each iff its condition, as the model says |
| `ServingObjects.Engine.PlaceAdmitted` | engine/api/serving.py:146-219 | placement: started iff routed and `generate` returned; otherwise permit, backend slot, gauge and gateway slot are given back |
| `ServingObjects.Engine.ContinueWaiter` | engine/api/serving.py:132-219 | a waiter resumed with its permit is started, on the routed backend, iff routed and generating; else its access is ended |
| `ServingObjects.Engine.EndWait` | engine/api/serving.py:132-144 | a timeout gives the slot back, a cancellation does not |
| `ServingObjects.Engine.FinishGeneration` | engine/api/serving.py:293-345 | everything is given back once; a failing usage write keeps the gauge up |
| `Counters.TrimIsExactIffFrontLoaded` | engine/telemetry/counters.py:69-72 | trimming the front leaves the recent starts iff no old one stands behind a recent one |
| `Counters.RateIsExact` | engine/telemetry/counters.py:46-86 | while the clock does not go back the deque holds exactly the starts of the last 60 seconds |
| `Counters.RequestCounters.Trim` | engine/telemetry/counters.py:69-72 | the loop is that trim |
| `Counters.RequestCounters.RequestStarted` | engine/telemetry/counters.py:46-52 | total and gauge up by one, start recorded |
| `Counters.RequestCounters.RequestFinished` | engine/telemetry/counters.py:54-67 | gauge floored at zero, negative token counts ignored |
| `Quota.WeekHoldsNow` | engine/quota/windows.py:19-29 | the week starts on a Monday and contains the instant |
| `Quota.StartIsMonotone` | engine/quota/windows.py:14-29 | both windows only move forward |
| `Quota.WeeksPartition` | engine/quota/windows.py:19-29 | every instant up to the reset has the same week start, and the reset is the next one |
| `Quota.CostIsLinear` | engine/quota/compute.py:15-27 | nothing costs nothing, each token adds the weight of its kind, the estimate is the cost at the output cap |
| `Quota.AuthorizeIsExact` | engine/gateway.py:341-375 | a request flies iff its key has a slot left and recorded usage plus its estimate fits both windows, non-positive limits being none; estimates in flight do not count |
| `Quota.EndingIsExact` | engine/gateway.py:119-161 | a finished request adds its cost to its key's usage in every window and gives its slot back; an aborted one only the slot; a lost one neither |
| `Quota.ActualWithinEstimate` | engine/quota/compute.py:15-27 | within its prompt estimate and output cap a request costs at most its estimate |
| `Quota.QuotaOvershootIsBounded` | engine/gateway.py:341-375 | for every key but the loopback one, in every run and both windows, usage plus in-flight estimates is at most limit + (M-1) times the largest estimate the check lets in, plus recorded overruns |
| `Quota.NoOverrun` | engine/gateway.py:119-152 | overruns are zero when no cost exceeds its estimate |
| `QuotaPeak.UsageStaysWithinPeak` | engine/quota/store.py:88-109 | in every run without overrun, usage plus in-flight estimates stays within the peak: the own bound, or what the other window's bound lets through in all its windows that this one touches |
| `QuotaPeak.PeakIsAttained` | engine/gateway.py:341-375 | for every pair of limits and either window there is a run without overrun whose recorded usage is exactly the peak |
| `QuotaPeak.QuotaHoldsIffOneAtATimeOrShielded` | engine/gateway.py:341-375 | the quota of either window holds in all such runs iff M is 1, or M > 1 and the limit is at least the number of touched windows times the other window's bound |
| `QuotaPeak.DefaultWeekHoldsIffOneAtATime` | engine/config.py:237-238 | with the default limits the weekly quota holds iff M is 1 |
| `QuotaPeak.WindowIsCovered` | engine/quota/windows.py:14-29 | a week lies in 34 stretches of five hours, five hours in two weeks |
| `Quota.LoopbackIsExempt` | engine/gateway.py:287-289 | the loopback key is let through and takes no slot |
| `QuotaPeak.BurstIsAdmitted` | engine/gateway.py:352-372 | from any usage that leaves room for one request, as many as there are slots are let in: estimates in flight are not counted |
| `QuotaPeak.NoLimitNoBound` | engine/gateway.py:87-90 | without a concurrency limit usage exceeds any amount in some run, whatever the limits |
| `Ownership.LockFilesAreInjective` | engine/store/ownership.py:61-68 | different databases and directories have different lock files |
| `Ownership.SameLockFile` | engine/store/ownership.py:126-133 | the two lock files coincide for exactly one database name per directory |
| `Ownership.StoreLock.Acquire` | engine/store/ownership.py:83-111 | locked iff another holds it; nothing held after a failure; idempotent |
| `Ownership.StoreLock.Release` | engine/store/ownership.py:113-120 | frees the lock even if unlocking raises |
| `Ownership.StoreOwnership.Open` | engine/store/ownership.py:126-133 | refused iff both resources map to one lock file |
| `Ownership.StoreOwnership.Acquire` | engine/store/ownership.py:139-146 | all or nothing; which failure is reported, in order of database then model directory |
| `Ownership.StoreOwnership.Release` | engine/store/ownership.py:148-153 | both are released even if the first release raises |
| `Ownership.NextKeeps` | engine/main.py:199-282 | every step of every process, cancellations of its awaiting task included, keeps lock table, phases, writers and step outcomes consistent |
| `Ownership.LiveWriterHoldsBothLocks` | engine/main.py:199-248 | over any run of any number of processes, with failing steps, repeated cancellation and crashes, a live tracked writer implies both locks |
| `Ownership.CancellationCutsNothingShort` | engine/main.py:250-282 | however many cancellations arrive, the drain starts only after cleanup has ended and the decision comes only after the drain; by then a cancellation is known iff there was one |
| `Ownership.WritersNeverShareAStore` | engine/main.py:199-232 | two processes never both have a live writer on one database or directory |
| `Ownership.RecoveryIsAlone` | engine/main.py:199-206 | while a process starts no other has a live writer on its store |
| `Ownership.NothingIsHeldAfterwards` | engine/main.py:199-232 | no lock outlives its process, a failed start or a release |
| `Ownership.LocksAreRetainedExactlyWhenUnproven` | engine/main.py:216-248 | in every run that decides after a full cleanup the locks are kept iff the gRPC step failed on a started edge or the webhook or a download is live; the webhook only if its step failed, a download only if the drain failed or one started after it; otherwise released |
| `Ownership.CutShortRetains` | engine/main.py:244-247 | a cleanup that was cut short keeps the locks |
| `Ownership.ShutdownCanRelease` | engine/main.py:485-507 | from every serving process, whatever writers it has, a shutdown cancelled twice on the way still ends in a release |
| `Ownership.LaunchServesIffFree` | engine/main.py:199-214 | a process serves, holding both locks, iff the lock files differ and both are free; otherwise it ends and no lock changed hands |
| `Ownership.QuietShutdownReleases` | engine/main.py:216-232 | an undisturbed shutdown of a quiet process gives back both locks |
| `Ownership.StoreCanBeHandedOn` | engine/main.py:199-232 | a free store can be served, given back and served again by another process |
| `Ownership.FailedStartReleases` | engine/main.py:208-232 | a start that fails with the locks taken gives them back |
| `Ownership.BusyShutdownRetains` | engine/main.py:234-248 | a process with every kind of writer live whose cleanup is cut short and whose drain fails decides with all of them live |
| `Ownership.EveryStepRuns` | engine/main.py:424-497 | whatever their outcomes, all eight teardown steps run in order and the cleanup is then complete |
| `Ownership.ExitFreesItsLocks` | engine/main.py:205-206 | an exit frees exactly the locks of that process |
| `Ownership.AwaitShielded` | engine/main.py:250-282 | both awaiting loops return only once their task is done, lose no cancellation, and what they did is a run of the process |
| `Download.AttemptIsSafe` | engine/models/downloader.py:136-239 | any attempt leaves a prefix in `.part`, makes at most two requests, promotes only what it hashed and what was expected |
| `Download.PartIsAlwaysPrefix` | engine/models/downloader.py:151-229 | through any sequence of attempts `.part` is a prefix of the content |
| `Download.VerifiedIsWhole` | engine/models/downloader.py:221-229 | with the content's digest expected the promoted file is the content |
| `Download.UnverifiedCanBeTruncated` | engine/models/downloader.py:196-229 | any prefix of the content that the expected digest does not exclude can be promoted |
| `Download.DoneIsWholeIffDigestPins` | engine/models/downloader.py:136-229 | every success is the whole content iff a digest is expected that no proper prefix has |
| `Download.BodyIsExact` | engine/models/downloader.py:196-216 | the read loop in closed form: the first turn that does not pass its checks alone says how the loop ends, and what was read before it, all of it and in order, is in the file |
| `Download.BodyCompletesIff` | engine/models/downloader.py:196-216 | the loop completes iff some turn's read returned nothing with every earlier turn passed; the file is then what it was plus everything read |
| `Download.UndisturbedSucceeds` | engine/models/downloader.py:136-229 | a fresh download, a 206 resume and a 200 answer to a resume that nothing disturbs promote the whole content, or keep it as `.part` if another digest is expected |
| `Download.RestartSucceeds` | engine/models/downloader.py:168-178 | so does the clean restart after a 416 |
| `Download.AttemptIsExact` | engine/models/downloader.py:136-239 | how any other call ends: what it leaves untouched before the body, and success iff the loop completes, the digest is right, no later check sees the flag and the rename works |
| `Download.OutcomesAreHonest` | engine/models/downloader.py:136-239 | cancelled only if a check saw the flag, mismatch only if the kept file has another digest, and no shortened `.part` unless the server made it start over |
| `Download.LimitHoldsIffPartWithin` | engine/models/downloader.py:192-214 | every promoted file is within `max_bytes`, whatever the server does, iff the `.part` it starts from is, or its digest is not the expected one |
| `Download.FailedAttemptLeavesTooMuch` | engine/models/downloader.py:211-214 | an attempt that leaves such a `.part` |
| `Download.ReadBody` | engine/models/downloader.py:196-219 | the chunk loop computes the specified body; the byte count is the file's length |
| `Download.Sha256File` | engine/models/downloader.py:113-125 | the chunk loop digests the whole file unless a check saw the flag |
| `Commit.CancelEvent.Request` | engine/models/downloader.py:75-81 | accepted iff nothing was committed |
| `Commit.CancelEvent.Commit` | engine/models/downloader.py:83-90 | promotes iff no cancel was accepted; a raising promote commits nothing |
| `Commit.CancelAndCommitExclude` | engine/models/service.py:275-358 | an accepted cancel never ends in READY; CANCELLED never promoted; READY has the recorded and expected digest |
| `Commit.DecisionsAreFinal` | engine/models/downloader.py:55-90 | both decisions stand whatever happens next |
| `Commit.OutcomeIsExact` | engine/models/service.py:324-358 | a fetched download ends READY, promoted and with its digest recorded, iff its digest is right, no request came before the commit point and rename, metadata and store worked; else CANCELLED or ERROR accordingly; a late request changes nothing |
| `Commit.RequestStopsWorker` | engine/models/service.py:308-320 | a request and a cancelled task set the flag alike, iff nothing was committed, and a working download then ends CANCELLED |
| `Commit.FailureIsRecorded` | engine/models/service.py:391-416 | a failure before the commit ends in ERROR and promotes nothing |
| `ModelService.DestinationsAreExclusive` | engine/models/service.py:252-273 | the three dictionaries agree; live destinations are distinct and not being imported |
| `ModelService.DeleteSparesOwnedModels` | engine/models/service.py:458-497 | a delete is never of a model being downloaded or loaded, nor of one whose own path is being downloaded or imported |
| `ModelService.DeleteTakesDownloadIffPart` | engine/models/service.py:482-506 | a delete takes a file of a live download iff the row is managed and one of the two paths is the existing `.part` of the other |
| `ModelService.DeleteTakesImportIffPart` | engine/models/service.py:482-506 | a delete takes a file being imported iff the row is managed and that file is its `.part` |
| `ModelService.DeleteConverges` | engine/models/service.py:482-497 | wherever a delete stopped (file, `.part` or row), a retry finishes it |
| `ModelService.DeleteTakesLoadedFileIffShared` | engine/models/service.py:458-506 | a delete takes a file another model is loading iff the row is managed and its path or its `.part` path is the loading model's |
| `ModelService.SharedPathIsReachable` | engine/models/service.py:161-192 | that state is reachable: one file imported twice |
| `ModelService.PartImportIsReachable` | engine/models/service.py:161-192 | so is the download case: a partial file imported while its download runs |
| `ModelService.LeftoverImportIsReachable` | engine/models/service.py:161-192 | and the import case: the leftover `.part` of a model is being imported when the model is deleted |
| `ModelService.ReconcileIsExact` | engine/models/service.py:427-450 | exactly the DOWNLOADING and VERIFYING rows nobody owns become ERROR; every other row, all ownership, files and workers are as they were; idempotent |
| `ModelService.Service.ReconcileInterrupted` | engine/models/service.py:427-450 | the loop over the listed rows does that and counts the rows it changed |
| `ModelService.StartIsExact` | engine/models/service.py:252-273 | a download is accepted and owned iff its destination is not imported, does not exist and has no row; else nothing changes |
| `ModelService.DownloadLeavesItsResult` | engine/models/service.py:224-364 | a download that ran leaves its row with its status, the file in place of `.part` if promoted or the `.part` if not, and nothing owned |
| `ModelService.UnrunDownloadIsReleased` | engine/models/service.py:540-544 | a task cancelled before it ran is released by the sweep of shutdown and becomes an error at the next startup |
| `ModelService.ImportLeavesItsResult` | engine/models/service.py:161-192 | an import holds its path iff no import or download does, and leaves a READY row and nothing held |
| `ModelService.LoadLeavesNothing` | engine/models/service.py:472-480 | a load holds its model iff nothing else uses it; deletes are refused meanwhile; nothing is left |
| `ModelService.DeleteIsExact` | engine/models/service.py:482-506 | refused while busy; otherwise a managed model's file, `.part` and row go up to the first failure, an unmanaged one's row only |
| `ModelService.Shutdown` | engine/models/service.py:515-544 | every download owned at the start of any round is asked to stop, whenever it appeared; returns only with no task and no worker left |
| `ModelService.Service.Start` | engine/models/service.py:252-273 | refused iff the destination is imported, exists or has a row |
| `ModelService.Service.Finish` | engine/models/service.py:360-364 | releases all three dictionaries when the worker ended |
| `ModelService.Service.BeginImport` | engine/models/service.py:161-169 | reserves the path iff no import or download uses it |
| `ModelService.Service.DeleteModel` | engine/models/service.py:482-506 | touches nothing while the model is busy; file, `.part`, then row, stopping at the first failure |
| `ClientEvents.AppendIsRetained` | engine/billing/client_events.py:70-110 | the new row survives its own prune, both limits hold afterwards, other clients are untouched |
| `ClientEvents.AppendIsIdempotent` | engine/billing/client_events.py:70-96 | recording an event again changes nothing |
| `ClientEvents.AppendIsExact` | engine/billing/client_events.py:70-96 | refused iff the same client already recorded that event id, else the next id |
| `ClientEvents.RetentionIsExact` | engine/billing/client_events.py:98-110 | after an append a row is there iff it is another client's, or within the age limit with fewer than the count limit of such rows newer |
| `ClientEvents.KeepNewestIsExact` | engine/billing/client_events.py:104-110 | the client keeps exactly its newest rows, in order |
| `ClientEvents.PickSplits` | engine/billing/client_events.py:112-132 | resuming at any id continues the same sequence |
| `ClientEvents.ReadTakesPrefix` | engine/billing/client_events.py:112-132 | a read takes the unread rows in order and leaves some iff there are more than 200 |
| `ClientEvents.NextKeeps` | engine/api/client_router.py:343-356 | every append, notification and step of the stream keeps delivery and wakeup invariants |
| `ClientEvents.StreamIsExact` | engine/api/client_router.py:343-356 | in every run the frames sent are exactly the client's rows above the start, in order, once each, except those deleted unread |
| `ClientEvents.StreamWithoutRetentionIsWhole` | engine/api/client_router.py:343-356 | with retention off nothing is missed |
| `ClientEvents.NoWakeupIsLost` | engine/api/client_router.py:343-356 | waiting on an unset wakeup after a read that fitted, with no notification pending, means nothing is unread |
| `ClientEvents.PassStallsIffOverBatch` | engine/api/client_router.py:345-353 | an undisturbed pass leaves rows undelivered and sleeps iff more than 200 were unread |
| `ClientEvents.LongLogStalls` | engine/api/client_router.py:345-353 | a stream opened on any log of more than 200 appended events does so |
| `ClientEvents.StreamCatchesUp` | engine/api/client_router.py:343-356 | a stream that stays connected sends every unread row in order, pass by pass, and then sleeps with none left |
| `ClientEvents.AppendReachesSleeper` | engine/api/client_router.py:343-356 | an event recorded while the stream sleeps with nothing unread wakes it and is the one frame of its next pass, unless the client resumed above it |
| `ClientEvents.HeartbeatResumes` | engine/api/client_router.py:353-356 | a wait ends by heartbeat at any time, by its wakeup iff a notification came after the capture |
| `ClientEvents.DisconnectedSendsNoMore` | engine/api/client_router.py:351-352 | after a disconnect nothing more is sent |
| `ClientEvents.ClientEventLog.Append` | engine/billing/client_events.py:70-110 | insert or ignore, then prune, in place |
| `ClientEvents.ClientEventLog.Drain` | engine/api/client_router.py:348-350 | the loop sends one contiguous stretch and ends on its last id; a short one leaves nothing unread |
| `ClientEvents.ClientEventNotifier.Event` | engine/billing/client_events.py:177-180 | the client's current, unset wakeup |
| `ClientEvents.ClientEventNotifier.Notify` | engine/billing/client_events.py:182-187 | sets the captured wakeup, puts a fresh unset one in its place, touches no other client |
| `EventBus.NextKeeps` | engine/telemetry/events.py:77-139 | every publish, subscribe, yield, wake and close keeps the subscriber's account |
| `EventBus.SubscriberAccounts` | engine/telemetry/events.py:77-139 | handed over in order at most once; the queue is a contiguous suffix of what was offered and within its limit; handed over + dropped + waiting = offered |
| `EventBus.SubscriberSeesContiguousRun` | engine/telemetry/events.py:122-139 | history comes whole; while nothing was dropped history and live events are one contiguous run |
| `EventBus.SleeperHasNothingQueued` | engine/telemetry/events.py:84-88 | a reader asleep on an unset flag has nothing waiting |
| `EventBus.OfferLosesOnlyOldest` | engine/telemetry/events.py:77-82 | only a full queue loses anything: its oldest event, counted |
| `EventBus.SubscribeIsExact` | engine/telemetry/events.py:131-136 | the history copy is the newest `history` publications, or none if not asked for; live events start right after |
| `EventBus.YieldIsExact` | engine/telemetry/events.py:84-139 | a turn hands over the oldest of history copy and queue, or clears the flag and blocks |
| `EventBus.PublicationArrives` | engine/telemetry/events.py:104-113 | a publication is offered to every open subscriber, wakes a blocked one and is handed to it |
| `EventBus.ReaderCatchesUp` | engine/telemetry/events.py:122-139 | from every state a subscriber that keeps asking is handed all that waits, in order |
| `EventBus.ClosedGetsNoMore` | engine/telemetry/events.py:137-139 | a closed subscriber is offered and handed nothing more |
| `EventBus.Subscription.Offer` | engine/telemetry/events.py:77-82 | drops the oldest when full, counts it, sets the flag |
| `EventBus.Subscription.Get` | engine/telemetry/events.py:84-88 | the oldest event, or the flag cleared |
| `EventBus.Bus.Publish` | engine/telemetry/events.py:104-113 | every subscriber of the channel is offered the event once, nobody else |
| `EventBus.Bus.Subscribe` | engine/telemetry/events.py:131-136 | registration and history copy in one step |
| `Audit.RowHashIsInjective` | engine/audit/log.py:36-49 | on inputs without collisions, digest and canonical text concatenate without ambiguity |
| `Audit.Verify` | engine/audit/log.py:147-165 | accepts exactly the chained logs, otherwise reports the earliest bad row |
| `Audit.SameHashSameHistory` | engine/audit/log.py:147-165 | equal hashes at two points of two chains mean equal histories up to there |
| `Audit.LastHashPinsLog` | engine/audit/log.py:147-165 | two verifying logs without collisions among their rows end in the same hash iff they agree row for row |
| `Audit.SoundIsMet` | engine/audit/log.py:36-49 | the assumption is met: every tree of records with fewer nodes than there are 64-digit digests has a digest under which all branches verify and no two of its inputs collide; two logs are two branches, an edited or inserted row is one more node |
| `Audit.RemovalIsNoticedIffNotLast` | engine/audit/log.py:147-165 | removing a row is noticed iff it is not the last |
| `Audit.InsertionIsNoticedIffNotAppended` | engine/audit/log.py:147-165 | inserting one is noticed unless it is a proper append |
| `Audit.EditIsNoticed` | engine/audit/log.py:147-165 | an edit is noticed at its row or the next, unless it re-hashes the last row |
| `Audit.LogVerifiesIffSerial` | engine/audit/log.py:77-123 | a log verifies iff no `record` inserted after the log had changed since its read |
| `Audit.CallAddsOneRow` | engine/audit/log.py:81-123 | whatever others insert between its read and its insert, a call adds one row with its fields, the next id and the hash it read, and is then over |
| `Audit.OverlapBreaksLog` | engine/audit/log.py:81-123 | two overlapping records, under a digest without collisions, leave a log that does not verify |
| `Audit.AuditLog.Record` | engine/audit/log.py:81-123 | an undisturbed record keeps the chain |
| `Gguf.ProbeInvertsEncoder` | engine/models/gguf.py:142-187 | on every well-formed section the walk ends exactly after it and reports what the entries say |
| `Gguf.ProbeFindsContext` | engine/models/gguf.py:165-173 | the encoded architecture and its context length come back |
| `Gguf.IntegersComeBack` | engine/models/gguf.py:23-40 | integers of every type come back in two's complement at the width of their type |
| `Gguf.NoHeaderIsInvalid` | engine/models/gguf.py:144-150 | fewer than 24 bytes or another magic is invalid |
| `Gguf.BadEntryIsInvalid` | engine/models/gguf.py:99-129 | so is an entry with an unknown type or array element type, or a key over 64 MiB |
| `Gguf.BadTurnSpoilsWalk` | engine/models/gguf.py:154-163 | wherever it stands |
| `Gguf.WantedKeys` | engine/models/gguf.py:153-163 | which keys are read and not skipped |
| `Gguf.SummaryIsDescription` | engine/models/gguf.py:152-186 | the ordered dictionary answers as the entries would: last value per key, first context key as fallback |
| `Gguf.ReadAndSkipAgree` | engine/models/gguf.py:99-139 | reading and skipping a scalar or string end at the same place |
| `Gguf.SkipCut` | engine/models/gguf.py:106-129 | skipping a well-formed value ends right after it iff its length words are there |
| `Gguf.ReadCut` | engine/models/gguf.py:132-139 | reading a wanted one gives it back iff all of it is there |
| `Gguf.PairsAreBounded` | engine/models/gguf.py:154-163 | on any input at most one key/type pair per twelve bytes is read |
| `Gguf.SkipTextsReads` | engine/models/gguf.py:124-127 | a string array is walked only as far as its length words exist |
| `Gguf.CutIsNoticedIffRead` | engine/models/gguf.py:142-187 | a well-formed file cut after any byte is reported as if whole iff everything that is really read is left, and as invalid otherwise |
| `Gguf.RequiredIsLast` | engine/models/gguf.py:106-129 | what must be left ends in the last entry: all of a reported value, 0, 8 or 12 bytes of a skipped scalar, string or scalar array, a string array up to its last length word |
| `Gguf.TruncatedFileIsAccepted` | engine/models/gguf.py:106-109 | every well-formed file that ends in a skipped scalar is reported as if whole without its last byte |
| `Gguf.Cursor.ReadString` | engine/models/gguf.py:99-103 | the guarded string read moves the cursor as specified |
| `Gguf.Cursor.SkipList` | engine/models/gguf.py:119-129 | the array loop moves the cursor as specified |
| `Gguf.Cursor.Skip` | engine/models/gguf.py:106-116 | so does skipping any value |
| `Gguf.Cursor.ReadWanted` | engine/models/gguf.py:132-139 | so does reading a wanted one |
| `Gguf.Cursor.ProbeFile` | engine/models/gguf.py:142-187 | the metadata loop computes the specified probe |

## Left out

- SQLite, file system, HTTP and gRPC transport: tables are maps or sequences, files byte sequences, locks a map from path
  to owner that an exit clears; failures are events.
- `asyncio.Semaphore`, `shield`, `wait_for` and `threading.Semaphore` are taken as specified primitives.
- SHA-256 and JSON are functions without collisions on the inputs at hand; the audit log's `detail` is its decoded value, so a rewrite of
  its stored text that decodes to the same value is no edit.
- `Ownership.LiveWriterHoldsBothLocks`: covers the five tracked kinds of writer; the webhook worker appears as a task and a
  thread flag, with the task ending only after its thread (`engine/billing/webhooks/delivery.py:252-276`); the remote
  adapters are not part of this model.
- `TokenStream.CloseEndsProducer`: counts the producer's own blocks; the 5-second bound of the join is not modelled, a
  join that gives up is.
- `Quota.ActualWithinEstimate`: the cost multiplier keeps its default of 1, and how prompt tokens are estimated from
  characters is not modelled.
- `Serving.RequestsAreConserved`: route metrics, telemetry events and cost figures are not modelled.
- `Gguf.ProbeInvertsEncoder`: strings are raw bytes, without the replacement of invalid UTF-8; the quantization label
  (a table and a regular expression over the file name) is not modelled; Python's text of a non-string value is a parameter.
- `Download.AttemptIsSafe`: the expected digest is compared as given, in lower case; progress callbacks are not modelled.
- `ClientEvents.NoWakeupIsLost`: covers producers of the same process; rows appended by another process wake nobody and
  wait for the heartbeat.
- Usage rows, windows and cost are values in `Quota`; the usage store has no object of its own. `Quota` limits a key by its own
  slots only; the engine-wide permit count is the subject of `Serving`.
- The limiter's request-rate window, the scheduler's wait statistics and retry hint, known and listed models of the router,
  and listing and attribution queries would add only one-branch members.
- Floating-point rounding: times, costs and compute units are reals.
- `engine/inference/threaded.py`, `engine/grpc/server.py`, redaction, logging, settings, billing, alerts, bench, CLI and the
  dashboard are not part of this model.
