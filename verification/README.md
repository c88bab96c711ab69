# mcpcheck runtime packages, verified

A model in Dafny of the shared runtime packages of mcpcheck: the scheduler and
the semaphore and error groups around it, the versioned on-disk cache, the
circuit breaker, the sharded TTL store, the background writer, the event buses,
the token bucket and the retry loop, the in-memory filesystem, the shuffle, and
the two rules that compare whole sets of tools together with their dispatcher.

`dafny verify dfyconfig.toml` checks everything.

## How it is modelled

Code that changes fields is a class with those fields, and each method states
its whole new state. Where the package is concurrent there is besides it a
state machine `Sys` whose steps are the critical sections and atomic operations
of any number of callers; class methods and steps share the same small
functions (`Take`, `Record`, `Offer`, ...), so the two cannot drift apart. `Exec`
runs a sequence of events, an event that is not enabled doing nothing, and the
main results hold for every sequence of events. Counters are compared with
totals over the callers (module `Counting`).

| module | package |
|---|---|
| Limiter, Scheduler, ErrGroup | the semaphore and the two packages that share it |
| VersionedDir, VersionHistory | versioned cache directories and atomic file writes, on a disk that may fail any call and crash after any step |
| CircuitBreaker, RateLimit, Retry | calls to unreliable services |
| KV, KVConcurrent | the sharded store as one flat map, and its lock-free gap under interleaving |
| AsyncWriter, EventBus | bounded queues with close-and-drain protocols |
| VFS, Random, Rules, Sorting | the in-memory filesystem, shuffling and UUIDs, the set-level rules |

## Assumptions

- Times and durations are unbounded integers (nanoseconds, 0 being the zero
  time); floating point is `real`, so rounding is abstracted, while the
  truncation of durations to whole nanoseconds is modelled.
- Job, operation and handler bodies are uninterpreted results; the hash of a key
  is an uninterpreted function; random draws and map iteration orders are arbitrary.
- The semaphore is used only by the callers modelled. In Scheduler a stopped
  flag read before a Stop may let a Schedule through, so steps do not consult it.
- VersionedDir: token names, temporary names and extra paths are distinct; one
  Open at a time; entries are added only after a completed Open; Clear is one
  step; directory operations become durable in the order they were made, and
  file contents once synced. A crash may tear files whose data was not synced
  and lose temporary files.
- CircuitBreaker: OnStateChange is nil, so a transition is one step.
- ErrGroup: the limiter is fixed before the first Go; the end of the group's
  context is an arbitrary cause that may arrive at any waiting acquire.
- KVConcurrent: the clock is monotone. RateLimit.WaitN: nobody else draws on the
  bucket, its clock starts at or after `lastFill` and timers do not fire early.

## Where the code differs from what it says

- A report can reach an open breaker, although a comment in `recordResult` rules
  it out, and a caller admitted while the breaker was closed may decide a
  half-open episode: exactly when some caller was in flight as it opened
  (`CircuitBreaker.ProbesDecideIff`).
- The first delay of a retry policy with BaseDelay above MaxDelay is not capped
  (`Retry.CapKeptIff`, `Retry.CappedExponentialIff`, `Retry.FirstDelayExceedsCap`).
- `nextPow2` ends in 64 bits exactly for requests up to 2^62
  (`KV.DoublingEndsIff`); the store's constructor therefore asks for that.
- Two RunDue calls that overlap may launch a one-shot job twice, with or without
  a limiter (`Scheduler.LaunchesApartIff`).
- With one job overdue, `nextSleep` sleeps a microsecond even if another job is
  due sooner than that, and this is the only way it oversleeps
  (`Scheduler.OversleepsIff`).
- A Tokens call or refused AllowN is noticed after the clock steps back, exactly
  when it had moved `lastFill` (`RateLimit.NoTraceIff`).
- In the in-memory filesystem `Remove(".")` deletes the entry "." even when
  other entries exist, because no cleaned path starts with "./"; every other
  directory with something below it is refused (`VFS.RemoveRefusesIff`,
  `VFS.DotIsRemoved`). `ReadDir("/")` always fails, because "/" is never stored
  (`VFS.SlashIsNeverStored`).
- Close of the asynchronous bus is certain to drain a subscriber exactly when its
  goroutine had been counted and no Publish was about to send to it
  (`EventBus.CloseDrainsIff`); a comment in `runSub` says that sends are blocked
  once stop is closed, which a Publish with a snapshot in hand is not.
- Over a history of versions a cache directory is certain to be safe for the last
  exactly when that one has no token an earlier one lacked and no extra that was
  dropped in between: a missing sidecar is not a mismatch, and a version does not
  touch the extras of others (`VersionHistory.AlwaysSafeIff`).
- A Get may miss a key that has a live entry throughout the call, when the key is
  rewritten in time during it (`KVConcurrent.FalseMissIff`).
- A comment on `locationOf` promises the tool's name for a tool without a source
  file; the code answers "<source>" (`Rules.LocationLocates`).
- `Go` is documented to refuse once the group's context has ended; it does so
  only for a group with a limiter (`ErrGroup.Group.GoPass`, `ErrGroup.EndedContext`).

## Model

| member | source | states |
|---|---|---|
| `Limiter.Semaphore.AcquirePass` | internal/limiter/limiter.go:102-117 | between two waits AcquireN takes all n permits exactly when `inFlight + n <= capacity`, gives up exactly when they do not fit and the context has ended, and otherwise changes nothing and waits |
| `Limiter.Semaphore.TryAcquireN` | internal/limiter/limiter.go:124-136 | succeeds at once exactly when n is not positive or `inFlight + n <= capacity`; only then are permits taken |
| `Limiter.Semaphore.ReleaseN` | internal/limiter/limiter.go:142-154 | panics, changing nothing, exactly when more is returned than is outstanding; otherwise gives back n |
| `Limiter.StepKeepsInv` | internal/limiter/limiter.go:80-154 | every step of any caller keeps the books and the promise that a parked request that fits is owed a broadcast |
| `Limiter.PermitsAreConserved` | internal/limiter/limiter.go:80-154 | in every reachable state `inFlight` is the sum of the permits held, at most the capacity; `totalAcquired` is outstanding plus returned and `totalWaited` counts the acquires that had parked; nobody holds more than is outstanding |
| `Limiter.NoWakeupIsLost` | internal/limiter/limiter.go:102-117 | with no broadcast pending, every parked request asks for more than the permits held leave of the capacity, and some caller holds permits it will still return |
| `Limiter.EntryIff` | internal/limiter/limiter.go:80-101 | in any run AcquireN goes on to wait for permits exactly when 1 <= n <= capacity and the context is alive; a request above the capacity is refused before a dead context is looked at |
| `Limiter.AdmittedIff` | internal/limiter/limiter.go:102-136 | in any run a waiting or trying caller gets its permits exactly when the permits all callers hold and the ones it asks for are at most the capacity |
| `Limiter.CancelledCallerReturns` | internal/limiter/limiter.go:93-117 | a parked caller whose context ends is woken and returns, with its permits if they are free by then and empty-handed otherwise |
| `Limiter.ReleaseReachesWaiter` | internal/limiter/limiter.go:102-154 | a release takes exactly what is given back off `inFlight`, and after its broadcast a parked caller goes through exactly when what is then held leaves enough |
| `Limiter.EveryPermitIsUsable` | internal/limiter/limiter.go:80-117 | of any number of single acquires in a row the first `capacity` all go through at once and the others park |
| `Scheduler.Scheduler.Schedule` | internal/scheduler/scheduler.go:170-195 | which of the four errors, in the order of the checks, by the job's own fields, leaving everything alone; or a fresh entry registered under the name, due first at At or else at now + Interval |
| `Scheduler.Scheduler.Unschedule` | internal/scheduler/scheduler.go:199-210 | reports whether the name was there and removes exactly that name |
| `Scheduler.Scheduler.NextDue` | internal/scheduler/scheduler.go:226-241 | returns the least non-zero due time of the registered entries, and nothing exactly when there is none |
| `Scheduler.Scheduler.Collect` | internal/scheduler/scheduler.go:251-264 | the list holds exactly the registered entries that are due and not running, each once |
| `Scheduler.Scheduler.TryClaim` | internal/scheduler/scheduler.go:267-270 | wins exactly when the flag was clear, and leaves it set on that entry alone |
| `Scheduler.Scheduler.AdvanceNext` | internal/scheduler/scheduler.go:281-289 | with a positive interval `nextDue` is the run's start plus the interval, otherwise 0; nothing else moves |
| `Scheduler.Scheduler.NextSleep` | internal/scheduler/scheduler.go:363-378 | the sleep is positive and at most idleTimeout; a microsecond when a job is overdue, and otherwise never past a due time and no shorter than needed |
| `Scheduler.OversleepsIff` | internal/scheduler/scheduler.go:363-378 | the sleep passes a due time still ahead exactly when a job is overdue and another is due within the microsecond |
| `Scheduler.OverdueJobOversleeps` | internal/scheduler/scheduler.go:363-378 | one job overdue and one due in 600 ns: the sleep passes the second |
| `Scheduler.StepKeepsInv` | internal/scheduler/scheduler.go:251-306 | every interleaved step keeps: each set flag has exactly one owner, and the flag, permit and wait-group counts agree with the calls and invocations |
| `Scheduler.ConcurrencyIsBounded` | internal/scheduler/scheduler.go:291-306 | bodies running are at most the permits held, which equal `inFlight`, are at most the capacity and at most the flags set |
| `Scheduler.InvocationsDoNotOverlap` | internal/scheduler/scheduler.go:266-274 | no two invocations of one entry are live together, however RunDue calls overlap |
| `Scheduler.WaitSeesEverythingFinished` | internal/scheduler/scheduler.go:383-395 | when the wait group is zero every invocation has finished, no permit is held, and each flag still set belongs to a RunDue call that has not yet counted its launch |
| `Scheduler.FinishingNeverPanics` | internal/scheduler/scheduler.go:291-302 | a finishing invocation always finds a permit to return and a wait-group count to take back |
| `Scheduler.NoLaunchIsEarly` | internal/scheduler/scheduler.go:251-289 | in every run, overlapping calls included, no entry is launched before its first due time, and no due time or list in progress precedes it |
| `Scheduler.NextDueIsDetermined` | internal/scheduler/scheduler.go:170-195 | in every run, overlapping calls included, an entry never launched is due when it was first to be, and after its last launch a periodic entry is due one interval later and a one-shot never |
| `Scheduler.JobIsCollectedIff` | internal/scheduler/scheduler.go:170-289 | from a Schedule on, through any run: while the job is registered and not running, every list collected at `at` holds it exactly when At, or the time scheduled plus Interval, is at most `at`, and once launched exactly when it is periodic and its last launch plus Interval is at most `at` |
| `Scheduler.LaunchesAreSpawned` | internal/scheduler/scheduler.go:266-277 | in every run the launches made are the invocations spawned plus those about to be |
| `Scheduler.InvocationsRunTheirBody` | internal/scheduler/scheduler.go:291-317 | in every run an invocation gets past its body only by running it, or, with a limiter, by its context ending before it had a permit |
| `Scheduler.PermitIff` | internal/scheduler/scheduler.go:295-301 | a waiting invocation gets its permit exactly when the others hold fewer than the capacity |
| `Scheduler.InvocationCanFinish` | internal/scheduler/scheduler.go:291-306 | an invocation past its acquire can always get to its end by its own steps |
| `Scheduler.RunDueCanReturn` | internal/scheduler/scheduler.go:266-277 | a RunDue call can always get through its list and return by its own steps |
| `Scheduler.SpacedReachable` | internal/scheduler/scheduler.go:251-289 | the spacing invariant holds in every run whose RunDue calls do not overlap |
| `Scheduler.RunDueLaunchesAll` | internal/scheduler/scheduler.go:251-277 | with no other RunDue made meanwhile, a call launches exactly the entries it listed, in order, from its start to its return, whatever else goes on |
| `Scheduler.LaunchesAreSpaced` | internal/scheduler/scheduler.go:251-289 | when RunDue calls do not overlap, two launches of one entry are at least its interval apart, and a one-shot entry is launched at most once |
| `Scheduler.LaunchesApartIff` | internal/scheduler/scheduler.go:251-289 | for a given limiter or none, in every run one-shot entries launch once and periodic ones an interval apart exactly when RunDue calls cannot overlap |
| `Scheduler.OverlappingCallsLaunchTwice` | internal/scheduler/scheduler.go:254-306 | with any limiter or none, a run with overlapping calls launches a one-shot entry twice |
| `ErrGroup.Group.GoPass` | internal/errgroup/errgroup.go:108-141 | with a limiter a context that has ended is refused on entering, and later only if all permits are out, its cause recorded; otherwise Go starts its function (counted, holding a permit) exactly when fewer permits are out than the capacity, and waits with nothing changed if not; without a limiter it starts at once |
| `ErrGroup.UnlimitedGoStarts` | internal/errgroup/errgroup.go:108-141 | in no run is a Go of a group without a limiter sent away |
| `ErrGroup.StartsIff` | internal/errgroup/errgroup.go:108-141 | in any run a waiting Go goes on, and a TryGo starts, exactly when the goroutines of all the groups hold fewer permits than the capacity; without a limiter both start |
| `ErrGroup.EndedContext` | internal/errgroup/errgroup.go:108-141 | Go with an ended context: refused with a limiter, started without |
| `ErrGroup.Group.TryGo` | internal/errgroup/errgroup.go:119-126 | starts exactly when there is no limiter or fewer permits are out than its capacity, otherwise changes nothing; never records an error |
| `ErrGroup.Group.RecordErr` | internal/errgroup/errgroup.go:157-164 | only the first non-nil error is kept |
| `ErrGroup.Group.Finish` | internal/errgroup/errgroup.go:149-155 | records the failure, returns the permit and leaves the wait group; the release panics exactly when no permit is outstanding, and the wait group is left all the same |
| `ErrGroup.PermitsSumOverGroups` | internal/errgroup/errgroup.go:131-155 | `inFlight` of the shared semaphore is the sum over groups of the permits each holds, at most its capacity |
| `ErrGroup.AcrossIsTotal` | internal/errgroup/errgroup.go:131-147 | summing permits group by group is summing them over all tasks |
| `ErrGroup.FinishingNeverPanics` | internal/errgroup/errgroup.go:143-155 | no goroutine over-releases the shared semaphore or its group's wait group |
| `ErrGroup.FailedAcquireNeverRuns` | internal/errgroup/errgroup.go:108-126 | a function whose acquire failed has not run and never will |
| `ErrGroup.FirstErrorSticks` | internal/errgroup/errgroup.go:157-164 | a group's error, once set, is the same after any further events |
| `ErrGroup.WaitReportsFailure` | internal/errgroup/errgroup.go:169-177 | with no Go in progress Wait finds every call refused or run to its end, and returns nil exactly when every call succeeded, otherwise an error one of them recorded |
| `ErrGroup.FailureReachesWait` | internal/errgroup/errgroup.go:131-177 | what a function returned, or the cause its acquire failed with, stays with the call through any continuation, and with no Go in progress keeps Wait from returning nil |
| `ErrGroup.EveryCallCanFinish` | internal/errgroup/errgroup.go:131-155 | a call past its acquire can always get to the end of its function by its own steps, giving back exactly the permit it held, or is refused if its acquire had failed |
| `ErrGroup.WaitIsStable` | internal/errgroup/errgroup.go:169-177 | two Waits with no Go of the group between them return the same error, which is still the group's |
| `VersionedDir.Disk.WriteFileAtomic` | internal/fsutil/atomic.go:50-91 | however the write ends (success, any failing call, a crash after any step), the path holds its complete old or complete new content and only temporary files besides it have changed |
| `VersionedDir.Disk.FillTemp` | internal/fsutil/atomic.go:54-84 | the temporary file alone is touched, and on success holds the whole synced content |
| `VersionedDir.Disk.ReadSidecar` | internal/cacheutil/versioned_dir.go:66-81 | a missing sidecar is not an error; reading changes nothing |
| `VersionedDir.Disk.RemoveAll` | internal/cacheutil/versioned_dir.go:83-107 | removes file by file; at every point what is left below the root, and everything outside it, is as it was, and on success neither the root nor anything below it is left |
| `VersionedDir.TokensMismatched` | internal/cacheutil/versioned_dir.go:66-81 | answers true exactly when some sidecar that is present differs from its token's value |
| `VersionedDir.NukeEntries` | internal/cacheutil/versioned_dir.go:83-107 | touches no sidecar; at every point what is left is as it was, and on success nothing of this version's cache is |
| `VersionedDir.WriteSidecars` | internal/cacheutil/versioned_dir.go:52-59 | only this version's sidecars change, each having its complete old or new content at every point; on success every one is current |
| `VersionedDir.Open` | internal/cacheutil/versioned_dir.go:31-62 | however it ends a safe disk stays safe: cached data always has every sidecar present with the value it was written under. A completed Open leaves an entries directory and every sidecar current, empties the cache exactly on a mismatch (leaving extras of other versions) and otherwise leaves it alone, and from a safe disk leaves only data written under the current values; each sidecar has its old or its new content throughout |
| `VersionedDir.Cache` | internal/cacheutil/versioned_dir.go:18-30 | adding an entry after a completed Open keeps the disk safe and current, crash or not |
| `VersionHistory.AlwaysSafeIff` | internal/cacheutil/versioned_dir.go:31-107 | for versions with given tokens and extras, sharing a disk that starts empty: every run, whatever the values, failures, crashes and things cached, ends safe for the last version exactly when that version has no token an earlier one lacked and no extra dropped in between (or has no token at all) |
| `VersionHistory.OrderlyIsSafe` | internal/cacheutil/versioned_dir.go:31-107 | the sufficient half for given values: any run of such an orderly history ends safe |
| `VersionHistory.DisorderlyEndsUnsafe` | internal/cacheutil/versioned_dir.go:31-107 | the necessary half: for every other history there are values and a run of completed Opens, one of them caching one thing, that ends unsafe |
| `VersionHistory.SessionKeepsSafe` | internal/cacheutil/versioned_dir.go:31-107 | one session of a version, cut short or not, keeps the disk safe for any later version whose tokens and present cache it covers |
| `VersionHistory.TwoVersionsOrderlyIff` | internal/cacheutil/versioned_dir.go:66-81 | with two versions only new tokens matter |
| `VersionHistory.AddedTokenIsUnsafe` | internal/cacheutil/versioned_dir.go:66-81 | tokens {v}, then {v, g}: nothing mismatches, nothing is removed, and old entries pass for current |
| `VersionHistory.ResumedExtraIsUnsafe` | internal/cacheutil/versioned_dir.go:83-107 | an extra file or directory dropped by a second version and taken up again by a third: the second lets the token move on and leaves what the first had cached |
| `VersionHistory.RunSession` | internal/cacheutil/versioned_dir.go:31-115 | a program that opens the directory, caches its things while that succeeds and may clear the root, failing or crashing anywhere, is a session |
| `VersionHistory.History` | internal/cacheutil/versioned_dir.go:31-115 | any sessions over one disk make a run; if the versions are orderly the disk is safe for the one that ran last |
| `VersionedDir.CrashKeepsSafe` | internal/fsutil/atomic.go:50-91 | a crash at any instant, tearing every file whose data was not synced and losing any temporary file, leaves a safe disk safe |
| `VersionedDir.ShrinkKeepsSafe` | internal/cacheutil/versioned_dir.go:83-107 | dropping any cached files while leaving the sidecars alone keeps the disk safe |
| `VersionedDir.NoMismatchMeansCurrent` | internal/cacheutil/versioned_dir.go:42-50 | on a safe disk no mismatch means that nothing is cached or that every sidecar is current, which is why Open may skip the nuke |
| `VersionedDir.CurrentMeansFresh` | internal/cacheutil/versioned_dir.go:31-62 | on a safe disk with current sidecars whatever is cached was written under the current values |
| `VersionedDir.SidecarsWritten` | internal/cacheutil/versioned_dir.go:52-59 | writing any of the sidecars is harmless when nothing is cached or all were current |
| `VersionHistory.OpenedKeepsSafe` | internal/cacheutil/versioned_dir.go:31-62 | a completed Open keeps the disk safe for any version whose tokens and present cache it covers |
| `VersionedDir.SidecarFirstIsUnsafe` | internal/cacheutil/versioned_dir.go:42-59 | writing a sidecar before the old entries are gone breaks safety, so the order of the two halves is essential |
| `CircuitBreaker.Breaker.constructor` | internal/circuitbreaker/circuitbreaker.go:95-110 | a new breaker is closed with zero counters; a non-positive threshold is 5 and a non-positive cooldown 30 s |
| `CircuitBreaker.Breaker.AllowCall` | internal/circuitbreaker/circuitbreaker.go:136-156 | admits exactly when closed, or open for at least the cooldown, the latter moving to half-open; always counts the call |
| `CircuitBreaker.Breaker.RecordResult` | internal/circuitbreaker/circuitbreaker.go:158-192 | on the fields, for every state and outcome: half-open reopens at `now` with `failures` at the threshold on a failure and closes with 0 on a success; closed counts failures, a success clears them and the threshold opens at `now`; open only counts |
| `CircuitBreaker.Breaker.MoveTo` | internal/circuitbreaker/circuitbreaker.go:195-210 | a move to the present state changes nothing; any other is counted |
| `CircuitBreaker.Breaker.Reset` | internal/circuitbreaker/circuitbreaker.go:245-251 | closes the breaker and clears the failures and the opening time |
| `CircuitBreaker.StepKeepsInv` | internal/circuitbreaker/circuitbreaker.go:116-251 | every step of any caller keeps the history, the failure run, the episodes and the call ledger |
| `CircuitBreaker.HistoryIsAWalk` | internal/circuitbreaker/circuitbreaker.go:136-210 | for any callers the state history is a walk with `transitions` steps in which a failed report opens the breaker from closed or half-open, a successful one closes it from half-open, a call makes an open one half-open at least the cooldown after the opening, and Reset closes it |
| `CircuitBreaker.ReportDecides` | internal/circuitbreaker/circuitbreaker.go:158-192 | in any run a report ends a half-open episode exactly as it says (open at `now` with `failures` at the threshold, or closed with none), opens a closed breaker exactly when it is the failure that completes a run of threshold, and does not move an open one |
| `CircuitBreaker.CallDecides` | internal/circuitbreaker/circuitbreaker.go:136-156 | in any run a call is let in while closed, turned away while half-open, and while open becomes the probe exactly when the cooldown has passed since the change that opened the breaker |
| `CircuitBreaker.RefusalCounts` | internal/circuitbreaker/circuitbreaker.go:121-126 | a caller turned away counts its short circuit, and only once |
| `CircuitBreaker.ResetForgets` | internal/circuitbreaker/circuitbreaker.go:245-251 | in any run Reset leaves the breaker closed with no failures counted and every caller where it was |
| `CircuitBreaker.FailuresAreConsecutive` | internal/circuitbreaker/circuitbreaker.go:158-192 | while closed, `failures` is the trailing run of failures and below the threshold; otherwise it is the threshold |
| `CircuitBreaker.OneCallerPerEpisode` | internal/circuitbreaker/circuitbreaker.go:136-156 | each half-open episode admitted exactly one caller |
| `CircuitBreaker.CallsAreConserved` | internal/circuitbreaker/circuitbreaker.go:116-131 | `totalCalls` is short-circuited plus about to be counted plus in flight plus recorded, and `totalFailures` the failed reports |
| `CircuitBreaker.LatecomerCloses` | internal/circuitbreaker/circuitbreaker.go:136-192 | whenever a caller is still in flight as the breaker opens, a probe can be admitted after the cooldown and that caller then close the breaker with the probe in flight |
| `CircuitBreaker.ProbesDecideIff` | internal/circuitbreaker/circuitbreaker.go:136-192 | from any reachable open breaker, in every continuation until it closes: only probes end episodes, and no report finds it open or comes from anyone but the probe, exactly when no caller was in flight |
| `CircuitBreaker.LateReportDecides` | internal/circuitbreaker/circuitbreaker.go:158-192 | a run in which, of three callers admitted while closed, one trips the breaker, one reports while it is open and one closes it with the probe still in flight |
| `KV.NextPow2` | internal/kv/kv.go:234-240 | the result is a power of two at or above n and at most every such power |
| `KV.DoublingEndsIff` | internal/kv/kv.go:234-240 | in 64-bit arithmetic the doubling loop ends exactly for n up to 2^62 |
| `KV.MaskIsRemainder` | internal/kv/kv.go:214-218 | masking with 2^k - 1 is the remainder modulo 2^k |
| `KV.Memory.IndexIsRemainder` | internal/kv/kv.go:214-218 | a key's shard is its hash modulo the number of shards, for any number of them |
| `KV.Memory.constructor` | internal/kv/kv.go:75-103 | an empty store whose shard count is the least power of two at or above the request |
| `KV.Memory.IndexInRange` | internal/kv/kv.go:214-218 | the mask always picks an existing shard |
| `KV.Memory.Get` | internal/kv/kv.go:115-135 | uninterrupted, Get answers as the flat map does and removes at most the expired entry it found |
| `KV.Memory.Set` | internal/kv/kv.go:138-143 | the flat map with the key bound to an entry that never expires |
| `KV.Memory.SetWithTTL` | internal/kv/kv.go:146-155 | the flat map with the key bound to the value, expiring at `now + ttl`, or never for a non-positive ttl |
| `KV.Memory.Delete` | internal/kv/kv.go:158-163 | the flat map without the key |
| `KV.Memory.Len` | internal/kv/kv.go:166-174 | the size of the flat map, expired entries included |
| `KV.Memory.SweepShard` | internal/kv/kv.go:181-189 | one shard keeps exactly its unexpired entries |
| `KV.Memory.Sweep` | internal/kv/kv.go:179-190 | the flat map keeps exactly its unexpired entries |
| `KV.Memory.GetOrSet` | internal/kv/kv.go:197-212 | a hit is returned unchanged; a miss returns what was computed and, if that succeeded, stores it, expiring `ttl` after the time of storing, in whatever the store holds by then; a failed computation stores nothing |
| `KV.RemovalIsInvisible` | internal/kv/kv.go:115-190 | neither Sweep nor the lazy expiry of a Get changes any answer given at that time or later |
| `KV.FlatSize` | internal/kv/kv.go:166-174 | the shard sizes add up to the size of the flat map |
| `KV.FlatReplaced` | internal/kv/kv.go:138-163 | changing one key in its own shard changes the flat map under that key and nowhere else |
| `KVConcurrent.StepKeepsInv` | internal/kv/kv.go:115-190 | every interleaved step keeps the store in agreement with the one that never expires anything |
| `KVConcurrent.OnlyExpiredEntriesVanish` | internal/kv/kv.go:115-135 | under any interleaving an entry that nobody deletes or overwrites leaves the store only when it has expired at the moment of removal, by Get's re-check or by Sweep |
| `KVConcurrent.ExpiryIsInvisible` | internal/kv/kv.go:115-190 | now and at every later time the store answers as one that never removed an expired entry |
| `KVConcurrent.ValueLivesFor` | internal/kv/kv.go:115-190 | from a Put until the key is next written, through any run, the store holds the value at any later time `at` exactly when the ttl is not positive, `at` is before the time of the Put plus the ttl, or that sum is the zero time |
| `KVConcurrent.PutThenGet` | internal/kv/kv.go:115-155 | a Get after such a run hits with the value put exactly by the same condition, and otherwise misses and leaves the key out of the store |
| `KVConcurrent.DeletedStaysDeleted` | internal/kv/kv.go:158-163 | a key deleted and not written again is not in the store after any run |
| `KVConcurrent.SweepLeavesNoneExpired` | internal/kv/kv.go:179-190 | in any run a Sweep that has been through every shard has left no entry that had expired as it began |
| `KVConcurrent.SweepAlone` | internal/kv/kv.go:179-190 | a Sweep nothing interrupts leaves exactly the entries not expired as it began, shard by shard as Memory.Sweep does at once |
| `KVConcurrent.ReadOnce` | internal/kv/kv.go:115-135 | a Get finds what the store holds at its one read, whatever runs afterwards |
| `KVConcurrent.AnswersAreCurrent` | internal/kv/kv.go:115-135 | a hit returns what the store held at a moment of the run, unexpired then; a miss means that at such a moment the key was absent or its entry had expired when the clock was looked at |
| `KVConcurrent.FalseMissIff` | internal/kv/kv.go:115-135 | a Get that misses is wrong at every moment of its call exactly when the key's entry was live as it began and was rewritten each time before it expired; and only if the key is written meanwhile |
| `KVConcurrent.AlwaysThereIff` | internal/kv/kv.go:115-190 | whether the store answers throughout a run depends on the clock and the callers' own writes alone, not on sweeps or other Gets |
| `KVConcurrent.FalseMiss` | internal/kv/kv.go:115-135 | such a Get: it reads an entry that is replaced in time, but looks at the clock after the old one has expired |
| `AsyncWriter.AsyncWriter.Submit` | internal/cacheutil/async_writer.go:55-75 | accepts exactly when open with fewer jobs in the channel than its size, then queues and counts the job; otherwise everything is as before |
| `AsyncWriter.AsyncWriter.Receive` | internal/cacheutil/async_writer.go:121-124 | takes the oldest job and nothing else |
| `AsyncWriter.AsyncWriter.Account` | internal/cacheutil/async_writer.go:121-144 | after a job: bytes, and on failure the counter and the joined error, then completed and the wait group |
| `AsyncWriter.StepKeepsInv` | internal/cacheutil/async_writer.go:55-144 | every step of the submitters, workers and flushers keeps order, ledger, errors and what Flush and Close have seen |
| `AsyncWriter.JobsAreConserved` | internal/cacheutil/async_writer.go:55-135 | accepted is queued in the channel plus in a worker's hands plus completed; the channel is within its size; `completed` exceeds `queued` by at most one; no send follows the close |
| `AsyncWriter.AcceptedIff` | internal/cacheutil/async_writer.go:37-75 | in any run a send goes through exactly when the channel holds fewer jobs than the queue size (1 if less is asked for), and an uninterrupted Submit is accepted exactly when the writer is open as well, leaving no trace otherwise |
| `AsyncWriter.FreeWorkersTake` | internal/cacheutil/async_writer.go:37-135 | in any run a worker with nothing in hand takes the oldest job there is, and workers leave only when the channel is closed and empty |
| `AsyncWriter.JobsRunInOrder` | internal/cacheutil/async_writer.go:121-135 | jobs are started in the order they were accepted, each at most once |
| `AsyncWriter.CloseDrains` | internal/cacheutil/async_writer.go:92-107 | when Close returns, completed, queued, started and accepted agree, `failed` and `bytes` are the sums over the jobs, and the error joins exactly the failed jobs' errors, each once |
| `AsyncWriter.CloseCanReturn` | internal/cacheutil/async_writer.go:92-135 | from any reachable state a Close that has begun can be brought to its return, with every accepted job run |
| `AsyncWriter.FlushCoversEarlierJobs` | internal/cacheutil/async_writer.go:79-88 | Flush returns after every job accepted before it was called, and reports at least their errors |
| `EventBus.SortIDs` | internal/eventbus/eventbus.go:269-275 | in place, ascending and a permutation |
| `EventBus.Sync.Subscribe` | internal/eventbus/eventbus.go:53-70 | the new id is fresh and above all registered ones |
| `EventBus.Sync.Publish` | internal/eventbus/eventbus.go:75-98 | the handlers called are exactly those registered at both looks at the table, each once, in subscription order |
| `EventBus.Async.Add` | internal/eventbus/eventbus.go:151-165 | a closed bus takes no subscriber; otherwise one empty subscription is added |
| `EventBus.Async.SendOrDrop` | internal/eventbus/eventbus.go:196-203 | the event is queued exactly when the queue is shorter than the buffer, and counted as dropped for the subscriber and the bus otherwise; nobody else is touched |
| `EventBus.Async.Publish` | internal/eventbus/eventbus.go:185-211 | under DropWhenFull every listed subscriber is offered the event exactly once, whatever the order, and the drops are counted; a closed bus offers nothing |
| `EventBus.EverySendCounts` | internal/eventbus/eventbus.go:185-211 | in every run and both modes, what a subscriber accepted comes from distinct Publishes that have been through it; without DropWhenFull from all of them, unless it was stopped |
| `EventBus.BlockingReachesEverybody` | internal/eventbus/eventbus.go:185-211 | without DropWhenFull a Publish at the end of its snapshot has had its event accepted by every subscriber in it that is not stopped |
| `EventBus.SendDecides` | internal/eventbus/eventbus.go:136-211 | in any run a send goes through exactly when the queue is shorter than the buffer size (16 if none is given); otherwise it is dropped and counted under DropWhenFull and waits without, unless it gives up on a stopped subscriber |
| `EventBus.NoPublishAfterClose` | internal/eventbus/eventbus.go:185-188 | once Close has flagged the bus no further Publish gets past its check |
| `EventBus.LiveCatchesUp` | internal/eventbus/eventbus.go:245-265 | the goroutine of a subscription that is not stopped can always handle everything its channel has taken, by its own steps |
| `EventBus.WaitingSendGetsIn` | internal/eventbus/eventbus.go:185-265 | a blocking Publish that has come to a live subscriber can always get its event accepted and handled |
| `EventBus.Async.SignalStops` | internal/eventbus/eventbus.go:232-241 | every listed subscriber is unlisted and stopped, once |
| `EventBus.StepKeepsInv` | internal/eventbus/eventbus.go:151-265 | every interleaved step keeps each subscriber's queue discipline and the bus's counters |
| `EventBus.DeliveryIsFifo` | internal/eventbus/eventbus.go:185-265 | for each subscriber accepted = handled ++ in hand ++ queued with the queue within its size, so handled is a prefix of accepted; under DropWhenFull attempts = accepted + dropped |
| `EventBus.DropsAreTotalled` | internal/eventbus/eventbus.go:196-203 | the bus's counter is the sum of the drops, and stays zero without DropWhenFull |
| `EventBus.CloseDrains` | internal/eventbus/eventbus.go:232-265 | from any state that keeps the invariants, whatever happens after the stops are signalled, once Close returns a subscriber that had been counted, with no Publish about to send to it at the stop, is gone and has handled exactly what its channel took |
| `EventBus.CloseDrainsIff` | internal/eventbus/eventbus.go:151-265 | in any reachable state in which the stops are about to be signalled, every continuation drains a listed subscriber exactly when its goroutine has been counted and no Publish is about to send to it |
| `EventBus.CanBeLost` | internal/eventbus/eventbus.go:185-265 | otherwise a continuation exists in which Close returns and the goroutine is not gone, or is gone with an event in its queue |
| `EventBus.RunOut` | internal/eventbus/eventbus.go:245-265 | once everybody is stopped the goroutines can all finish without another send, leaving empty queues |
| `EventBus.LateSendIsLost` | internal/eventbus/eventbus.go:185-243 | a run that reaches such a bus, with one counted subscriber and one Publish holding its snapshot, and goes on until Close has returned with the subscriber not drained |
| `EventBus.UnsubscribeDrains` | internal/eventbus/eventbus.go:172-181 | with the goroutine counted and no Publish about to send to it at the Unsubscribe, it is gone only with everything accepted handled |
| `EventBus.OnlyStoppedLeave` | internal/eventbus/eventbus.go:245-265 | a goroutine is gone only after its subscription was stopped and with nothing in hand |
| `RateLimit.Bucket.AllowN` | internal/ratelimit/ratelimit.go:80-92 | on the fields: the level is what was left plus rate times the time since `lastFill`, capped at burst; granted exactly when n is at most that, and then n less is left, otherwise all of it |
| `RateLimit.Bucket.Tokens` | internal/ratelimit/ratelimit.go:132-137 | refills by the same arithmetic and answers with the level |
| `RateLimit.Bucket.WaitN` | internal/ratelimit/ratelimit.go:98-128 | alone on the bucket, on a clock at or after `lastFill` and with timers that never fire early: at most two sleeps, tokens taken only at the end and only if granted then, refusal above burst; a finished wait has taken n from the level then found and lasted exactly its computed sleeps and what they overslept; one ended by its context at any instant leaves the bucket as if it had not been called |
| `RateLimit.WindowBound` | internal/ratelimit/ratelimit.go:80-150 | over any run and any clock the level stays within [0, burst], and between any two points the tokens granted are at most burst + rate x advance of `lastFill` |
| `RateLimit.TokensAreConserved` | internal/ratelimit/ratelimit.go:80-150 | over any run and any clock, tokens granted plus the final level plus what ran over the brim equal the initial level plus rate times the advance of `lastFill`; nothing runs over unless some call found the bucket full |
| `RateLimit.AllowedIff` | internal/ratelimit/ratelimit.go:80-150 | AllowN is granted exactly when the capped level is at least n, leaving that level less n, or the level itself when refused |
| `RateLimit.WholeTokensAreGranted` | internal/ratelimit/ratelimit.go:80-92 | of single-token calls at one instant the j-th is granted exactly when j is at most the level |
| `RateLimit.FullBucketGrantsBurst` | internal/ratelimit/ratelimit.go:57-92 | of k single-token calls on a new bucket min(k, burst) are granted |
| `RateLimit.WaitIsExact` | internal/ratelimit/ratelimit.go:113-121 | the computed sleep is the time the missing tokens take to flow in, cut to whole nanoseconds, or a millisecond if that is less than one |
| `RateLimit.RefillTwice` | internal/ratelimit/ratelimit.go:139-150 | two refills on a monotone clock equal one at the later time |
| `RateLimit.ProbesAreInvisible` | internal/ratelimit/ratelimit.go:80-137 | on a monotone clock a refused AllowN or a Tokens call changes no later answer |
| `RateLimit.NoTraceIff` | internal/ratelimit/ratelimit.go:80-150 | on any clock a Tokens call or refused AllowN goes unnoticed by every later sequence of calls exactly when it does not read a time ahead of `lastFill` |
| `RateLimit.ProbeSeenByEarlierClock` | internal/ratelimit/ratelimit.go:139-150 | a concrete bucket on which a probe is noticed after the clock steps back |
| `RateLimit.SleepHelps` | internal/ratelimit/ratelimit.go:98-128 | after the computed sleep the bucket holds n tokens or is short by less than one nanosecond's worth, and from such a shortage one more sleep suffices |
| `Random.Shuffle` | internal/random/random.go:160-168 | returns a fresh array with the shuffled items and leaves its argument alone |
| `Random.ShufflePermutes` | internal/random/random.go:160-168 | the result is a rearrangement of the items |
| `Random.ShuffleIsABijection` | internal/random/random.go:160-168 | on duplicate-free items every rearrangement comes from exactly one sequence of choices |
| `Random.EveryOrderIsReachable` | internal/random/random.go:160-168 | every rearrangement comes from some choices, duplicates or not |
| `Random.FormatUUID` | internal/random/random.go:135-149 | 36 characters with hyphens exactly at 8, 13, 18 and 23, and reading the digits gives the sixteen bytes back |
| `Random.UUID` | internal/random/random.go:74-82 | the version digit is 4 and the variant digit 8, 9, a or b; reading the text gives the source's bytes but for the upper four bits of byte 6 and the upper two of byte 8 |
| `Retry.GrownIsCappedExponential` | internal/retry/retry.go:159-167 | with the base within the cap the early-exit loop yields min(base x multiplier^steps, max) |
| `Retry.CapKeptIff` | internal/retry/retry.go:159-167 | a delay stays within the cap exactly when the base does or a step was taken |
| `Retry.CappedExponentialIff` | internal/retry/retry.go:159-167 | exactly when the delay is the capped exponential, for every base |
| `Retry.FirstDelayExceedsCap` | internal/retry/retry.go:159-167 | BaseDelay 10 against MaxDelay 5: the first delay is 10 |
| `Retry.DelaysDoNotShrink` | internal/retry/retry.go:159-167 | with a multiplier of at least one, delays do not shrink from attempt to attempt |
| `Retry.JitterIsBounded` | internal/retry/retry.go:168-175 | jitter keeps the delay non-negative and within the fraction of itself |
| `Retry.DelayIs` | internal/retry/retry.go:73-177 | for a base within the cap the delay after any attempt is min(base x multiplier^(attempt-1), max), times 1 + (2 draw - 1) x jitter if there is jitter and not below 0, cut to whole nanoseconds, in the policy's own fields with 100 ms, 5 s and 2 as defaults |
| `Retry.ComputeDelay` | internal/retry/retry.go:159-177 | the loop computes the delay the lemmas are about |
| `Retry.DelayWithinCap` | internal/retry/retry.go:73-99 | with the defaults filled in and no jitter, a base within the cap keeps every delay within it |
| `Retry.Do` | internal/retry/retry.go:117-157 | at most `p.maxAttempts` calls (3 if not positive), calls - 1 sleeps of the right lengths on every return that was not cancelled, all calls but the last retryable failures, and which error each kind of return carries |
| `Retry.TotalSleepIsBounded` | internal/retry/retry.go:117-157 | without jitter everything Do sleeps adds up to at most (maxAttempts - 1) x max |
| `VFS.RelativeChildAgrees` | internal/vfs/vfs.go:260-275 | on texts of cleaned paths the prefix test and cut find exactly the component below the directory |
| `VFS.PrefixMeansBelow` | internal/vfs/vfs.go:196-206 | the text test of Remove finds exactly the paths below the directory |
| `VFS.NothingUnderDot` | internal/vfs/vfs.go:196-206 | no cleaned path matches the prefix for ".", so Remove never sees children there |
| `VFS.AlwaysATree` | internal/vfs/vfs.go:127-208 | after any operations each path's parent is an implicit root or an existing directory |
| `VFS.NothingBeneathFiles` | internal/vfs/vfs.go:127-185 | in a tree nothing lies beneath a regular file |
| `VFS.MkdirAllOk` | internal/vfs/vfs.go:162-185 | on success the path is a directory, nothing existing changed, and only the path and its ancestors were added, as directories with the permission given |
| `VFS.MkdirAllFailsIff` | internal/vfs/vfs.go:162-185 | in a tree MkdirAll fails, with not-a-directory, exactly when a regular file is the path or an ancestor of it |
| `VFS.WritesIff` | internal/vfs/vfs.go:127-147 | in any reachable state WriteFile succeeds exactly when the path is no root or directory and its parent is a root or a directory, which error it gives otherwise, and that it changes that file alone |
| `VFS.RemovesIff` | internal/vfs/vfs.go:189-208 | in any reachable state Remove succeeds exactly when the path is stored and is "." or has nothing below it, which error it gives otherwise, and that the path alone goes |
| `VFS.ReadAfterWrite` | internal/vfs/vfs.go:108-147 | after a successful WriteFile its path reads back as the data, and every other path reads as before |
| `VFS.WriteThenRead` | internal/vfs/vfs.go:108-208 | in any reachable state what is written successfully is what is read after any further operations, failing or not, that neither write nor remove that file |
| `VFS.Mem.Write` | internal/vfs/vfs.go:127-147 | on the stored files: which error exactly when, changing nothing, or the one file is written; keeps the tree |
| `VFS.Mem.Mkdir` | internal/vfs/vfs.go:162-185 | creates the missing directories, or fails and changes nothing at all; keeps the tree |
| `VFS.HasChildrenIff` | internal/vfs/vfs.go:197-204 | on what can be stored, Remove's text test finds something exactly when something lies below the path and the path is not "." |
| `VFS.RemoveRefusesIff` | internal/vfs/vfs.go:189-208 | in a tree a stored directory with something below it is refused exactly when it is not "."; "." is removed |
| `VFS.DotIsRemoved` | internal/vfs/vfs.go:189-208 | writing "a" and removing "." leaves "a" stored without "." |
| `VFS.SlashIsNeverStored` | internal/vfs/vfs.go:244-253 | "/" is stored in no reachable state, which is why ReadDir("/") fails |
| `VFS.Mem.Delete` | internal/vfs/vfs.go:189-208 | removes a file, a directory with nothing below it, or "." whatever is stored; otherwise fails and changes nothing; keeps the tree |
| `VFS.Mem.ReadDir` | internal/vfs/vfs.go:212-256 | succeeds exactly for "." or a stored directory and lists exactly the names of its immediate children, strictly ascending |
| `VFS.ListingNeedsTheInvariant` | internal/vfs/vfs.go:212-240 | on a map that is not a tree the listing would name something that does not exist |
| `Sorting.SortOfDistinct` | internal/rules/collision.go:31-36 | sorting distinct names puts each strictly before the next and loses none |
| `Sorting.StrictlySortedIsUnique` | internal/rules/collision.go:31-36 | a strictly ascending list is determined by its elements |
| `Sorting.LessIsLexicographic` | internal/rules/collision.go:31-36 | one name is before another exactly when at the first place they differ it ends or has the smaller character |
| `Rules.CollisionsAreDetermined` | internal/rules/collision.go:30-54 | the tools alone determine the collision findings, whatever order the map yields its names in |
| `Rules.DriftIsDetermined` | internal/rules/static_vs_live.go:18-56 | the two sets alone determine the comparison findings |
| `Rules.FindingsAreStable` | internal/v2/v2.go:193-219 | running the same rules over the same sets again gives the same findings |
| `Rules.GroupByName` | internal/rules/collision.go:19-23 | each name is mapped to exactly its indices, ascending |
| `Rules.DuplicateNames` | internal/rules/collision.go:24-36 | exactly the non-empty names with more than one index, ascending |
| `Rules.CollisionRule` | internal/rules/collision.go:19-54 | one finding for each tool whose non-empty name occurs at least twice, by ascending name and then index, listing the other locations |
| `Rules.CollisionSays` | internal/rules/collision.go:30-54 | each finding carries the rule's id, severity and category and its tool's name and place, and lists in ascending order the places of all other tools of that name and of no others, one each |
| `Rules.LocationLocates` | internal/rules/collision.go:61-69 | a place is the file and line, the file alone when there is no line, or that the source is unknown |
| `Rules.DecimalReadsBack` | internal/rules/collision.go:61-69 | the digits of a line number read back as it |
| `Rules.NoCollisionsIff` | internal/rules/collision.go:19-54 | no finding exactly when the non-empty names are pairwise distinct |
| `Rules.IndexByName` | internal/rules/static_vs_live.go:63-72 | each name is mapped to its first index |
| `Rules.StaticVsLiveRule` | internal/rules/static_vs_live.go:18-56 | nothing without both sets; otherwise one finding per name on one side only, at that name's first index, ascending on each side |
| `Rules.DriftSays` | internal/rules/static_vs_live.go:18-56 | each finding says which side alone has the name and carries the rule's identity and the first tool of that name on that side |
| `Rules.NoDriftIff` | internal/rules/static_vs_live.go:18-56 | no finding exactly when both sides use the same names |
| `Rules.Context.ReportTool` | internal/v2/v2.go:87-97 | appends one finding stamped with the rule and the tool |
| `Rules.Registry.Register` | internal/v2/v2.go:152-168 | panics, changing nothing, on a nil rule, an empty id, a rule without any callback or a taken id, in that order of checks; otherwise adds the rule; ids stay unique |
| `Rules.OwnFindings` | internal/v2/v2.go:193-219 | with unique ids a rule's findings can be told apart in the joined result |
| `Rules.RunProject` | internal/v2/v2.go:193-204 | the result is the rules' contributions in order, and the findings under a rule's id are exactly what that rule promises |
| `Rules.RunComparison` | internal/v2/v2.go:208-219 | the same for the comparison rules |

## Left out

- Command line, output formats, logger, HTTP, process and environment wrappers: I/O and formatting.
- Scanner and the per-tool rules: regular expressions, JSON and table lookups.
- Signed tokens and the compressed cache encoding: their correctness lies in cryptographic and encoding libraries.
- Shutdown hooks, performance counters, clocks, id generators, sharded cache paths: little beyond single expressions.
- Timers and loops that only wait: the scheduler's Start and Stop, the store's janitor, signalWake; the steps they trigger are modelled.
- Fairness of goroutines: that what can always go on (`Scheduler.InvocationCanFinish`, `AsyncWriter.CloseCanReturn`, `EventBus.RunOut` and others) does so in the end.
- Breaker callbacks (OnStateChange), during which the lock is dropped; panics in operations and handlers.
- Semaphore.Run, Acquire, TryAcquire, Release and the Manual limiter: one-line wrappers or a test double.
- Fixed-width overflow of counters and durations, except in nextPow2.
- Crashes part-way through VersionedDir.Clear, where safety is not kept.
- The extra data of ReadDir entries, which depends on map iteration order; Stat; byte-level copying of file contents.
- The wording of findings beyond the data it is built from; per-tool Run in the dispatcher.
- The quality of the random source; choices are arbitrary numbers in range.
- KV.Memory.constructor: asks for at most 2^62 shards, because beyond that the 64-bit loop never ends (`KV.DoublingEndsIff`).
- RateLimit.Bucket.WaitN: says nothing about several waiters drawing on one bucket, or a clock behind `lastFill`, where two sleeps may not do.
- EventBus.Async.Publish: covers DropWhenFull, since without it a send can block; what the blocking mode delivers is stated of the state machine (`EventBus.EverySendCounts`, `EventBus.BlockingReachesEverybody`).
