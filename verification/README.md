# tenant-core: a Dafny model of ban propagation, retries, caching and rate limiting

tenant-core is a Go toolkit for multi-tenant HTTP services. This project models
the parts of it that are hard to get right and proves what they guarantee over
every run, every interleaving and every input:

- **Ban propagation** (`Propagation*`, `ApplyRace`, `LastWriter`): the store, the
  admin service's `SetState` → `Publish` → `Enqueue`, a bus that delivers in any
  order, the bounded retry queue with its worker, and any number of ban checkers
  with startup snapshots, as one step protocol. Each mutex section, `sync.Map`
  access and clock reading outside a mutex is one step. Proved: nothing is lost track
  of, no event lies, exactly when a checker at rest agrees with the store, and that
  rest can always be reached.
- **The retry queue** (`RetrySlots`, `RetryRounds`, `RetryQueue`, `RetryReplay`, `Backoff`): the
  heap object with entries compared by reference, and the three-phase pass that
  enqueues can interleave with. The object's loops are proved to compute the
  list functions of `RetrySlots`, and the state machine built from the same
  functions is proved bounded, ordered, conserving, draining and really backing off.
- **The cache** (`CachedStore`): TTL cache plus singleflight over a changing source.
- **The Redis rate limiter** (`RateLimiter`, `RateLimitKeys`, `Division`): the Lua
  script on shared counters, down to the text of the keys.
- **Subscribe against Stop** (`Subscriptions`) on the Redis and NATS buses.
- **Supporting parts**: `MemoryStore`, `BanChecker`, `AdminService` as objects,
  lock-free `Metrics`, and `Resolver` with the cache keys.

`Tenants` holds the shared types. `dafny verify dfyconfig.toml` checks everything.

## Where the code does not do what its comments say

Each of these is kept as the code has it, shown to happen, and delimited by the
exact condition under which the promise holds, for all runs or all inputs.

- The ban checker's comment (banchecker/banchecker.go:55-57) promises that stale
  data never overwrites newer data whatever the goroutine order. `apply` loads and
  stores separately, so two overlapping applies can leave the older record
  (`StaleRecordCanWin`). `RaceCondition` reads the exact condition off the schedule:
  last-writer-wins holds at every point if and only if no record is loaded, overtaken
  by the store of a newer one of its tenant, and then stored.
  `NonOverlappingIsSafe` derives it from applies of one tenant not overlapping.
- Two transitions of one tenant that overlap can be stamped in the opposite order
  of their `SetState`, and then every checker settles on the wrong state
  (`OverlappingTransitionsCanDisagree`). The race of two applies breaks agreement as
  well, even when transitions do not overlap (`OverlappingAppliesCanDisagree`).
  Provided that no store for the tenant at the checker overwrites something newer,
  `AgreementCondition` is the if-and-only-if for the timestamps.
- The retry queue's comment (admin/retry_queue.go:153-156) says an entry can never
  have moved during a pass. It can (`EntriesMoveDuringAPass`). `EntriesMoveWhenFull`:
  every entry stays where it is if and only if the list has room for everything
  enqueued meanwhile, and otherwise every single one moves or goes. The re-lookup by
  reference is what makes `RetryDue` correct.
- The architecture notes say a singleflight miss causes a single source call. A
  late joiner can fetch again while the entry is fresh (`SecondFetchIsPossible`).
  `RedundantFetch`: the entry is usable at the join if and only if a flight wrote it
  since the caller's lookup, less than a TTL ago, and the fetch is repeated if and
  only if moreover no flight of the tenant is running. What always holds is `OneFetchAtATime`,
  `MonotonicReads` and `HitsAreFresh`.
- The limiter's window TTL is truncated to milliseconds, and a limit function may
  return a window of zero or less, for which there is no quota at all
  (`NoWindowNoQuota`). The per-window quota holds for every request sequence if and
  only if the window is positive and a whole number of milliseconds (or the limit
  allows nothing): `QuotaCondition`.
- A NATS handler can run for a subscription that `Subscribe` refuses; a Redis one
  cannot (`RedisHandlesOnlyAccepted`). `NatsHandlesRefused`: a `Subscribe` that has
  not got the lock yet can still end that way, with no further `Stop`, if and only if
  the bus is stopped already, which `StoppedWhileSubscribing` reaches.
- The store's comment (store/memory.go:36-37) says a caller can never change the
  store through a tenant it got. The copy shares the roles slice, so writing an
  element of it does (`RolesAreShared`). `IsolationCondition`: what callers do to
  their objects leaves the store as it was if and only if it is not such a write.
- Cache keys isolate tenants only while no ID followed by a colon starts another ID:
  `SameKey` says exactly which arguments share a key, `TenantsShareAKey` which
  tenants, and resolved tenants never do (`ResolvedKeysDoNotCollide`).

## Assumptions

- One integer clock, strictly increasing from reading to reading, serves all
  instances. Steps are sequentially consistent.
- The bus is abstract: success delivers one copy to every current subscriber,
  failure to any subset of them; deliveries wait arbitrarily long. This covers
  `eventbus/memory.go`'s copy of the handler list with one goroutine per handler.
- Tenant states change only through the admin service once a tenant exists.
- Closing or unsubscribing a subscription succeeds. A Redis key expires as soon as
  its TTL has elapsed, and the limiter's clock reading and script are one step.
- Durations observed by the metrics are non-negative and their sums fit an int64.

## Model

| member | source | states |
|---|---|---|
| Backoff.DelayExact | admin/retry_queue.go:199-203 | the 64-bit delay equals base·2^(attempts-1) if and only if that fits an int64, for every base, negative ones included, and every attempt number, past the word size too |
| RetrySlots.SettleMember | admin/retry_queue.go:152-178 | a slot is in the list after a pass exactly when some slot of the list before it settled to it: untouched if not due, attempts+1 and rescheduled if failed with tries left |
| RetrySlots.SettleSnoc | admin/retry_queue.go:152-178 | applying the answers entry by entry with re-lookup equals settling every slot in place at once |
| RetrySlots.SettleAccounts | admin/retry_queue.go:152-178 | a pass splits the entries exactly into kept, removed after success and given up |
| RetrySlots.SettlePaysDebt | admin/retry_queue.go:127-179 | each due entry of a pass lowers the sum of (maxRetries+1-attempts) by at least one |
| RetryRounds.QueueConservation | admin/retry_queue.go:60-78 | in every run the list is bounded by maxSize, in enqueue order without duplicates, and every entry ever enqueued is listed, evicted, retried or exhausted, exactly one of these; the counts add up |
| RetryRounds.EvictionTakesOldest | admin/retry_queue.go:60-71 | an enqueue evicts only when full, and then exactly the earliest-enqueued entry still listed |
| RetryRounds.BackoffIsReal | admin/retry_queue.go:127-179 | between passes an entry was published exactly attempts ≤ maxRetries times, no entry ever more than maxRetries+1 times, and an exhausted one had stayed at least base·(2^maxRetries-1) |
| RetryRounds.RescheduleIsExact | admin/retry_queue.go:152-178 | a pass leaves nothing of a due entry that succeeded or used up its tries, and otherwise the entry with one more attempt, due exactly base·2^attempts after the clock reading of its failure |
| RetryRounds.DrainBound | admin/retry_queue.go:127-179 | without enqueues, publish calls made plus remaining debt never exceed the initial debt, whatever the bus answers |
| RetryRounds.DrainCost | admin/retry_queue.go:127-179 | so at most maxSize·(maxRetries+1) publish calls, and spending the whole debt empties the queue |
| RetryRounds.QueueDrains | admin/retry_queue.go:127-179 | for every bus there is a run without enqueues that empties the queue within that cost |
| RetrySlots.EnqueueAllKeepsLast | admin/retry_queue.go:60-78 | any number of enqueues in a row leave the last maxSize of the old entries followed by the newcomers in order |
| RetrySlots.EntriesStayPut | admin/retry_queue.go:60-78 | an old entry survives the enqueues if and only if it is not among those pushed out, and keeps its position if and only if none is |
| RetrySlots.ListStaysPut | admin/retry_queue.go:153-157 | the list is still in front, unmoved, if and only if it has room for all newcomers |
| RetryRounds.EntriesMoveWhenFull | admin/retry_queue.go:139-157 | in every reachable queue and whatever happens until the answers are applied, an entry has not moved if and only if the list had room for all the enqueues |
| RetryRounds.EntriesMoveDuringAPass | admin/retry_queue.go:153-157 | a run in which an entry of a running pass changes position and another one disappears before the answers are applied |
| RetryQueue.PublishRetryQueue.Enqueue | admin/retry_queue.go:60-78 | the object's list becomes the old one, without its oldest entry if full, plus a fresh entry due now |
| RetryQueue.PublishRetryQueue.IndexOf | admin/retry_queue.go:183-190 | the index of the entry by reference, or -1 exactly when it is not listed |
| RetryQueue.PublishRetryQueue.RemoveAt | admin/retry_queue.go:195-197 | cuts out one entry and keeps the order of the rest |
| RetryQueue.PublishRetryQueue.CollectDue | admin/retry_queue.go:130-137 | the copied entries are exactly those due, in list order |
| RetryQueue.PublishRetryQueue.ApplyResult | admin/retry_queue.go:152-178 | one iteration: removes, reschedules or gives up the entry if it is still listed, and touches nothing else |
| RetryQueue.PublishRetryQueue.ApplyResults | admin/retry_queue.go:149-178 | the loop over the due entries leaves the whole list settled in place, also when entries were evicted or shifted meanwhile |
| RetryQueue.PublishRetryQueue.RetryDue | admin/retry_queue.go:127-179 | with any number of enqueues between the phases, the final list is the interleaved list minus the published and exhausted survivors, failed survivors rescheduled, all else untouched; every entry stays the object it was with the event it had, and the newcomers carry exactly the events enqueued |
| RetryReplay.Replay | admin/retry_queue.go:60-197 | any sequence of calls on the queue object, passes with enqueues in between included, leaves exactly the list and the events of the corresponding run of the state machine |
| RetryReplay.ObjectKeepsPromises | admin/retry_queue.go:60-197 | so the object is bounded, accounts for every entry it ever held, and its pending entries were published exactly attempts ≤ maxRetries times |
| LastWriter.MergeAllKeepsWinner | banchecker/banchecker.go:59-70 | after any sequence of whole applies a tenant's entry is its record with the greatest timestamp, the last arrival on ties |
| LastWriter.LookupMeaning | banchecker/banchecker.go:76-84 | after any sequence of applies a tenant counts as banned if and only if its winning record says so; one that no record names is not banned |
| LastWriter.DeliveryOrder | banchecker/banchecker.go:52-74 | all delivery orders of the same records give the same entries if and only if records tied for newest agree |
| ApplyRace.RaceCondition | banchecker/banchecker.go:52-70 | with load and store as separate steps, the entry is the greatest finished record at every point if and only if no record of the schedule is loaded, then overtaken by the store of a newer one of its tenant, then stored |
| ApplyRace.AllDoneIsGreatest | banchecker/banchecker.go:59-70 | when every apply of such a run has ended, each tenant's entry is the greatest of all records applied |
| ApplyRace.AppliesAccounted | banchecker/banchecker.go:59-70 | every apply that has begun is finished or between load and store, exactly once |
| ApplyRace.GreatestUnlessRegression | banchecker/banchecker.go:59-70 | from any state, equivalently: no store overwrites something strictly newer |
| ApplyRace.StaleRecordCanWin | banchecker/banchecker.go:59-70 | a run of two overlapping applies after which the older record stays, which no serial order leaves |
| ApplyRace.NonOverlappingIsSafe | banchecker/banchecker.go:52-70 | applies of one tenant that do not overlap keep last-writer-wins in every goroutine order |
| BanChecker.BanChecker.Apply | banchecker/banchecker.go:59-70 | the entries become the merge of the old ones with the record |
| BanChecker.BanChecker.HandleEvent | banchecker/banchecker.go:72-74 | an event is applied as banned or not at its timestamp |
| BanChecker.BanChecker.IsBanned | banchecker/banchecker.go:78-84 | the entry's flag, and false for a tenant without an entry |
| BanChecker.BanChecker.LoadInitialBannedList | banchecker/banchecker.go:94-104 | applies the source's answers in order up to the first unknown tenant, and fails exactly then |
| BanChecker.SnapshotEffect | banchecker/banchecker.go:86-104 | a snapshot leaves anything newer in place and otherwise exactly the source's answer |
| AdminService.Service.Transition | admin/admin.go:49-72 | an unknown tenant changes nothing; otherwise the store changes, exactly that event is handed to the bus, and it is enqueued exactly when the bus refuses it, behind entries that keep their objects and events |
| AdminService.Service.Ban | admin/admin.go:76-78 | bans the tenant in the store and reports whether the bus took the ban's event, which is enqueued exactly when it did not; or reports the tenant unknown and changes nothing |
| PropagationTheorems.Conservation | admin/admin.go:49-72 | at every point of every run each successful SetState has exactly one event with exactly one of seven fates, and the counts add up; with a queue no event is lost outside it, without one none is queued |
| PropagationHistory.FateByHistory | admin/admin.go:49-72 | in every run a transition asks the bus at most once, and exactly once if it has ended; its event is published directly if and only if the bus accepted it, and if and only if the bus refused it, it is still in hand, enqueued (with a queue) or lost (without) |
| PropagationHistory.RefusedIsKept | admin/admin.go:60-69 | the bus may refuse any event; then the transition enqueues exactly that event as the newest entry, due at once, or loses it for lack of a queue |
| PropagationHistory.WorkerMayBeRefused | admin/retry_queue.go:143-147 | in every reachable pass the worker's next publish call can be answered either way |
| PropagationHistory.StoreByHistory | store/memory.go:74-116 | in every run the store holds for each tenant what its creation or its last transition gave it |
| PropagationHistory.DeliveriesAccounted | eventbus/memory.go:30-50 | each accepted publish reaches each subscriber exactly once, each refused one just those it reached, and each snapshot read the checker that made it: waiting, or its apply has begun |
| PropagationHistory.SubscribedAsJoined | banchecker/banchecker.go:41-50 | a checker is subscribed if and only if it joined so |
| PropagationTheorems.NoLyingEvent | admin/admin.go:49-60 | every event handed to the bus, by a transition or the retry worker, names a state the store really held earlier in the run, not after its timestamp |
| PropagationTheorems.AgreementCondition | banchecker/banchecker.go:41-104 | provided that no store for this tenant at this checker overwrote something newer: at rest with nothing of the tenant dropped, the informed subscriber agrees with the store if and only if its snapshot is later than the last-stamped change or that change says what the store says |
| PropagationTheorems.EveryCheckerConverges | banchecker/banchecker.go:41-104 | with transitions of the tenant not overlapping up to their timestamp and its applies not overlapping at the checker, and whatever other tenants and checkers do, the informed subscriber at rest agrees with the store, for every order of deliveries, retries and snapshots |
| PropagationRest.RestIsReachable | admin/retry_queue.go:127-179 | from every reachable state, an accepting bus and threads that finish what they began lead to rest, and give up nothing that was not already bound to be |
| PropagationRest.ConvergenceIsReachable | banchecker/banchecker.go:41-104 | every run can be continued in that way to a state where every informed subscriber agrees with the store about every tenant that did not overlap there and of which nothing was dropped |
| PropagationRest.SnapshotConverges | banchecker/banchecker.go:86-104 | from every run, one snapshot and such a continuation make a subscriber agree with the store about any tenant, however long ago it changed, if nothing of it overlapped, was dropped or is bound to be |
| PropagationTheorems.SerialIsGuarded | banchecker/banchecker.go:59-70 | applies of a tenant that do not overlap at a checker imply that no store for it there overwrites something newer |
| PropagationTheorems.AllPublished | admin/retry_queue.go:60-78 | at rest with nothing dropped, every change of the tenant was accepted by the bus |
| PropagationInvariant.RunCore | admin/admin.go:49-72 | the protocol's invariant (honest tickets, one place per event, truthful publication record) holds after every run |
| PropagationInvariant.RunInforms | banchecker/banchecker.go:41-104 | every record a checker holds is truthful, and every published later change or snapshot read of the tenant is delivered, on its way or superseded, after every run in which no store for it there overwrites something newer |
| PropagationRaces.OverlappingTransitionsCanDisagree | admin/admin.go:49-60 | a complete run, at rest and with nothing dropped, in which overlapping transitions leave checker and store in disagreement |
| PropagationRaces.OverlappingAppliesCanDisagree | banchecker/banchecker.go:59-70 | a complete run, at rest, with nothing dropped, transitions not overlapping and the last change right, in which overlapping applies leave checker and store in disagreement |
| MemoryStore.MemoryStore.Get | store/memory.go:38-49 | not found, or a fresh object with the stored fields, the roles slice by reference |
| MemoryStore.MemoryStore.IsBanned | store/memory.go:60-70 | not found, or whether the stored state is banned |
| MemoryStore.MemoryStore.Create | store/memory.go:74-85 | adds a copy under the object's ID, or reports that it exists and changes nothing |
| MemoryStore.MemoryStore.Update | store/memory.go:89-100 | replaces by a copy, or reports not found and changes nothing |
| MemoryStore.MemoryStore.SetState | store/memory.go:105-116 | changes only that tenant's state, or reports not found |
| MemoryStore.Replay | store/memory.go:36-116 | through any sequence of operations interleaved with callers changing the objects they hold, elements of roles slices included, store and callers behave as plain rows over numbered slices, and stored IDs equal their keys |
| MemoryStore.StoredIdIsKey | store/memory.go:53-100 | in that world of values every stored ID equals its key |
| MemoryStore.IsolationCondition | store/memory.go:36-49 | after any operations, what callers do to their objects leaves the store's contents as they were if and only if it does not write a different role into a slice that a stored tenant shares |
| MemoryStore.RolesAreShared | store/memory.go:47-48 | whoever gets a tenant and writes an element of its roles has changed the stored tenant's roles, for every tenant, position and role |
| CachedStore.MonotonicReads | store/cached.go:35-61 | in every interleaving, a call for a tenant that begins after another has returned never gets an older version of the source |
| CachedStore.OneFetchAtATime | store/cached.go:44-55 | two calls never fetch one tenant at the same time |
| CachedStore.ResultsAreGenuine | store/cached.go:35-61 | whatever is returned or cached is what the source held in the version it was read from |
| CachedStore.FetchIsCurrent | store/cached.go:44-48 | from any state in which a call is about to fetch, it returns nothing older than the source's current version |
| CachedStore.FetchSeesTheChange | store/cached.go:44-48 | a call that fetches after the source has changed, and before it changes again, returns what the source then holds |
| CachedStore.FlightSharesResult | store/cached.go:44-60 | the end of a flight gives leader and joiners the same: what was stored, or the error; nobody else moves and the cache stays |
| CachedStore.FailedFetchLeavesCache | store/cached.go:45-48 | a failed fetch is an error for everyone in the flight and leaves the cache unchanged |
| CachedStore.HitsAreFresh | store/cached.go:36-52 | a hit at time t returns what a flight wrote at some w with w ≤ t < w + ttl, and that is no older than the source was when that flight began |
| CachedStore.RedundantFetch | store/cached.go:35-45 | a caller that missed has a usable entry when it joins if and only if a flight wrote one since its lookup, less than ttl ago; it fetches all the same if and only if moreover no flight is running |
| CachedStore.SecondFetchIsPossible | store/cached.go:40-55 | a run with two source reads although the first one's entry is fresh |
| RateLimitKeys.KeyInjective | ratelimit/redis/redis.go:142-143 | keys are equal if and only if tenant and window start are, even for IDs with colons |
| RateLimitKeys.KeyText | ratelimit/redis/redis.go:142-143 | a key is the prefix, the tenant and the decimal digits of the window start |
| RateLimiter.RedisServer.RunScript | ratelimit/redis/redis.go:120-130 | the script's statements compute increment, expiry and verdict as one function of the counters |
| RateLimiter.ScriptEffect | ratelimit/redis/redis.go:120-130 | a live counter goes up by one and keeps its expiry, any other starts at one with the window's milliseconds, other keys stay |
| RateLimiter.RedisRateLimiter.Allow | ratelimit/redis/redis.go:139-158 | the counters and the verdict follow from the plan, the failure policy and what happened to the command; a failed call is allowed if and only if the policy is FailOpen |
| RateLimiter.FailurePolicyDecides | ratelimit/redis/redis.go:148-155 | whatever came before it, a call that Redis did not answer is allowed if and only if its policy is FailOpen |
| RateLimiter.AllowedSplits | ratelimit/redis/redis.go:139-158 | in any interval, what is allowed is exactly what the script approved plus the calls that failed open |
| RateLimiter.CounterTracks | ratelimit/redis/redis.go:120-148 | for whole-millisecond windows the counter of a window holds exactly the executions in it and cannot expire inside it |
| RateLimiter.ExactQuota | ratelimit/redis/redis.go:120-158 | n healthy requests in a window get exactly min(n, max(limit, 0)) approvals, from any instances; never more with failures |
| RateLimiter.SlidingBound | ratelimit/redis/redis.go:59-75 | in any interval as long as k windows the script approves at most (k+1)·limit requests, and those and the calls that failed open are exactly what is allowed |
| RateLimiter.QuotaCondition | ratelimit/redis/redis.go:112-148 | for every plan, the per-window quota holds for every healthy sequence if and only if the window is positive and whole milliseconds, or the limit allows nothing |
| RateLimiter.NoWindowNoQuota | ratelimit/redis/redis.go:120-158 | with a window of zero or less, after any requests, a healthy one is approved if and only if the limit is at least one, because the counter is deleted each time |
| Subscriptions.StopIsFinal | eventbus/redis/redis.go:56-127 | in every interleaving, once Stop has run and every Subscribe has returned, no subscription is open |
| Subscriptions.StoppedForever | eventbus/nats/nats.go:76-134 | from a Stop on, no Subscribe is accepted and no closed subscription of any kind reopens |
| Subscriptions.RedisHandlesOnlyAccepted | eventbus/redis/redis.go:56-101 | in every interleaving, messages that arrived before registration included, a Redis handler runs only for a subscription that Subscribe accepted, because the reading goroutine starts after the registration |
| Subscriptions.RedisHandlesWhileRunning | eventbus/redis/redis.go:56-101 | in every reachable state, the handler of a confirmed Redis subscription can still receive an event, with no further Stop, if and only if the bus is not stopped |
| Subscriptions.MessagesAccounted | eventbus/redis/redis.go:82-95 | each message that reached a subscription is handled exactly once or still waiting |
| Subscriptions.NatsHandlesRefused | eventbus/nats/nats.go:76-106 | in every reachable state, also while a Stop holds the lock, a confirmed NATS subscription can still have its handler run and be refused, with no further Stop, if and only if the bus is stopped |
| Subscriptions.StoppedWhileSubscribing | eventbus/nats/nats.go:93-106 | and a run reaches such a stopped bus while Subscribe is on its way |
| Subscriptions.Registry.Register | eventbus/redis/redis.go:73-80 | registers an open subscription, or closes and refuses it exactly when the bus is stopped |
| Subscriptions.Registry.Stop | eventbus/redis/redis.go:116-127 | closes every registered subscription, empties the list and marks the bus stopped |
| Metrics.AverageIsNotLow | metrics/memory.go:43-72 | in every interleaving the reported average is at least the floor mean of the observations its count stands for |
| Metrics.QuietAverageIsExact | metrics/memory.go:58-72 | with no observation half done, the average is exactly that mean and lies between the extremes |
| Metrics.SnapshotMeaning | metrics/memory.go:58-72 | whatever runs before and between its two reads, a snapshot reports zero if nothing had ended at the first, and otherwise the floor of all observed up to the second over the number ended at the first |
| Metrics.CountersAddUp | metrics/memory.go:43-47 | the counters hold exactly the durations observed and the number of observations ended |
| Resolver.ResolveMeaning | resolver/subdomain.go:25-48 | a host resolves to id if and only if, before its first colon, it is id + "." + base domain with id non-empty and dot-free |
| Resolver.ResolveRoundTrip | resolver/subdomain.go:25-48 | every such id has a host that resolves to it, with any port or none |
| Resolver.ResolvedKeysDoNotCollide | cachekey/cachekey.go:10-12 | cache keys of resolved tenants are equal if and only if tenant and application key are |
| Resolver.SameKey | cachekey/cachekey.go:10-12 | for all IDs and application keys, two cache keys are equal if and only if the arguments are, or one ID with a colon starts the other and its key makes up for the rest |
| Resolver.TenantsShareAKey | cachekey/cachekey.go:10-12 | two tenants have a cache key in common if and only if they are one or one ID followed by a colon starts the other |
| Resolver.ColonsCollide | cachekey/cachekey.go:10-12 | every ID with a colon shares keys with what precedes the colon |
| Resolver.KeyText | cachekey/cachekey.go:10-12 | a cache key is the prefix, the tenant, a colon and the application key as it is |
| Resolver.KeyspacesApart | cachekey/cachekey.go:10-12 | no cache key is a key of the rate limiter |

## Left out

- rbac/rbac.go and ratelimit/ratelimit.go are not modelled: role lookup in nested maps, and the token bucket of another library behind a `LoadOrStore`.
- admin/http.go, admin/auth.go, middleware, tenantctx, tenanttest, cmd, loadtest, metrics/prometheus: plumbing around the modelled parts.
- The worker's `run` and `Stop` loop: passes may happen at any time or never, which covers it; `Disable` and `Activate` only call `Transition` as `Ban` does.
- JSON encoding, network reconnection, panics and logging; pending events lost when a process ends.
- MonotonicReads: the cache is a value that the steps replace, not a map updated in place; callers that modify the shared tenant a hit returns are not modelled. `IsBanned` of the cache delegates to the source and needs no model.
- StopIsFinal: the buses' protocol is a value state machine; only its two critical sections are objects (`Registry`).
- AverageIsNotLow: counters are values changed by atomic steps of one tenant, without int64 wrap-around.
- Replay: roles slices are whole arrays; callers that re-slice or append within spare capacity are not modelled.
- RunScript: window starts outside the years an int64 of nanoseconds can represent are not wrapped.
- EveryCheckerConverges: assumes that no event of the tenant was evicted, exhausted or refused without a queue before the bus accepted it; otherwise the code itself gives no guarantee.
