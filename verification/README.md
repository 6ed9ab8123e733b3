# Warpweft: a verified model of its concurrent core

Warpweft runs components behind chains of resilience links. This project models the parts of it whose
correctness depends on more than one function at a time, and proves what they promise:

- the **state store** that keeps live instances under an LRU limit, pins those in use and defers their stop
  (`StateStore`, `StoreInterleavings`, over the recency lists of `Recency`);
- **lazy creation** of scoped components, which takes one store lock per component along dependency edges
  (`LazyCreation`);
- the **cache link** with time to live, LRU and single flight (`CacheLink`, `SingleFlight`);
- the **circuit breaker link** with calls that outlive the state that admitted them (`CircuitBreaker`);
- the **dependency graph**: its checks, the parallel startup layers and the flat orders (`DependencyGraph`,
  `StartupOrder`), the **start and stop of the container** on top of it (`Lifecycle`), and **readiness** over the
  same graph (`Readiness`);
- the **retry link around the timeout link** under one deadline (`RetryTimeout`), and the two-level **concurrency
  link** (`Concurrency`), both over the same deadline (`Context`);
- **background tasks**: the record store, the runner and the retention told to clients (`TaskStore`, `TaskLife`);
- **layered configuration**, as a function on trees and as the in-place merge of dictionaries (`ConfigMerge`,
  `ConfigDict`);
- the **union of result schemas** with renamed definitions (`SchemaRefs`), with references resolved as section
  8.2.3.1 of JSON Schema Core draft 2020-12 says.

How it is done. A method body between two suspension points is one atomic segment. The segments are functions on
plain values; a class with the source's fields runs them in place and its methods are proved equal to them. `Step`
relates two states by one segment of any task, so a sequence of steps is any interleaving; a theorem about `Run`
holds in every state of every such sequence. What such a theorem says is stated apart from the segment functions
(histories, logs, graph walks, sets of holders), so a segment that took a wrong branch would break it. Time is real.

## Where the code and its promises part

- **Exactly one half-open probe** (circuit_breaker.py, lines 11-12) does not hold: a call admitted before the
  half-open episode that ends permanently during it frees the probe's slot. `CircuitBreaker.HalfOpenBound` gives the
  bound that does hold, `CircuitBreaker.SecondProbeIff` says exactly when a call's end lets a second probe in, and
  `CircuitBreaker.TwoProbesAtOnce` gives a run with two.
- **A failed start leaves nothing running** (container.py, lines 258-283) does not hold in two cases. Building the
  call chains stands outside the rollback (lines 277-281) and fails when a method's policy overrides a setting with a
  value that the link's settings reject (wiring.py, line 38). And the rollback itself (lines 271-272) is cut short when
  a stop raises, or when the caller that starts the container is cancelled. `Lifecycle.LeftRunningIff` says exactly
  when components are left running; `Lifecycle.WiringFailureLeavesRunning` and `Lifecycle.CancelledStartLeavesRunning`
  reach such states. Nothing stops those components afterwards: `stop` does nothing in a container that did not start.
- **Close stops everything** (state.py, line 44) does not hold when one of the stops raises or is cancelled.
  `StoreInterleavings.ClosedMeansStoppedOrLost` says exactly which instances are lost, and
  `StoreInterleavings.CutCloseLoses` that a close can lose every live one.
- **Merging in two stages** (first the deployment sources, then the container's layers) is not always one merge.
  `ConfigMerge.StagesIff` gives the exact condition on the layers, those below and those above: a path that a scalar
  cut off in one source and that a later source opened again with a mapping shows a default through, unless a layer
  above touches it. `ConfigMerge.StagesDiffer` gives an input, and `ConfigMerge.StagesAgree` the common case where
  the two agree.
- **Prefixed definitions never collide** (server.py, lines 314-330) does not hold when a dotted tool name, which a tool
  may be given, meets a definition key with a dot, which has to be written by hand since generated keys have none.
  `SchemaRefs.CollisionIff` says exactly when two definitions collide, `SchemaRefs.NoneLostIff` exactly when one is
  lost, `SchemaRefs.DotlessIsHarmless` that no dots in the names, or none in the keys, are enough, and
  `SchemaRefs.CollisionLosesMeaning` that a collision can change what a schema means.
- **Rewriting only references** (server.py, lines 302-311) does not hold for data: a `$ref` string in a default or a
  constant is rewritten too (`SchemaRefs.DataIsRewritten`). `SchemaRefs.UnionKeepsMeaningIff` gives the exact
  condition under which an operation's schema keeps its meaning in the union.

## Model

| member | source | states |
|---|---|---|
| StateStore.InMemoryStateStore.Find | src/warpweft/core/pipeline/state.py:93-100 | a closed store is an error; a hit returns the key's instance and makes the key the most recent; anything else changes nothing |
| StateStore.InMemoryStateStore.Publish | src/warpweft/core/pipeline/state.py:108-113 | the new instance is stored and returned live, the oldest key goes if there are too many, and only an unpinned instance is to be stopped now |
| StateStore.InMemoryStateStore.Acquire | src/warpweft/core/pipeline/state.py:115-122 | one more pin, nothing else |
| StateStore.InMemoryStateStore.Release | src/warpweft/core/pipeline/state.py:124-134 | one pin less; the last pin of an evicted instance calls for its stop |
| StateStore.InMemoryStateStore.Evict | src/warpweft/core/pipeline/state.py:136-140 | the key goes; its instance is to be stopped now or waits for its last pin |
| StateStore.InMemoryStateStore.TakeAll | src/warpweft/core/pipeline/state.py:142-152 | closing empties the tables and queues each live and each waiting instance once |
| StateStore.PublishedOrder | src/warpweft/core/pipeline/state.py:108-113 | publishing is a use of the key in the recency list cut to the store's size |
| StoreInterleavings.StepKeepsInv | src/warpweft/core/pipeline/state.py:93-159 | every segment of every request, pin, eviction and close keeps the ownership invariant |
| StoreInterleavings.OneConditionEach | src/warpweft/core/pipeline/state.py:93-159 | in every run each started instance is in exactly one condition (live, waiting with a positive pin count, queued by close, stopped once, lost by a close cut short), and the store is within its limit |
| StoreInterleavings.StopOnlyUnheld | src/warpweft/core/pipeline/state.py:154-159 | whatever but close stops an instance, no call holds it then |
| StoreInterleavings.InvocationNeverOnStopped | src/warpweft/core/composition/container.py:389-400 | the instance an invocation runs on is not stopped before the store is closed |
| StoreInterleavings.InvocationPinIsSafe | src/warpweft/core/composition/container.py:374-392 | the pin taken with nothing after the request always falls on a live instance |
| StoreInterleavings.KeepsTheMostRecentKeys | src/warpweft/core/pipeline/state.py:93-113 | without explicit eviction a key is stored exactly when fewer than the limit of other keys were requested since its own last request, and the keys stand in that order |
| StoreInterleavings.KeyKeepsInstance | src/warpweft/core/pipeline/state.py:97-108 | a key that stays stored keeps its instance, and only a missing key gets a new one |
| StoreInterleavings.KeyKeepsInstanceInRun | src/warpweft/core/pipeline/state.py:93-113 | over a run every request for a key that stays stored, pinning or not, is given the same instance |
| StoreInterleavings.MadeIsReturnedLive | src/warpweft/core/pipeline/state.py:105-113 | the instance just made is stored under its key and not stopped by its own trimming |
| StoreInterleavings.ClosedMeansStoppedOrLost | src/warpweft/core/pipeline/state.py:142-152 | after a close every instance ever started was stopped exactly once or is lost, and lost exactly if it was still queued when a close was cut short |
| StoreInterleavings.CutCloseLoses | src/warpweft/core/pipeline/state.py:151-152 | a close cut before its first stop loses any live instance |
| StoreInterleavings.OneLive | src/warpweft/core/pipeline/state.py:104-108 | such a store is reached |
| StoreInterleavings.CloseStopsEverything | src/warpweft/core/pipeline/state.py:142-152 | a close that ran to its end has stopped every instance ever started, each exactly once |
| StoreInterleavings.UnusableAfterClose | src/warpweft/core/pipeline/state.py:93-96 | a closed store stays closed and empty, and gives and makes nothing |
| Recency.TouchCut | src/warpweft/core/pipeline/state.py:97-112 | a list cut to its size needs no memory of the keys it dropped |
| Recency.KeptIff | src/warpweft/core/pipeline/state.py:97-112 | what least recently used means: kept exactly if used within the last so many distinct keys |
| LazyCreation.HeldLocksReachAwaited | src/warpweft/core/composition/container.py:402-449 | a task waiting for a component's lock holds only locks of components that reach it along dependencies, never that one |
| LazyCreation.NoDeadlock | src/warpweft/core/pipeline/state.py:93-106 | in every reachable state with an unfinished request some task can get on |
| LazyCreation.Runnable | src/warpweft/core/composition/container.py:439-449 | following the owners of awaited locks goes down in the graph and ends at a task that can move |
| LazyCreation.ProgressIsBounded | src/warpweft/core/composition/container.py:402-449 | each move takes its task nearer to its end and no other task away from it |
| LazyCreation.RequestIsBounded | src/warpweft/core/composition/container.py:402-449 | over a run, the moves a task makes from its request on number at most the work of that request, whatever the other tasks do |
| LazyCreation.ResolvedInOrder | src/warpweft/core/composition/container.py:439-449 | over a run, a factory resolves the dependencies of its component one after the other, in the order listed, leaving none out |
| LazyCreation.BuiltWithAllDependencies | src/warpweft/core/composition/container.py:407-415 | an instance is built only once all its dependencies are resolved |
| CacheLink.CacheInterceptor.Get | src/warpweft/core/pipeline/builtin/cache.py:91-99 | an entry is returned exactly while it has not expired; an expired one is dropped, a returned one becomes the most recent |
| CacheLink.CacheInterceptor.Put | src/warpweft/core/pipeline/builtin/cache.py:101-105 | the entry is stored as the most recent, the oldest ones go |
| CacheLink.CacheInterceptor.Turn | src/warpweft/core/pipeline/builtin/cache.py:107-129 | one turn of the loop: a hit, a wait for the flight in progress, or leading a new one |
| CacheLink.CacheInterceptor.Land | src/warpweft/core/pipeline/builtin/cache.py:131-149 | the end of a leader: what is cached, and the flight is over on every path |
| CacheLink.PoppedMeaning | src/warpweft/core/pipeline/builtin/cache.py:104-105 | trimming leaves the last keys in order with their entries |
| CacheLink.StoredMeaning | src/warpweft/core/pipeline/builtin/cache.py:101-105 | storing leaves exactly the most recent keys, the new entry among them, the others unchanged |
| SingleFlight.StepKeepsInv | src/warpweft/core/pipeline/builtin/cache.py:107-149 | every segment of every call keeps the invariant that ties entries and flights to the history of base calls |
| SingleFlight.OneLeaderPerKey | src/warpweft/core/pipeline/builtin/cache.py:117-149 | one leader per key at a time, and base calls for one key are disjoint |
| SingleFlight.CoalescedWithinCall | src/warpweft/core/pipeline/builtin/cache.py:121-126 | a coalesced caller gets the value or error of a base call for its key that ended inside its own call |
| SingleFlight.RetriesBounded | src/warpweft/core/pipeline/builtin/cache.py:109-127 | a caller goes round at most once for each leader that ended without a result meanwhile |
| SingleFlight.HitAgrees | src/warpweft/core/pipeline/builtin/cache.py:91-115 | a hit returns what the latest ended base call for the key produced, less than the time to live after it ended |
| SingleFlight.TurnMeans | src/warpweft/core/pipeline/builtin/cache.py:107-149 | a turn waits for the latest base call for its key while that runs; it hits exactly when that call returned, or raised and errors are cached, less than the time to live ago and was not pushed out, and then with that very value or error; otherwise it leads |
| SingleFlight.FirstTurnLeads | src/warpweft/core/pipeline/builtin/cache.py:117-119 | without a base call for the key a turn leads one |
| SingleFlight.EnterMeans | src/warpweft/core/pipeline/builtin/cache.py:107-132 | a new caller gets the hit at once, waits for the flight, or starts a base call |
| SingleFlight.LeaderGetsItsOwn | src/warpweft/core/pipeline/builtin/cache.py:131-149 | a leader gets what its own base call produced, and that end is logged with its time |
| SingleFlight.BaseCallsApart | src/warpweft/core/pipeline/builtin/cache.py:91-149 | after a base call that returned, or raised with errors cached, the next one for its key starts at least the time to live later, unless capacity pushed the result out |
| SingleFlight.PushedOutMeans | src/warpweft/core/pipeline/builtin/cache.py:101-105 | capacity pushes out only from a full store, and the key used least recently |
| SingleFlight.StoreSound | src/warpweft/core/pipeline/builtin/cache.py:91-149 | in every run stored and in-flight keys are disjoint, the size is within the limit and the order is that of last use |
| Sequences.LastNAt | src/warpweft/core/pipeline/builtin/circuit_breaker.py:91-91 | the bounded window holds the latest outcomes, counted from the end |
| CircuitBreaker.CircuitBreakerInterceptor.Admit | src/warpweft/core/pipeline/builtin/circuit_breaker.py:133-154 | admission as a function of the state, with the time left when open |
| CircuitBreaker.CircuitBreakerInterceptor.OnSuccess | src/warpweft/core/pipeline/builtin/circuit_breaker.py:156-161 | a success closes a half-open breaker and is recorded in a closed one |
| CircuitBreaker.CircuitBreakerInterceptor.OnError | src/warpweft/core/pipeline/builtin/circuit_breaker.py:163-177 | a permanent error only frees the probe's slot; a transient one opens a half-open breaker and counts in a closed one |
| CircuitBreaker.CircuitBreakerInterceptor.ForceOpen | src/warpweft/core/pipeline/builtin/circuit_breaker.py:110-118 | open now, window and slot cleared |
| CircuitBreaker.CircuitBreakerInterceptor.Reset | src/warpweft/core/pipeline/builtin/circuit_breaker.py:120-131 | closed, window and slot cleared |
| CircuitBreaker.StepKeepsInv | src/warpweft/core/pipeline/builtin/circuit_breaker.py:100-194 | every arrival, end and manual change keeps the invariant |
| CircuitBreaker.HalfOpenBound | src/warpweft/core/pipeline/builtin/circuit_breaker.py:133-154 | flag <= probes <= flag + earlier calls that ended permanently meanwhile; without such calls everyone else is turned away |
| CircuitBreaker.SecondProbeIff | src/warpweft/core/pipeline/builtin/circuit_breaker.py:163-171 | after an end that leaves the breaker half-open, the next arrival runs beside another probe exactly when the ended call was not the only probe |
| CircuitBreaker.TwoProbesAtOnce | src/warpweft/core/pipeline/builtin/circuit_breaker.py:163-171 | a run with two probes at once |
| CircuitBreaker.TripRule | src/warpweft/core/pipeline/builtin/circuit_breaker.py:156-186 | the window is the recent part of what was recorded since the last clear and below the threshold; a closed breaker opens exactly on the transient failure that reaches it |
| CircuitBreaker.EndMeans | src/warpweft/core/pipeline/builtin/circuit_breaker.py:156-194 | in half-open a success closes, a transient failure opens now, anything else frees the slot; while closed an end is recorded or opens now; while open it changes nothing |
| CircuitBreaker.RecoversAfterSuccess | src/warpweft/core/pipeline/builtin/circuit_breaker.py:156-161 | after a successful probe every arrival is admitted until the breaker opens again |
| CircuitBreaker.ArriveMeans | src/warpweft/core/pipeline/builtin/circuit_breaker.py:133-154 | who is admitted in each state, and what an admission leaves |
| CircuitBreaker.ByHandMeans | src/warpweft/core/pipeline/builtin/circuit_breaker.py:110-131 | opening and resetting by hand, field by field |
| CircuitBreaker.OpenedBy | src/warpweft/core/pipeline/builtin/circuit_breaker.py:179-186 | an open breaker was opened by a step of the run at the very time it says, and has been open since |
| CircuitBreaker.FailuresCount | src/warpweft/core/pipeline/builtin/circuit_breaker.py:176-176 | the failures of a window are the places that hold one |
| CircuitBreaker.OpenMeans | src/warpweft/core/pipeline/builtin/circuit_breaker.py:133-147 | an open breaker admits exactly from the reset timeout on, and tells exactly the time left until then |
| CircuitBreaker.QuietAfterOpening | src/warpweft/core/pipeline/builtin/circuit_breaker.py:133-186 | over a run, at least the reset timeout passes between the step that opens the breaker and the next admission |
| DependencyGraph.Check | src/warpweft/core/composition/graph.py:35-78 | a graph is accepted exactly when nothing is missing, no scoped component leaks and there is no cycle; a refusal names a true fault |
| DependencyGraph.FindMissing | src/warpweft/core/composition/graph.py:41-45 | reports a dependency that is not configured, exactly when there is one |
| DependencyGraph.FindLeak | src/warpweft/core/composition/graph.py:47-56 | reports a process component that depends on a scoped one, exactly when there is one |
| DependencyGraph.CycleSearch.Visit | src/warpweft/core/composition/graph.py:64-74 | returns a simple closed walk, or finishes all it reaches and restores the stack; terminates on the number of white components |
| DependencyGraph.CheckCycles | src/warpweft/core/composition/graph.py:58-78 | a cycle is reported exactly when the dependency relation has one, and what is reported is a simple cycle |
| DependencyGraph.OrderedIsAcyclic | src/warpweft/core/composition/graph.py:58-78 | an order with dependencies first rules out every closed walk |
| StartupOrder.Dependents | src/warpweft/core/composition/graph.py:86-89 | each component stands under each of its dependencies as often as it lists it |
| StartupOrder.FinishLayer | src/warpweft/core/composition/graph.py:95-100 | the counts after a layer, and the components that become ready, all and only those |
| StartupOrder.StartupLayers | src/warpweft/core/composition/graph.py:80-102 | every component is in exactly one layer and the layer's index is the length of its longest dependency walk; layers are sorted; the loop ends |
| StartupOrder.LayersAreLongestWalks | src/warpweft/core/composition/graph.py:80-102 | layers with earlier dependencies, one of them just before, are exactly the longest-walk lengths |
| StartupOrder.StartupOrder | src/warpweft/core/composition/graph.py:104-106 | every component once, dependencies first: by depth in the graph, then by name |
| StartupOrder.ShutdownOrder | src/warpweft/core/composition/graph.py:108-110 | every component once, in the opposite order, so before everything it depends on, directly or not |
| Readiness.Resolver.Resolve | src/warpweft/core/composition/health.py:42-50 | the memoised recursion ends and returns the component's effective status, whatever the memo holds already |
| Readiness.AggregateReadiness | src/warpweft/core/composition/health.py:28-54 | each component is reported with its own status, unless that is ok and a required dependency is reported not ok: then it is unhealthy and the first such dependency is blamed; ready exactly when every required component reports itself ok; no order of visits matters |
| Readiness.ReportIsRight | src/warpweft/core/composition/health.py:42-50 | the same of the effective statuses themselves |
| Readiness.EffectiveOkIff | src/warpweft/core/composition/health.py:42-50 | effectively ok exactly when it and all it reaches through required dependencies report themselves ok |
| Readiness.RequiredAllOkIff | src/warpweft/core/composition/health.py:52-54 | the verdict on effective statuses equals the verdict on own ones |
| Readiness.BlamesTheFirst | src/warpweft/core/composition/health.py:46-48 | the detail names the first listed required dependency that is not effectively ok |
| Lifecycle.Prepare | src/warpweft/core/composition/graph.py:80-110 | what the graph code computes from an accepted graph is what the lifecycle assumes |
| Lifecycle.ProcessTable.StartProcess | src/warpweft/core/composition/container.py:304-315 | a started component is entered, a failed optional one degraded, a failed required one fatal |
| Lifecycle.ProcessTable.StopProcessInstances | src/warpweft/core/composition/container.py:332-340 | exactly the running components are stopped, once each, in shutdown order, and none is left |
| Lifecycle.StopOrderMeans | src/warpweft/core/composition/container.py:332-340 | that order puts every running component before the running ones it reaches |
| Lifecycle.StepKeepsInv | src/warpweft/core/composition/container.py:258-340 | every event of any parallel start, failure, rollback or stop keeps the invariant |
| Lifecycle.RunsOnItsDependencies | src/warpweft/core/composition/container.py:265-315 | whenever a process component runs, each dependency runs or is degraded |
| Lifecycle.LaunchedAfterDependencies | src/warpweft/core/composition/container.py:266-270 | a start is launched only when all dependencies run or are degraded |
| Lifecycle.UpMeans | src/warpweft/core/composition/container.py:265-282 | a container comes up with every required component running and every other one running or degraded |
| Lifecycle.DegradedMeans | src/warpweft/core/composition/container.py:307-313 | the degraded components are exactly the optional ones whose start failed |
| Lifecycle.FailedStartGoesDown | src/warpweft/core/composition/container.py:271-275 | a start that failed or was cancelled goes down and never comes up |
| Lifecycle.StoppedAfterDependents | src/warpweft/core/composition/container.py:332-338 | a component's stop is called only when nothing running reaches it |
| Lifecycle.EveryStartAccountedFor | src/warpweft/core/composition/container.py:314-338 | each completed start was stopped, cut short in its stop, overwritten by a later start, or still runs |
| Lifecycle.LeftRunningIff | src/warpweft/core/composition/container.py:271-282 | a container goes down with components left running exactly when a running one cannot be wired, or when its rollback is cut with another one still running |
| Lifecycle.DownMeansClean | src/warpweft/core/composition/container.py:265-340 | otherwise nothing runs in a container that is down, and every completed start has had exactly one stop |
| Lifecycle.WiringFailureLeavesRunning | src/warpweft/core/composition/container.py:277-282 | a reachable state of the first kind |
| Lifecycle.CancelledStartLeavesRest | src/warpweft/core/composition/container.py:271-275 | a cancelled start whose rollback is cut at its first stop leaves all the others running |
| Lifecycle.CancelledStartLeavesRunning | src/warpweft/core/composition/container.py:271-275 | a reachable state of the second kind |
| Context.RemainingMeans | src/warpweft/core/context.py:114-129 | what remains leads to the deadline and not past it, and is nothing exactly when the deadline is gone |
| RetryTimeout.TimeoutKeepsLimits | src/warpweft/core/pipeline/builtin/timeout.py:37-48 | an attempt respects its limit and the deadline, is made unless the deadline is gone, and otherwise has the wrapped call's own end and result |
| RetryTimeout.InTimeIsUntouched | src/warpweft/core/pipeline/builtin/timeout.py:41-45 | a call that would end in time is left as it is |
| RetryTimeout.Call | src/warpweft/core/pipeline/builtin/retry.py:80-124 | every run is a chain of attempts as specified, for any wrapped calls and any random source |
| RetryTimeout.Judge | src/warpweft/core/pipeline/builtin/retry.py:91-114 | after an attempt: success, propagation, exhaustion, abandonment, or a sleep that fits |
| RetryTimeout.DelayBefore | src/warpweft/core/pipeline/builtin/retry.py:72-78 | the delay is the capped backoff, or any part of it with jitter |
| RetryTimeout.BackoffDoubles | src/warpweft/core/pipeline/builtin/retry.py:72-75 | the backoff starts at the base delay and doubles up to the cap |
| RetryTimeout.DrawnMeans | src/warpweft/core/pipeline/builtin/retry.py:72-78 | each pause is what the random source yields up to the backoff, or the backoff itself without jitter |
| RetryTimeout.AttemptsMean | src/warpweft/core/pipeline/builtin/retry.py:84-115 | a run goes on from an attempt only after a failure of the kind that is retried, after the backoff, and starts every attempt before the deadline |
| RetryTimeout.EndingMeans | src/warpweft/core/pipeline/builtin/retry.py:94-122 | how a run ends, by its last attempt: passed on, exhausted, or given up exactly when the pause would reach the deadline |
| RetryTimeout.ReportsAreTrue | src/warpweft/core/pipeline/builtin/retry.py:101-122 | reported attempts are the calls made, and elapsed is call time plus sleeps |
| RetryTimeout.DeadlineRespected | src/warpweft/core/context.py:114-129 | with a deadline every run ends no later than it, or at once if it had passed |
| RetryTimeout.LateOnlyAtFirst | src/warpweft/core/pipeline/builtin/retry.py:84-86 | only the first attempt can find the deadline gone, exactly when it had passed at the start |
| RetryTimeout.RunBounded | src/warpweft/core/pipeline/builtin/retry.py:80-124 | every run ends within attempts times the limit plus the backoffs between them |
| RetryTimeout.BackoffClosedForm | src/warpweft/core/pipeline/builtin/retry.py:72-75 | the backoffs sum to at most the doubling series and at most the cap each time |
| RetryTimeout.DoublingIsClosed | src/warpweft/core/pipeline/builtin/retry.py:75-75 | the doubling series is the base delay times a power of two less one |
| RetryTimeout.RunBoundedByDoubling | src/warpweft/core/pipeline/builtin/retry.py:80-124 | every run ends within attempts times the limit plus the doubling series |
| RetryTimeout.RunBoundedByCap | src/warpweft/core/pipeline/builtin/retry.py:80-124 | every run ends within attempts times the limit plus the cap for each pause |
| Concurrency.ConcurrencyInterceptor.InnerFor | src/warpweft/core/pipeline/builtin/concurrency.py:72-77 | a slice's semaphore is made on first use with all its slots, and kept |
| Concurrency.ConcurrencyInterceptor.WaitLimit | src/warpweft/core/pipeline/builtin/concurrency.py:79-89 | a wait is refused exactly when the deadline is gone, and else ends with it |
| Concurrency.ConcurrencyInterceptor.TakeInner | src/warpweft/core/pipeline/builtin/concurrency.py:79-89 | a slot is taken exactly when one is free |
| Concurrency.ConcurrencyInterceptor.TakeOuter | src/warpweft/core/pipeline/builtin/concurrency.py:79-89 | a slot is taken exactly when one is free |
| Concurrency.ConcurrencyInterceptor.ReleaseBoth | src/warpweft/core/pipeline/builtin/concurrency.py:91-101 | the end of a guarded call gives both slots back |
| Concurrency.StepKeepsInv | src/warpweft/core/pipeline/builtin/concurrency.py:79-101 | free slots plus holders make up each limit after every move, on every exit path |
| Concurrency.LimitsHold | src/warpweft/core/pipeline/builtin/concurrency.py:91-101 | running calls never exceed the outer limit, and one slice never runs or queues for more than its inner limit |
| Concurrency.AllFreeWhenIdle | src/warpweft/core/pipeline/builtin/concurrency.py:91-101 | once every call is over every slot is free |
| Concurrency.NoDeadlock | src/warpweft/core/pipeline/builtin/concurrency.py:91-101 | while a call is unfinished some call can take a slot, be refused or end |
| Concurrency.DeadlineMeans | src/warpweft/core/pipeline/builtin/concurrency.py:79-89 | the deadline turns a call away only once it has come, and no call starts running after it |
| Concurrency.MovesBounded | src/warpweft/core/pipeline/builtin/concurrency.py:91-101 | every such move takes its call nearer to its end and leaves the others |
| TaskStore.InMemoryTaskStore.Create | src/warpweft/mcp/tasks.py:119-121 | the record is stored, nothing else changes |
| TaskStore.InMemoryTaskStore.Get | src/warpweft/mcp/tasks.py:123-131 | an unexpired record is returned; an expired one is dropped |
| TaskStore.InMemoryTaskStore.Update | src/warpweft/mcp/tasks.py:133-157 | an unexpired record gets the status, the time of the update, and the message and result if given; an unknown one does not appear, an expired one is dropped |
| TaskStore.TaskRunner.Start | src/warpweft/mcp/tasks.py:204-226 | the working record and the cancel scope are there before the id is handed out |
| TaskStore.TaskRunner.Cancel | src/warpweft/mcp/tasks.py:228-236 | only a scope that still exists is asked to cancel |
| TaskStore.TaskRunner.Finish | src/warpweft/mcp/tasks.py:238-262 | the final write for each kind of ending, and the scope is gone |
| TaskStore.TaskRunner.Leave | src/warpweft/mcp/tasks.py:238-262 | a job cut down by the nursery writes nothing, and its scope is gone |
| TaskStore.AdvertisedIsTight | src/warpweft/mcp/tasks_extension.py:130-140 | the advertised end never lies past the real expiry and falls short of it by less than a millisecond |
| TaskLife.StepKeepsInv | src/warpweft/mcp/tasks.py:123-163 | every segment of any task, poll, cancellation and shutdown keeps the invariant |
| TaskLife.HistoryShape | src/warpweft/mcp/tasks.py:238-262 | working writes, then at most one final write that says how the job ended; cancelled only if asked |
| TaskLife.ProgressIsStamped | src/warpweft/mcp/tasks.py:150-157 | a progress write stamps the time of its step and keeps the rest but for a new message; nothing else changes the record of a running task |
| TaskLife.FinishIsStamped | src/warpweft/mcp/tasks.py:238-262 | the final write stamps the time of its step |
| TaskLife.PollBeforeSettling | src/warpweft/mcp/tasks.py:204-226 | from the steps of the run alone: a poll of an unsettled task answers working, created at its start, with the time of its last write and its last message |
| TaskLife.PollMeans | src/warpweft/mcp/tasks.py:123-131 | a poll answers the last record written, exactly until it expires |
| TaskLife.WorkingNeverExpires | src/warpweft/mcp/tasks.py:159-163 | an unsettled task is always found, and told as unlimited |
| TaskLife.ResultNeverLost | src/warpweft/mcp/tasks.py:242-251 | a result once produced survives any late cancellation or shutdown and is what clients are shown until it expires |
| TaskLife.SettledUntilTtl | src/warpweft/mcp/tasks.py:159-163 | from the steps of the run alone: a settled task is found exactly until its retention has passed since the step that settled it, with the record its start, its progress and its end call for |
| TaskLife.GoneForGood | src/warpweft/mcp/tasks.py:123-131 | what is not found once is never found again |
| TaskLife.ShownAfterSettling | src/warpweft/mcp/tasks_extension.py:143-152 | a client is shown completed with the result, cancelled, or failed, as the job ended |
| TaskLife.AdvertisedIsHonest | src/warpweft/mcp/tasks_extension.py:116-140 | a record seen with an advertised retention is found at least that long and gone a millisecond later |
| ConfigMerge.SameLooks | src/warpweft/core/composition/config.py:56-61 | trees that look the same along every path are the same |
| ConfigMerge.MergeShows | src/warpweft/core/composition/config.py:65-76 | path by path: what the upper layer touches is as in it, the rest as below |
| ConfigMerge.LeafIff | src/warpweft/core/composition/config.py:56-80 | a leaf of the merged tree is exactly the scalar of the last layer that touches its path |
| ConfigMerge.StagesIff | src/warpweft/core/composition/container.py:533-541 | merging the deployment sources first is merging all layers at once exactly when every path that is there below and that the sources cut off and opened again is touched above |
| ConfigMerge.ReopenedIff | src/warpweft/runtime/app.py:124-138 | the sources merged alone do not show that they touched a path exactly when they cut it off and opened it again |
| ConfigMerge.StagesAgree | src/warpweft/core/composition/container.py:528-541 | without a scalar against a mapping among the layers merged first, two stages are one |
| ConfigMerge.StagesDiffer | src/warpweft/runtime/app.py:133-137 | an input where the two differ |
| ConfigDict.MergeInto | src/warpweft/core/composition/config.py:65-76 | the destination in place becomes the merge, the source dictionary is untouched, exactly the source's scalars get its provenance |
| ConfigDict.DeepMerge | src/warpweft/core/composition/config.py:56-80 | the merge of all layers in new dictionaries only, and each provenance entry names the last layer with a scalar at its path |
| ConfigDict.LeafAndSource | src/warpweft/core/composition/config.py:56-80 | each leaf's provenance names the layer that its value comes from |
| SchemaRefs.TaskResultOutputSchema | src/warpweft/mcp/server.py:333-362 | the schema accepts exactly the objects with a result that the only alternative, or exactly one of several, accepts; it has definitions exactly when some operation has any |
| SchemaRefs.AllDefsAre | src/warpweft/mcp/server.py:346-353 | the definitions of the union are those of its operations under their prefixed keys, and no others |
| SchemaRefs.AlternativeKeys | src/warpweft/mcp/server.py:322-330 | an alternative has the keywords of its operation's schema but for the definitions |
| SchemaRefs.BodyAndDefs | src/warpweft/mcp/server.py:322-323 | a schema is taken apart into its definitions and the rest, and nothing is lost |
| SchemaRefs.RewriteMeans | src/warpweft/mcp/server.py:302-311 | only a `$ref` string that is to be renamed is, in every object |
| SchemaRefs.OnlyRefsAreFollowed | src/warpweft/mcp/server.py:302-311 | a string is a reference exactly where it is a `$ref` in a schema |
| SchemaRefs.KeptIff | src/warpweft/mcp/server.py:302-311 | rewriting the references of a closed schema keeps its meaning, to any depth and against any root that hosts its definitions, exactly when no data spells a pointer to them and the name is plain where one is followed |
| SchemaRefs.UnionKeepsMeaningIff | src/warpweft/mcp/server.py:314-362 | an alternative of the union means what the operation's own schema means exactly under that condition, when no definition is lost |
| SchemaRefs.UnionKeepsMeaning | src/warpweft/mcp/server.py:314-362 | it does so at every depth for distinct plain names, dots missing from the names or from the keys, and no data that looks like a reference |
| SchemaRefs.DataIsRewritten | src/warpweft/mcp/server.py:304-308 | a default that spells a pointer to a definition is changed, whatever the names |
| SchemaRefs.NoneLostIff | src/warpweft/mcp/server.py:349-353 | no definition is lost exactly when definitions that collide are the same |
| SchemaRefs.CollisionIff | src/warpweft/mcp/server.py:326-330 | two definitions collide exactly when one name continues the other after a dot and the keys make up the difference |
| SchemaRefs.DotlessIsHarmless | src/warpweft/mcp/server.py:135-137 | distinct names never collide if the names have no dots or the keys have none |
| SchemaRefs.CollisionLosesMeaning | src/warpweft/mcp/server.py:314-330 | for names and keys that collide there are closed schemas whose meaning changes |
| SchemaRefs.DottedNamesCollide | src/warpweft/mcp/server.py:135-137 | names and keys with dots that do collide |

## Left out

Taken as given:

- Locks, semaphores, events, task groups and cancel scopes: specified primitives; their internals and the fairness of waiting are not modelled.
- One exact clock: `move_on_after` and the injected clock are taken to be the same, and sleeps and cuts to be exact; floating-point rounding is not modelled.
- Keys, names, ids, messages, values and payloads are numbers; only their identity matters here, and names are compared where the source sorts them.
- A factory makes a new instance on each call, and starting or stopping an instance does not come back into the container.
- A stop that raises and a stop that is cancelled are one event, in a store's close as in the container: it ends the loop it is in.
- One caller at a time starts and stops the container.
- The breaker's lock is acquired even by a cancelled call on its way out.
- Task ids are fresh, store writes do not raise, and progress is reported only while the job runs.

Weaker than it might be:

- ConfigDict.DeepMerge: keys are visited in any order, not in dictionary order, and paths are key sequences, so two paths that print alike with dots are kept apart.
- ConfigDict.LeafAndSource: says nothing of provenance entries at paths that are no longer leaves; the source keeps stale ones, as `ConfigDict.DeepMerge` states.
- SingleFlight.RetriesBounded: counts turns, not time; a waiter is not bounded by its deadline in the source.
- StoreInterleavings.InvocationNeverOnStopped: covers the invoked instance only; the scoped dependencies it uses are not pinned in the source.
- Lifecycle.DownMeansClean: covers process components; calls admitted while draining and the scoped stores' own close are not part of it, but for the cancellation that cuts it.
- Concurrency.NoDeadlock: a running base call is taken to be able to end.

Not modelled:

- MCP wire handling, HTTP, the command line, discovery, environment and file reading, OpenTelemetry, logging, schema generation and validation, reflection and proxies: input and output, or libraries whose code is not in the repository.
- The shared link store beyond one instance per key and scope: links of different components share instances by design of their ids.
- Tool filtering, error-code mapping, policy override layering, chain folding, endpoint strings, axis validation.
- The `discriminator` mapping in a schema, an OpenAPI keyword that lists pointers: JSON Schema gives it no meaning, and the source leaves those pointers as they are.
