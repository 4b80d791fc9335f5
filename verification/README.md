# A verified model of routini's adaptive load balancer

routini is a reverse proxy whose load balancer switches its selection strategy at run time. This
project models the balancer as a stateful system, and the route path cache beside it, and proves what
holds of them over all runs and interleavings.

| module | models |
|---|---|
| `Core`, `Strategies` | backends, their identity and order; the strategies |
| `HealthCheck` | the health machine of one backend |
| `Registry` | `Backends`: updates, carried-over health and metrics, probes, enablement |
| `Selection` | weighted lists, ticket counter, iterators, deduplication, `select_with` |
| `RoundRobin`, `SharedTickets` | coverage, ticket use and weighted fairness of round robin; selects that share the counter |
| `SortedSelectors` | `FewestConnections` and `FastestServer`: sort in place, select the minimum |
| `Protocol`, `ProtocolUpdate`, `ProtocolRuns` | update, rebuild, strategy switches and lock-free requests, step by step |
| `PassiveHealth` | failure windows and ejections |
| `Restoration`, `RestorationRuns` | who disables and restores backends when, on top of `Protocol` |
| `Failover` | one request: choose a peer, connect, fail over |
| `Connections` | the active-connection counters |
| `DecisionEngine` | divergence signals and hysteresis |
| `Ewma` | the latency average |
| `BackgroundLoop` | the four timers of the background task |
| `PathCache` | host and path routing with a cache |

Objects that the program updates in place are classes here, and their methods are proved against
functions of the old state; properties of whole runs are lemmas about those functions. Concurrency is a
state machine whose steps are single lock operations, loads, stores and health-cell updates.

## What is assumed

- A hash key depends on a backend's address and weight only. Where deduplication or the health table
  matters, different backends in play have different keys (`Core.KeysDiffer`,
  `Protocol.KeysIdentify`); lemmas that need it say so.
- A round-robin selector with backends has a positive total weight and at most 2^16 - 1 backends. The
  program's assertion fails on more backends, and taking the ticket modulo an empty weighted list panics
  (`Selection.SelectableUnlessWeightless` says exactly when). The builder raises weights to at least 1.
- There is one background task. A call on a health cell is one step, as are the operations of a mutex.
- The proxy framework runs the connect hook after a peer choice and the end hook before the next choice;
  `Connections.LateEndHookMiscounts` shows what happens otherwise.
- Floats are reals, except that the divergence loop starts from the same largest float. Time is a natural
  number of milliseconds.

## Where the code does less than one might expect

These came up while proving; the code is modelled as it is and the exact condition is proved.

- When the ticket counter wraps within a round-robin select, a budget of n + 1 items can miss a backend,
  unless n divides 2^64; 2n items always suffice (`RoundRobin.BudgetCoversIff` says exactly when a budget
  does). Without a wrap a budget of n suffices exactly when the weighted list sends the first ticket to
  the backend the plain list has in its place, which unit weights ensure.
- `set_enable` during an update is lost when the update has already cloned the health cell but not stored
  its table, or when the caller loaded the table just before it was replaced.
- The passive failure window is anchored at its first failure and does not slide: with `max_fails` K of 3
  or more and a positive `fail_timeout`, K failures within it need not eject, nor need 2K - 3; 2K - 2 do.
  K failures eject exactly when no earlier window is live, or it is filled before it is over.
- An older ejection that expires restores a backend although a newer ejection is still running.
- A backend can be left switched off for good in three ways: a request delayed by fail_timeout or more
  between recording an ejection and disabling the backend is overtaken by the restoration; the restoration
  is lost to a running update, as any `set_enable` can be; or the route is reloaded, which installs a fresh
  tracker, and no request that still holds the old state chooses a peer after the end of the ejection.
- Two round-robin selects that draw in turn over two backends of equal weight see only one backend each,
  whatever their budgets: coverage is a property of undisturbed selects (`SharedTickets`).
- A comment in proxy.rs says cached routes never need invalidation; a reload that changes
  `strip_path_prefix` leaves cached paths with a remainder stripped, or unstripped, as before.
- An exit factor above 1 makes the decision engine flap on some constant metrics if the latency threshold is
  at least 1; with lower thresholds it depends (`DecisionEngine.SettlesIff` says exactly on what).
- A port is ignored only after a host name without a colon: an IPv6 literal is cut at its first colon.

## Model

| member | source | states |
|---|---|---|
| `Core.Find` | routini/src/load_balancing/mod.rs:76-91 | set lookup goes by address and weight alone, and misses only what is not there |
| `HealthCheck.Health.Enable` | routini/src/load_balancing/health_check.rs:342-350 | enablement changes, health and counter do not |
| `HealthCheck.Health.ObserveHealth` | routini/src/load_balancing/health_check.rs:353-375 | the whole new state, and whether the health flipped |
| `HealthCheck.HealthRefinesHistory` | routini/src/load_balancing/health_check.rs:304-376 | after any trace the counter is the length of the opposite run at its end and below the threshold, the health is what the last full run of probes decided, enablement is the last one asked for |
| `HealthCheck.FlipsExactlyOnFullRun` | routini/src/load_balancing/health_check.rs:353-375 | a probe flips the health exactly when it completes a threshold of opposite probes |
| `HealthCheck.EnableCommutes` | routini/src/load_balancing/health_check.rs:342-375 | enable calls commute with probes |
| `HealthCheck.FailuresInARow` | routini/src/load_balancing/health_check.rs:132-138 | a fresh backend turns unhealthy exactly with as many failures in a row as the failure threshold says |
| `HealthCheck.SuccessesInARow` | routini/src/load_balancing/health_check.rs:132-138 | and healthy again with as many successes as the success threshold says |
| `Selection.RoundRobinAlgo.Next` | routini/src/load_balancing/strategy/round_robin.rs:32-34 | the k-th call returns ticket k modulo 2^64 |
| `Selection.BuildWeighted` | routini/src/load_balancing/strategy/utils.rs:39-57 | the weighted list holds every index as often as its weight, in order |
| `Selection.SelectableUnlessWeightless` | routini/src/load_balancing/strategy/utils.rs:95-100 | first picks never panic exactly when there is no backend or some positive weight |
| `Selection.WeightedIterator.Next` | routini/src/load_balancing/strategy/utils.rs:79-108 | the first item from the weighted list, the others from the plain list by whatever ticket the shared counter has reached; the k-th item of its stream while no other iterator draws |
| `Selection.SortedIterator.Next` | routini/src/load_balancing/strategy/fewest_connections.rs:97-103 | the array in order, then nothing, for ever |
| `Selection.AdaptiveSelector.Iter` | routini/src/load_balancing/strategy/utils.rs:59-65 | a new iterator starts its stream at the next ticket of the shared counter |
| `Selection.UniqueIterator.GetNext` | routini/src/load_balancing/strategy/utils.rs:139-154 | the next first occurrence of a key within the budget; None only when none is left; one item more is drawn than examined when it fails |
| `Selection.Search` | routini/src/load_balancing/mod.rs:521-527 | the first accepted first occurrence within the budget, None only if there is none |
| `Selection.SelectWith` | routini/src/load_balancing/mod.rs:516-528 | a select over any selector, and the number of tickets it draws: one per examined item, one more when it fails |
| `RoundRobin.FirstSeenDistinct` | routini/src/load_balancing/strategy/utils.rs:139-154 | results of successive calls are pairwise distinct, over any inner iterator |
| `RoundRobin.HasFirstSeen` | routini/src/load_balancing/strategy/utils.rs:139-154 | nothing is lost: every examined item has a first occurrence at or before it |
| `RoundRobin.CoveringSelectDecides` | routini/src/load_balancing/mod.rs:516-528 | a select whose budget sees every backend returns an accepted one exactly when there is one |
| `RoundRobin.RoundRobinCovers` | routini/src/load_balancing/strategy/utils.rs:79-108 | n + 1 items without a counter wrap, or 2n items in any case, see every backend |
| `RoundRobin.BudgetOfNCoversIff` | routini/src/load_balancing/strategy/utils.rs:79-108 | exactly when a budget of n sees every backend |
| `RoundRobin.UnitWeightsCover` | routini/src/load_balancing/strategy/utils.rs:79-108 | with unit weights a budget of n does |
| `RoundRobin.RoundRobinSelectDecides` | routini/src/load_balancing/mod.rs:516-528 | an uninterleaved round-robin select returns an accepted backend exactly when one exists; a failure has used up the whole budget |
| `RoundRobin.BudgetCoversIff` | routini/src/load_balancing/strategy/utils.rs:79-108 | for every budget and counter value exactly when it sees every backend; across a wrap: the fallbacks miss no position, or one to which the weighted list sends the first ticket |
| `RoundRobin.CoveringNeedsN` | routini/src/load_balancing/strategy/utils.rs:139-154 | no budget below n sees n backends |
| `RoundRobin.MissedCount` | routini/src/load_balancing/strategy/round_robin.rs:32-34 | how many positions n fallbacks miss across a wrap: none if n divides 2^64, else min(m, n - m, a, n - a) for the remainder m and the a tickets left before the wrap |
| `RoundRobin.WrapDefeatsBudgetOfNPlusOne` | routini/src/load_balancing/strategy/round_robin.rs:32-34 | a concrete selector and counter value for which a budget of n + 1 misses a backend |
| `SharedTickets.DrawnCoversIff` | routini/src/load_balancing/strategy/utils.rs:88-108 | a select that shares the counter with others sees every backend exactly when the first ticket through the weighted list and the remainders of its later tickets hit every position |
| `SharedTickets.UndisturbedDrawsSuccessive` | routini/src/load_balancing/strategy/utils.rs:88-108 | an undisturbed select is the one that draws successive tickets |
| `SharedTickets.TakingTurnsMisses` | routini/src/load_balancing/strategy/round_robin.rs:32-34 | d selects that take turns at a multiple of d backends of weight one: none ever sees all, whatever its budget, before the counter wraps |
| `RoundRobin.FirstPicksOfPermutation` | routini/src/load_balancing/strategy/utils.rs:95-100 | what iterators yield first depends on the tickets they start with, not on which thread drew them when |
| `RoundRobin.WeightedFairness` | routini/src/load_balancing/strategy/utils.rs:45-50 | of m iterators started with successive tickets, backend i is what q w of them yield first, for its weight w and q = m div W, and at most min(w, m mod W) more |
| `SortedSelectors.SortUnstable` | routini/src/load_balancing/strategy/fewest_connections.rs:54 | the array is sorted by value in place and a permutation of what it was |
| `SortedSelectors.Build` | routini/src/load_balancing/strategy/fewest_connections.rs:45-63 | the selector array is a permutation of the set in ascending order of the numbers read, backends that track none standing at zero |
| `SortedSelectors.SortedSelectIsArgmin` | routini/src/load_balancing/strategy/fastest_server.rs:49-67 | a select returns an accepted backend whose number is least among the accepted ones of the prefix its budget reaches, None exactly if it holds none; a budget of n reaches all |
| `Registry.Backends.DoUpdate` | routini/src/load_balancing/mod.rs:195-252 | afterwards the registry holds exactly the identities found; the selector callback runs exactly when they differ from the old ones, with the new set; health as carried over and overridden |
| `Registry.Backends.Rebuild` | routini/src/load_balancing/mod.rs:206-241 | on a changed set: survivors keep metrics and health, new ones get defaults, overrides apply |
| `Registry.Backends.Override` | routini/src/load_balancing/mod.rs:243-250 | on an unchanged set only enablement of known backends changes |
| `Registry.ReadyFollowsHistory` | routini/src/load_balancing/mod.rs:260-267 | a backend that stayed since it was fresh is ready exactly when its last deciding run of probes was not one of failures and it was last enabled; with a health check nothing outside the set is ready |
| `Registry.Backends.SetEnable` | routini/src/load_balancing/mod.rs:275-280 | one cell's enablement, nothing for an unknown backend |
| `Registry.Backends.RunHealthCheck` | routini/src/load_balancing/mod.rs:304-353 | the table after probing every backend, in whatever order the checks finish, one by one or in parallel; nothing without a health check |
| `Registry.StepKeepsValid` | routini/src/load_balancing/mod.rs:195-280 | every event keeps: the set ordered, the table's keys exactly those of the set, no metrics cell shared |
| `Registry.RunKeepsValid` | routini/src/load_balancing/mod.rs:195-280 | so does every run |
| `Registry.SurvivorsKeepMetrics` | routini/src/load_balancing/mod.rs:214-219 | a backend that stays keeps its metrics cell over any run |
| `Registry.SurvivorsKeepHealth` | routini/src/load_balancing/mod.rs:223-230 | its health over any run is the one machine fed its own probes and enablements, unaffected by the updates |
| `Registry.FollowedIsReplay` | routini/src/load_balancing/mod.rs:223-230 | that machine is the one of `HealthCheck` on the projected events |
| `Registry.UpdateAdoptsFound` | routini/src/load_balancing/mod.rs:212-219 | survivors of an update keep their metrics cell and their extensions |
| `Registry.NewExtensions` | routini/src/load_balancing/mod.rs:214-215 | to which only extensions found and not yet present are added |
| `Registry.NewcomersStartFresh` | routini/src/load_balancing/mod.rs:217-230 | a new backend gets a new metrics cell and default health, enablement as discovered |
| `Registry.ProbedOnce` | routini/src/load_balancing/mod.rs:349-351 | a round of checks shows every backend exactly its own probe result |
| `Registry.ProbeOrderIrrelevant` | routini/src/load_balancing/mod.rs:335-352 | the order in which the checks finish does not matter |
| `Protocol.NextKeepsInStep` | routini/src/load_balancing/mod.rs:444-493 | what every step keeps about lock, strategy, selector and set |
| `Protocol.UnlockedSelectorIsCurrent` | routini/src/load_balancing/mod.rs:444-493 | in every interleaving, whenever no task holds the strategy lock the selector is what the current strategy builds from exactly the current set, metrics cells included |
| `Protocol.SwitchTakesEffect` | routini/src/load_balancing/mod.rs:476-493 | in every interleaving `update_strategy` leaves the wanted strategy, with a selector built by it from the unchanged set; it stores one, newly read, and reports a change exactly when the strategy was another |
| `Protocol.RebuildTakesEffect` | routini/src/load_balancing/mod.rs:465-472 | in every interleaving `rebuild_selector` leaves a selector whose metrics were read after it took the lock, for the unchanged strategy and set |
| `ProtocolUpdate.UndisturbedUpdate` | routini/src/load_balancing/mod.rs:195-252 | the steps of one update with nothing in between make exactly one update of `Registry` |
| `ProtocolUpdate.UndisturbedSetEnable` | routini/src/load_balancing/mod.rs:275-280 | and those of a `set_enable` exactly its event |
| `ProtocolUpdate.UndisturbedSelect` | routini/src/load_balancing/mod.rs:516-528 | a select with nothing in between judges backends of the current set by the current table, and takes exactly the healthy and enabled ones, or unknown ones without a health check |
| `Protocol.NextKeepsVisible` | routini/src/load_balancing/mod.rs:234-241 | what every step keeps about published sets, their health tables and requests in progress |
| `Protocol.SelectsReadyBackendsOfBothVersions` | routini/src/load_balancing/mod.rs:516-528 | with a health check, a select that mixes versions returns only backends of both versions' sets, ready in the table consulted |
| `Protocol.SetEnableLastsIff` | routini/src/load_balancing/mod.rs:275-280 | a `set_enable` lasts exactly when the table it loaded is still current and no running update has cloned the cell |
| `ProtocolRuns.SetEnableLost` | routini/src/load_balancing/mod.rs:224-241 | a whole behaviour from the start in which a `set_enable` is lost to an update without overrides |
| `PassiveHealth.ExpiredHas` | routini/src/route.rs:259-266 | an entry is handed out or kept by its end time alone |
| `PassiveHealth.OrderIsKept` | routini/src/route.rs:259-266 | in the order in which entries were recorded |
| `PassiveHealth.PassiveHealth.RecordFailure` | routini/src/route.rs:219-242 | the tracker after a failure, and whether to eject |
| `PassiveHealth.PassiveHealth.RecordSuccess` | routini/src/route.rs:245-250 | the window of that address is cleared, nothing else |
| `PassiveHealth.PassiveHealth.TakeExpired` | routini/src/route.rs:253-268 | the expired entries in order; the running ones stay |
| `PassiveHealth.WindowIsStreak` | routini/src/route.rs:219-250 | a stored window counts the failures since its first one, none of them late, with no success or ejection between |
| `PassiveHealth.EjectionIsBacked` | routini/src/route.rs:219-242 | every ejection is backed by max(1, max_fails) failures within fail_timeout of the first, with no success or earlier ejection between |
| `PassiveHealth.StoredWindowsAreShort` | routini/src/route.rs:219-242 | stored windows satisfy 1 <= count < max_fails |
| `PassiveHealth.ExactBurstEjectsIff` | routini/src/route.rs:219-242 | exactly K = max(1, max_fails) failures within fail_timeout eject if and only if no earlier window is live at the first of them, or the failure that fills that window comes before it is over |
| `PassiveHealth.EnoughFailuresEject` | routini/src/route.rs:228-241 | max(K, 2K - 2) failures within fail_timeout always eject, whatever came before |
| `PassiveHealth.EnoughIsLeast` | routini/src/route.rs:228-241 | for every K of 3 or more and positive timeout 2K - 3 failures need not: a run for each |
| `PassiveHealth.SlidingWindowWouldDiffer` | routini/src/route.rs:228-231 | max_fails failures within fail_timeout need not: a concrete case |
| `Restoration.RestorableIff` | routini/src/route.rs:219-268 | at any point of any run something is there to restore a backend, a pending entry or a request that took one, exactly when one of its ejections has not been ended: no peer choice has read a clock at or past its end, or the first that did has not enabled the backend yet |
| `Restoration.DisabledImpliesPending` | routini/src/proxy.rs:784-790 | over any run of requests, updates, switches and probes in which every disabling comes before a peer choice reads a clock fail_timeout past the ejection, enablings are effective, and discovery switches nothing off, a switched-off backend always has a pending entry or is just being enabled |
| `Restoration.SwitchesKeepSafeIff` | routini/src/proxy.rs:653-658 | exactly the timely disablings and the effective enablings keep that |
| `Restoration.LateDisableStrandsIff` | routini/src/proxy.rs:784-790 | the first way to strand a backend, over whole runs with any number of ejections: a disabling leaves it with nothing to restore it exactly when every one of its ejections has been ended in the sense above |
| `Restoration.PromptDisableIsTimely` | routini/src/proxy.rs:784-790 | a disabling is timely if no peer choice has read a clock fail_timeout past the ejection, whatever else happens |
| `Restoration.LostEnableStrandsIff` | routini/src/load_balancing/mod.rs:275-280 | the second way: the last enabling of a switched-off backend leaves it off with nothing pending exactly when the loaded table is no longer current or a running update has cloned the cell |
| `Restoration.StrandedStays` | routini/src/proxy.rs:653-658 | either way it stays off over any run in which it is not ejected again, overridden or dropped |
| `Restoration.RestoredIffTakenOut` | routini/src/route.rs:490-492 | the third way: a switched-off backend that nothing else touches is on again exactly when some peer choice on the same route state finds one of its entries expired; after a reload only requests that hold the old state make such choices |
| `RestorationRuns.DisabledTooLate` | routini/src/proxy.rs:784-790 | a whole run from the start that strands a backend the first way |
| `RestorationRuns.EnabledInVain` | routini/src/proxy.rs:653-658 | a whole run that strands one the second way, with every disabling timely |
| `Restoration.EntriesEnd` | routini/src/route.rs:235-238 | over any run no entry of a backend outlasts its latest ejection by more than fail_timeout |
| `Restoration.RestoresIffSomeEntryExpired` | routini/src/proxy.rs:653-658 | the restore loop leaves a backend enabled exactly when it was, or one of its entries has expired |
| `Restoration.ChoiceAfterTimeoutTakesAll` | routini/src/proxy.rs:653-658 | a peer choice fail_timeout or more after the latest ejection of a backend leaves no entry of it pending, and its restore loop enables the backend |
| `Restoration.FirstChoiceAfterTimeoutRestores` | routini/src/proxy.rs:653-658 | whatever happens meanwhile, from that choice on the backend is enabled whenever no request is still about to enable it, until it is ejected again |
| `RestorationRuns.OlderEntryRestores` | routini/src/proxy.rs:653-658 | a whole run in which an older entry restores a backend while a newer ejection is running |
| `Failover.Route.RestoreExpired` | routini/src/proxy.rs:653-658 | the registry and tracker after the restore loop |
| `Failover.Route.SelectExcluding` | routini/src/adaptive_loadbalancer.rs:63-70 | a select that accepts ready, untried addresses only |
| `Failover.Route.UpstreamPeer` | routini/src/proxy.rs:639-706 | expired ejections are worked off; the peer is ready and untried, and is recorded; otherwise nothing is |
| `Failover.Route.FailToConnect` | routini/src/proxy.rs:777-798 | tracker, enablement and retry flag after a failed connect |
| `Failover.Route.HandleRequest` | routini/src/proxy.rs:639-798 | under arbitrary interference between hooks: attempted addresses pairwise distinct, each ready when chosen, at most max_retries + 1 of them, what the last leaves in the tracker, and why the request ended; "No healthy backends" means a failed select, and with an ample budget that every ready address was tried |
| `Failover.RoundRobinNoneMeansAllTried` | routini/src/proxy.rs:663-673 | "No healthy backends" means every ready address was tried: round robin |
| `Failover.SortedNoneMeansAllTried` | routini/src/proxy.rs:663-673 | the same for the sorted selectors |
| `Connections.ActiveConnections.Increment` | routini/src/load_balancing/strategy/fewest_connections.rs:26-28 | one more, modulo 2^64, whatever the width does |
| `Connections.ActiveConnections.Decrement` | routini/src/load_balancing/strategy/fewest_connections.rs:30-32 | the inverse of an increment: one more than the new count, modulo 2^64, is the old one |
| `Connections.StepKeepsExact` | routini/src/proxy.rs:824-870 | each hook, choice and update keeps every counter equal to the streams open on its cell |
| `Connections.CountersStayExact` | routini/src/proxy.rs:824-870 | conservation over any run that keeps the hook order |
| `Connections.NeverBelowZero` | routini/src/proxy.rs:857-870 | a decrement never meets zero |
| `Connections.SurvivorKeepsCount` | routini/src/load_balancing/mod.rs:214-219 | a backend that survives an update keeps its cell and an exact count |
| `Connections.LateEndHookMiscounts` | routini/src/proxy.rs:866-868 | a choice before the end hook counts on the wrong cell and wraps it below zero |
| `DecisionEngine.LatencyDivergence` | routini/src/adaptive_loadbalancer/decision_engine.rs:50-69 | a signal exactly from two measured backends on: the greatest quotient of two measured latencies |
| `DecisionEngine.ConnectionDivergence` | routini/src/adaptive_loadbalancer/decision_engine.rs:78-102 | a signal exactly from two reporting backends on: the greatest count, over the least or one |
| `DecisionEngine.Engine.EvaluateStrategy` | routini/src/adaptive_loadbalancer/decision_engine.rs:119-158 | the decision on the fleet's signals, which are unique; too small a fleet has none; `DecideIff` and `TwoLatches` say what the decision is |
| `DecisionEngine.OrderIrrelevant` | routini/src/adaptive_loadbalancer/decision_engine.rs:50-102 | signals do not depend on the order of the backends |
| `DecisionEngine.UnmeasuredIgnored` | routini/src/adaptive_loadbalancer/decision_engine.rs:56-57 | unmeasured backends do not affect the latency signal |
| `DecisionEngine.ScaleIrrelevant` | routini/src/adaptive_loadbalancer/decision_engine.rs:68 | nor does a positive scale |
| `DecisionEngine.SettlesIffExitBelowEnter` | routini/src/adaptive_loadbalancer/decision_engine.rs:119-158 | on all readings one evaluation settles exactly when exit thresholds do not exceed enter thresholds |
| `DecisionEngine.SettlesIff` | routini/src/adaptive_loadbalancer/decision_engine.rs:119-158 | for every engine, on all metrics a fleet can report, exactly when no latency ratio (at least one) and no ratio of counts of a loaded enough fleet lies above an enter and at or below a higher exit threshold |
| `DecisionEngine.SettlesIffExitFactorAtMostOne` | routini/src/adaptive_loadbalancer/decision_engine.rs:128-153 | with a latency threshold of at least 1 and a non-negative connection threshold: exactly when the exit factor is at most 1 |
| `DecisionEngine.TwoLatches` | routini/src/adaptive_loadbalancer/decision_engine.rs:119-158 | over any run the strategy is that of two latches, set above enter and cleared at or below exit thresholds, the overload latch clearing the other |
| `DecisionEngine.FastestServerEntriesSeparated` | routini/src/adaptive_loadbalancer/decision_engine.rs:144-154 | entries into FastestServer are above the threshold, and two of them are separated by a reading at or below the exit threshold or by overload |
| `DecisionEngine.FewestConnectionsEntriesSeparated` | routini/src/adaptive_loadbalancer/decision_engine.rs:130-142 | the same for FewestConnections |
| `DecisionEngine.SwitchesAreCrossings` | routini/src/adaptive_loadbalancer/decision_engine.rs:144-157 | without overload the strategy switches exactly as often as the latency ratio crosses its whole band |
| `DecisionEngine.SwitchesBounded` | routini/src/adaptive_loadbalancer/decision_engine.rs:119-158 | on every run at most as often as that, plus three times for every time the connections cross their band upward |
| `DecisionEngine.ExitsAreLow` | routini/src/adaptive_loadbalancer/decision_engine.rs:145-157 | an exit to RoundRobin reads a ratio at or below the exit threshold, or none |
| `Ewma.LatencyEWMA.RecordLatency` | routini/src/load_balancing/strategy/fastest_server.rs:25-36 | the distance to the sample shrinks by the factor 1 - alpha, to nothing when there was no average yet, and the average stays within any bounds on old average and sample |
| `Ewma.AverageWithinSamples` | routini/src/load_balancing/strategy/fastest_server.rs:25-36 | however recorders interleave and lose updates, the average lies between the least and the greatest sample stored |
| `Ewma.AverageIsWeightedSum` | routini/src/load_balancing/strategy/fastest_server.rs:25-36 | the closed form for all non-negative samples; leading zeros leave no trace |
| `Ewma.WeightsSumToOne` | routini/src/load_balancing/strategy/fastest_server.rs:32-33 | its weights add up to one |
| `Ewma.RepeatsConverge` | routini/src/load_balancing/strategy/fastest_server.rs:25-36 | k repeats of a sample shrink the distance to it by exactly (1 - alpha)^k |
| `BackgroundLoop.Start` | routini/src/adaptive_loadbalancer/background_service.rs:15-79 | each job runs at a wake exactly when all its earlier runs are a period back, the selector is rebuilt exactly a period after the last rebuild or switch, and the loop sleeps until the earliest due time |
| `BackgroundLoop.RunsSpaced` | routini/src/adaptive_loadbalancer/background_service.rs:30-57 | two runs of a job are at least its frequency apart, however late the wake-ups |
| `BackgroundLoop.RunsBounded` | routini/src/adaptive_loadbalancer/background_service.rs:30-57 | at most floor(T / f) + 1 runs in any stretch of length T |
| `BackgroundLoop.RebuildsFollowStrategy` | routini/src/adaptive_loadbalancer/background_service.rs:54-62 | a metric-sorted selector is built anew every 200 ms, late by no more than one wake-up, others not before 2^32 - 1 seconds |
| `BackgroundLoop.RunsPunctual` | routini/src/adaptive_loadbalancer/background_service.rs:64-77 | consecutive runs are at most the frequency plus one wake-up's lateness apart |
| `BackgroundLoop.EveryTurnWorks` | routini/src/adaptive_loadbalancer/background_service.rs:25-78 | every turn of the loop runs some job |
| `BackgroundLoop.SleepsAhead` | routini/src/adaptive_loadbalancer/background_service.rs:64-77 | with positive frequencies every sleep target lies strictly ahead |
| `PathCache.FirstLocation` | routini/src/proxy.rs:282-288 | the first matching regex location, None only if none matches |
| `PathCache.PortIgnoredIff` | routini/src/proxy.rs:247-253 | a port is ignored exactly after a host name without a colon |
| `PathCache.CaseIgnored` | routini/src/proxy.rs:247-253 | hosts that differ in case only go to the same server |
| `PathCache.HostReachesItsServer` | routini/src/proxy.rs:244-264 | a host name reaches the virtual host of that name, with or without a port and in any case; all other requests the default server |
| `PathCache.ResolveIn` | routini/src/proxy.rs:266-293 | a hit answers with the entry, a miss with the lookup, cached unless it found nothing; a path is stripped exactly if the route says so and has a remainder, which gets a leading slash; the route is the uncached one in any case |
| `PathCache.Proxy.Resolve` | routini/src/proxy.rs:244-264 | a virtual host answers from its own router alone, all other requests from the default router and then the first matching regex location; only the cache of the host's server is touched |
| `PathCache.AnswersWereTrue` | routini/src/proxy.rs:244-332 | with concurrent requests, evictions and reloads, every answer and entry is one the uncached lookup in the same server's tables gave at some point of the run |
| `PathCache.CacheIsTransparent` | routini/src/proxy.rs:244-332 | answers name the uncached lookup's route, or none exactly when it has none; stripped paths start with a slash and agree while no reload changed the flag, or without a remainder |
| `PathCache.StaleUnless` | routini/src/proxy.rs:318-329 | an entry computed under one flag is right under another exactly if they agree or nothing is there to strip |
| `PathCache.ReloadMakesStale` | routini/src/route.rs:490-492 | a reload can make an entry stale |

## Left out

- The proxy framework: sockets, TLS, HTTP sessions, peers, async scheduling; only the order of its hooks is kept, as an assumption.
- Library internals: path matching, regular expressions, the bounded cache (a map that may drop entries at any time), rate and connection limiters, the hash functions.
- The item sequences of the Random, FNVHash and Consistent selectors: deduplication, budget and `select_with` are proved for arbitrary sequences, theirs included, but those need not reach every backend, so the coverage theorems are not meant for them.
- Response caching, header rules, access control, redirects, body limits, error pages, logging, configuration and the server builder: one-branch facts or input and output.
- TCP and HTTP probes: a probe result is an arbitrary boolean. Status-change callbacks and log lines are left out.
- Rounding, overflow, infinities and NaN of 32-bit floats, and relaxed memory ordering: reals and sequentially consistent steps.
- Updates of one balancer from two tasks at once: the program has one background task per balancer.
- Restoration.DisabledImpliesPending: within one route state; what a reload forgets is the subject of `Restoration.RestoredIffTakenOut`. Passive health is the only caller of `set_enable`, as in the program.
- Failover.Route.SelectExcluding: while no other request draws tickets during the select; between the hooks of a request anything may change.
- SortedSelectors.SortUnstable: the library's sort is modelled by an insertion sort; the order of equal values it leaves is not relied on.
- SortedSelectors.Build: the metrics are read one by one while they change; the snapshot is the values read.
- Selection.BuildWeighted: the assertion on more than 2^16 - 1 backends is a precondition, because the program panics.
- When the selector is rebuilt after a strategy change from outside: the timer is only reset for changes the background task makes.
- BackgroundLoop.Start: runs up to a shutdown after any number of turns; the error of a failed update is only logged and has no effect on the timers.
