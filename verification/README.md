# Endpoint picker: verified model

This project models the parts of the endpoint picker that decide which pod serves which model, and
proves what they keep under every interleaving, run and input. It verifies with
`dafny verify dfyconfig.toml`.

| module | what it holds |
|---|---|
| `StringOrder`, `Wrappers` | Go's string order, sorting, minima by (pressure, key) |
| `DedupSpec`, `PollSpec`, `RequestSpec`, `FilterSpec`, `LoadKey`, `PodState` | one dedup pass, one poll, one request, one filter call, the flat cache key and the load cache as functions on values |
| `ReplicaClasses`, `Filter` | the tracker, the model loader and the filter as objects whose methods are proved against those functions |
| `PassLaws` | the dedup pass told over the tracker, the load scores and the unload answers alone |
| `DedupHistory`, `DedupConvergence`, `DedupStarvation` | dedup over whole runs: counters, fairness and its exact bound, convergence |
| `Scheduling` | requests, polls and passes as atomic steps: redundant loads, cache coherence |
| `InFlight` | filtering and marking as separate steps: how many pods a model can get to |
| `RealContents` | dedup against what the pods really hold |
| `LoaderProtocol`, `LoaderOutcomes` | the single-flight cold loader, any number of requests interleaved, and what decides how each ends |
| `LoaderStaleness` | when its cache is wrong |
| `LoaderRefinement`, `LoaderJoin` | run alone, or joining a load, a request of it is the atomic request |
| `RouterProtocol`, `RouterOutcomes`, `RouterLiveness` | the map-and-Lease load lock, any number of replicas, requests and models interleaved; what decides how each request ends; waits and leases left behind |
| `Vram` | the VRAM tracker's choice and the VRAM scorer |

A dedup pass walks Go maps in no particular order. The methods of `ReplicaClasses.Tracker` pick map
elements arbitrarily and are still proved equal to one deterministic function, so the order does not
matter. The counting and the unload phase are proved from a snapshot against whatever the tracker holds by
then; the atomic pass is those two with nothing in between. What comes from outside (query answers, load
and unload outcomes, listings, cancelled contexts, failing Lease calls, crashes) is a parameter, an oracle of
the step that meets it, or an event of its own. Load scores and VRAM scores are reals. In the two protocol
modules a step is one critical section, one channel operation or one external call; a waiting request simply
does not move until its step is possible.

## Where the code and its comments part

- `internal/modeltracker/tracker.go:563-566` and `internal/podstate/cache.go:29-32` promise never to
  unload the last copy, because another pod still has the model. One pass taken on its own keeps that promise
  as far as the tracker's map goes (`PassKeepsLastCopy`). It keeps it of the pods themselves over any run of
  requests, polls and passes in which pods lose models by dedup alone and the loader's keys are distinct
  (`RealModelsKept`). Otherwise it can fail: a poll keeps the last known models of a silent pod, so a pod that
  restarts and stays silent through the grace window still counts as a holder, and its only real copy is
  unloaded elsewhere (`RestartStrands`). `UntrueExactly` says when the map shows a copy that is gone, and
  `PassStrandsExactly` when a pass leaves the model on a real pod.
- The same pass releases its locks before it unmarks. Marks and retractions in between can leave its model on
  no pod at all, exactly if no other pod has it by them (`PassLosesModelExactly`; `StrandedInARun` is such
  a run, for two holders and one retraction).
- `internal/modeltracker/tracker.go:639-640` says the fixed order starves no model. It holds for a model
  with fewer earlier duplicates than the grace window is long (`BoundedWaiting`), and fails with as many
  (`StarvationAtTheBound`).
- `MarkUnloaded` ignores the empty model name, so a duplicated model with that name is unloaded again and
  again and never resolved (`Convergence` is an equivalence for that reason).
- `internal/modeltracker/tracker.go:340-349` wants every later decision to see a model as warm once its
  load has started. The mark stays exactly until a poll's view leaves it out or some request for the pair
  retracts it (`MarkedWhileLoading`). A poll that queried the pod before the mark leaves it out
  (`SwapDecides`), and a waiter whose context is cancelled retracts it while the load goes on
  (`CancelledWaiterUnmarks`).
- `internal/plugins/modelloader/loader.go:286-288` wants no request to short-circuit to a cold backend after
  a dedup unload. Once the observer has been called, an entry does just that if the unload and that call fell
  between a request's warm answer and its cache write (`StaleEntry`). `StaleExactly` says in full when an
  entry is wrong; the other way is that a pod loses a cached model by itself, which nothing tells the cache.
- The loader's key "podIP:model" is ambiguous for pod IPs with colons. Over atomic steps, while pods lose models
  by dedup alone, the cache is coherent exactly if no two pairs in use share a key (`CacheCoherent`,
  `CacheIncoherent`).
- `internal/router/router.go:285-286` speaks of signalling the waiting requests. The channel carries one
  message to one waiter; every other one waits until it is cancelled or its replica crashes
  (`WaiterCanLeave`).
- `internal/router/router.go:52` calls the lease duration a TTL. Nothing reads it. One failed create or delete,
  or a crash between the two, leaves a lease behind (`NoLeaseLeft`, `LeakAbandons`, `CrashAbandons` say
  exactly when), and the model is then loaded again only if the holding replica asks for it
  (`LeaseNeverExpires`, `TakenOverExactly`).
- The scorer's 0.5 branch is dead unless the 64-bit threshold product wraps (`HalfScoreReachable`,
  `ThresholdPositive`).

## Model

| member | source | states |
|---|---|---|
| ReplicaClasses.Tracker.ResolveDuplicates | internal/modeltracker/tracker.go:568-689 | the pass, walking its maps in any order, leaves the tracker in the one state `Pass` defines and invalidates exactly the loader entry of the unloaded copy |
| ReplicaClasses.Tracker.CollectHolders | internal/modeltracker/tracker.go:583-588 | the snapshot lists every model's holders, each once, and nobody else, in any iteration order |
| ReplicaClasses.Tracker.ObserveDuplicates | internal/modeltracker/tracker.go:606-643 | afterwards exactly the duplicates of the snapshot have counters, each one more than before, and the sorted ripe list is exactly those at the grace window, whatever is loaded by then |
| ReplicaClasses.Tracker.DropResolved | internal/modeltracker/tracker.go:610-620 | exactly the counters of models off two pods are dropped, the others untouched |
| ReplicaClasses.Tracker.CountSightings | internal/modeltracker/tracker.go:622-632 | every duplicate's counter goes up by one, the ripe ones are collected |
| ReplicaClasses.Tracker.IssueUnloads | internal/modeltracker/tracker.go:645-688 | the walk over the ripe models unloads exactly the first copy the snapshot allows, and takes it from whatever the tracker holds by then |
| ReplicaClasses.Tracker.TryUnload | internal/modeltracker/tracker.go:651-680 | succeeds exactly when the snapshot's loser has a key, an IP and a working unload; then that copy is unmarked in the tracker of that moment, else nothing changes |
| ReplicaClasses.Tracker.PickLoser | internal/modeltracker/tracker.go:694-716 | the least (pressure, key) among the holders, "" for none |
| StringOrder.MinUnique | internal/modeltracker/tracker.go:691-716 | that least holder is unique, so the choice does not depend on the order of the list |
| StringOrder.LessExactly | internal/modeltracker/tracker.go:641-643 | the order is that of Go: a proper beginning, or smaller at the first difference |
| ReplicaClasses.Tracker.PollOnce | internal/modeltracker/tracker.go:400-462 | a failed listing changes nothing; otherwise the tracker is refreshed from the listing and deduplicated |
| ReplicaClasses.Tracker.QueryPods | internal/modeltracker/tracker.go:408-449 | the loop over the listed pods, whatever the tracker's map is found to be at each query, gathers each pod's answer or its share of the tracker's own set, and the IP map is the identity on listed IPs |
| ReplicaClasses.Tracker.QueryAndSwap | internal/modeltracker/tracker.go:408-455 | with nobody else about that and the swap are `Refresh` |
| ReplicaClasses.Tracker.QueryPod | internal/modeltracker/tracker.go:532-544 | exactly the IDs with a warm status |
| ReplicaClasses.Tracker.MarkLoaded | internal/modeltracker/tracker.go:350-366 | adds the one copy and seeds the tracker; empty names change nothing |
| ReplicaClasses.Tracker.MarkUnloaded | internal/modeltracker/tracker.go:372-396 | removes the one copy, and makes the observer drop the entry of the pod's routable IP, only if the pod is known |
| ReplicaClasses.Tracker.IsLoaded | internal/modeltracker/tracker.go:249-265 | true exactly for recorded copies of a seeded tracker |
| ReplicaClasses.Tracker.constructor | internal/modeltracker/tracker.go:178-218 | starts empty and unseeded, a zero grace becoming the default |
| PollSpec.PollKeys | internal/modeltracker/tracker.go:408-455 | after a listing the tracked pods are exactly the listed ones with an IP that answered or were known |
| PollSpec.PollValues | internal/modeltracker/tracker.go:428-448 | each tracked pod has its last usable answer, or its last known models where the query failed |
| PollSpec.TrackerReadsExactly | internal/modeltracker/tracker.go:532-544 | the tracker takes a model for warm exactly if some entry of that name is "loaded", "running" or without status |
| PollSpec.LoaderReadsExactly | internal/plugins/modelloader/loader.go:532-547 | the loader goes by the first entry of that name, and by the same three statuses |
| PollSpec.UnlistedIsCold | internal/plugins/modelloader/loader.go:549-551 | a model that is not listed is cold to both |
| PollSpec.PolledExactly | internal/modeltracker/tracker.go:424-448 | after a poll that a pod answered it holds exactly the models some entry of the answer gives one of these statuses |
| PollSpec.RefreshRoutes | internal/modeltracker/tracker.go:415-455 | a poll routes exactly the listed pods, each by its own address, seeds the tracker and leaves the counters |
| PollSpec.ReadersAgree | internal/plugins/modelloader/loader.go:532-551 | what the loader reads as warm the tracker reads as warm; with unique names they agree |
| PollSpec.ReadersDifferExactly | internal/plugins/modelloader/loader.go:532-551 | on any answer the two readings differ about a model exactly if its first entry is cold and a later one warm |
| PollSpec.ReadersDisagreeOnRepeats | internal/modeltracker/tracker.go:534-542 | a witness: a cold and a warm entry with one name |
| PollSpec.SwapDecides | internal/modeltracker/tracker.go:428-455 | with marks and retractions going on, a pod has a model after the swap exactly if its deciding answer says so or it was known, did not answer and has the model by then |
| PollSpec.SwappedAlone | internal/modeltracker/tracker.go:428-455 | with nobody else about that is the atomic poll |
| PollSpec.GatheredSwapsIn | internal/modeltracker/tracker.go:434-455 | what the queries gather, shared sets read at the swap, is that map |
| DedupSpec.PassCopies | internal/modeltracker/tracker.go:645-688 | a pass removes exactly its one target copy and adds none |
| PassLaws.CopyLeavesExactly | internal/modeltracker/tracker.go:645-680 | a copy leaves exactly if its pod is the least loaded holder of a ripe, named model, has a key and an address and accepts the unload, and no model sorting before could give one up |
| PassLaws.CountersExactly | internal/modeltracker/tracker.go:606-632 | afterwards exactly the models on two pods or more, but the one that yields, have counters, each one more than before; a disabled pass changes nothing |
| PassLaws.CacheDropsExactly | internal/modeltracker/tracker.go:382-395 | the loader forgets exactly the key, under its pod's address, of the copy that leaves |
| PassLaws.LeavesOnlyIfAccepted | internal/modeltracker/tracker.go:666-674 | no copy leaves without an accepted unload call to its pod |
| PassLaws.RefusedStays | internal/modeltracker/tracker.go:667-674 | a model whose holders all refuse keeps its holders, and its counter goes on |
| PassLaws.RefusalUsesNothingUp | internal/modeltracker/tracker.go:645-687 | if the ripe models before it all refuse, the next one that accepts loses its copy in the same pass |
| DedupSpec.PassKeepsLastCopy | internal/modeltracker/tracker.go:563-567 | in the tracker's map no held model becomes unheld, and only a model on two or more pods loses a copy, one at most |
| DedupHistory.PassLosesModelExactly | internal/modeltracker/tracker.go:573-676 | whatever is marked and retracted between a pass's snapshot and its unmark, the model ends up on no pod exactly if no other pod has it by its last mark or retraction, or by the snapshot |
| DedupHistory.StillHasExactly | internal/modeltracker/tracker.go:350-384 | a run of marks and retractions leaves a copy exactly if the last one for it is a mark, or there is none and it was there |
| DedupSpec.ConcurrentRetractionStrands | internal/modeltracker/tracker.go:573-596 | a retraction of the kept copy between snapshot and unmark leaves the model nowhere |
| DedupHistory.CounterRefinesHistory | internal/modeltracker/tracker.go:606-688 | in every run a model's counter is its streak of sightings in the pass log, and each pass serves the first ripe model that can be unloaded |
| DedupHistory.StreakIsLongest | internal/modeltracker/tracker.go:145-148 | the streak is the longest unbroken run of latest sightings |
| DedupHistory.UnloadNeedsFullGrace | internal/modeltracker/tracker.go:68-81 | an unload follows a full grace window of consecutive sightings |
| DedupHistory.UnloadsSpaced | internal/modeltracker/tracker.go:678-680 | two unloads of a model are at least the grace window apart |
| DedupHistory.OvertakenByEarlier | internal/modeltracker/tracker.go:641-648 | a pass that leaves a ripe, unloadable model waiting serves one that sorts before it |
| DedupHistory.BoundedWaiting | internal/modeltracker/tracker.go:551-555 | a ripe, unloadable model with fewer earlier duplicates than the window is served within that number of passes plus one, whatever is loaded in between |
| DedupHistory.BoundedWaitingInRuns | internal/modeltracker/tracker.go:622-688 | the same for the tracker itself in any run of passes, marks, retractions and polls |
| DedupStarvation.StarvationAtTheBound | internal/modeltracker/tracker.go:639-648 | with as many earlier models as the window there are runs of any length in which the model is never served |
| DedupStarvation.StrandedInARun | internal/modeltracker/tracker.go:573-676 | for every grace window a run reaches a state in which such a retraction strands the model of the next pass |
| DedupHistory.NoModelLost | internal/modeltracker/tracker.go:563-567 | in the tracker's map no mix of passes and loads ever loses a held model |
| RealContents.RealModelsKept | internal/modeltracker/tracker.go:563-567 | over any run of requests, polls and passes with true answers and distinct keys, where pods lose models by dedup alone, every model that some pod really has stays really held |
| RealContents.UntrueExactly | internal/modeltracker/tracker.go:428-455 | in every run with true answers the tracker shows a copy that is not there exactly if the pod lost it while tracked, or a request hit the cache for it when it was gone, and since then no poll the pod was not silent in, no uncached request and no dedup concerned it |
| RealContents.PassStrandsExactly | internal/modeltracker/tracker.go:645-688 | the model a pass unloads stays really held exactly if another pod has it that the tracker is not astray about, or does not show |
| RealContents.RestartStrands | internal/modeltracker/tracker.go:434-446 | for every grace window, a pod that restarts and stays silent through it makes a pass unload the only real copy |
| DedupHistory.DisabledPassesDoNothing | internal/modeltracker/tracker.go:569-580 | without a pressure provider, or before seeding, any number of passes changes nothing |
| DedupConvergence.PassExcess | internal/modeltracker/tracker.go:666-687 | a dedup lowers the number of surplus copies by exactly one |
| DedupConvergence.MeasureDrops | internal/modeltracker/tracker.go:622-688 | every pass over a duplicate either removes a surplus copy or brings a counter closer to the window |
| DedupConvergence.Convergence | internal/modeltracker/tracker.go:565-567 | after surplus times window working passes nothing is duplicated, exactly when no duplicate is unnamed |
| DedupConvergence.PassesKeepHolders | internal/modeltracker/tracker.go:563-567 | every model held before such a run of passes is held after it |
| ReplicaClasses.Plugin.PreRequest | internal/plugins/modelloader/loader.go:215-263 | tracker and cache end as `Request` defines, with or without a tracker, and the load registration is gone |
| ReplicaClasses.Plugin.HandleAlreadyLoadedOrLoading | internal/plugins/modelloader/loader.go:403-436 | handled exactly for cached models and for joined loads not seen to fail |
| ReplicaClasses.Plugin.LoadModel | internal/plugins/modelloader/loader.go:555-672 | succeeds as its own load or the joined one did; only an own success is cached |
| ReplicaClasses.Plugin.IsModelLoaded | internal/plugins/modelloader/loader.go:532-551 | the first entry with the name decides |
| ReplicaClasses.Plugin.InvalidateLoadedModel | internal/plugins/modelloader/loader.go:289-298 | drops exactly the one key |
| ReplicaClasses.Plugin.WithTracker | internal/plugins/modelloader/loader.go:199-206 | tracker and observer point at each other |
| LoadKey.FlatKeyCollides | internal/plugins/modelloader/loader.go:227 | two pairs share a key exactly when one IP continues the other past a colon and the models make up for it |
| LoadKey.FlatKeyInjective | internal/plugins/modelloader/loader.go:294-296 | for IPs without a colon the key stands for the pair |
| LoaderProtocol.RunInv | internal/plugins/modelloader/loader.go:555-594 | the protocol invariant holds along every interleaving |
| LoaderProtocol.SingleFlight | internal/plugins/modelloader/loader.go:561-594 | at most one request is loading a key, and the map has an entry exactly while one is |
| LoaderProtocol.NoStrandedWaiter | internal/plugins/modelloader/loader.go:561-594 | every awaited result is closed or registered with its live owner |
| LoaderProtocol.WaitCanEnd | internal/plugins/modelloader/loader.go:566-579 | two steps of the owner and one of the waiter end any wait, without a cancellation |
| LoaderProtocol.ClosedForever | internal/plugins/modelloader/loader.go:588-594 | a result is closed once and never changes again |
| LoaderProtocol.Broadcast | internal/plugins/modelloader/loader.go:111-116 | all who went by a result, its owner included, went by one verdict, success only after a warm answer and the cache write |
| LoaderProtocol.OutcomeIsTheVerdict | internal/plugins/modelloader/loader.go:418-430 | every request that ends by a load ends by the verdict published for its key, and only failed or abandoned loads are retracted |
| LoaderOutcomes.OutcomeExactly | internal/plugins/modelloader/loader.go:555-594 | in every run a request is bound for an outcome exactly if one of its own steps decided it so: a cancelled wait, a closed result with or without error, the end of its own load, a warm answer or a cache hit |
| LoaderOutcomes.GaveUpExactly | internal/plugins/modelloader/loader.go:574-577 | a request gives up exactly if it was cancelled while it waited |
| LoaderOutcomes.JoinedKeepsAll | internal/plugins/modelloader/loader.go:567-573 | a waiter whose load worked finishes in that step, with marks and cache as they were |
| LoaderOutcomes.TakesBackExactly | internal/plugins/modelloader/loader.go:253-260 | in every run a request takes its mark back exactly if a late wait of it was cancelled or saw an error, or its own load failed |
| LoaderOutcomes.EarlyFailureGoesOn | internal/plugins/modelloader/loader.go:418-424 | an early waiter that sees an error asks the pod, and never ends by that load |
| LoaderOutcomes.BrokenIsPublished | internal/plugins/modelloader/loader.go:583-594 | a load that breaks publishes its very error |
| LoaderProtocol.NotedWhenDone | internal/plugins/modelloader/loader.go:657-667 | confirmation takes a warm answer to the owner from a pod that has the model, recording takes the cache write |
| LoaderProtocol.MarkLostExactly | internal/modeltracker/tracker.go:372-384 | a step takes a mark exactly if it is a rewrite of the tracker's view without it, or a request retracting that very pair |
| LoaderProtocol.MarkGainedExactly | internal/modeltracker/tracker.go:350-366 | and it brings one exactly if it is a rewrite with it, or a request marking that very pair |
| LoaderProtocol.MarkStays | internal/modeltracker/tracker.go:340-366 | from any state with the mark it stays throughout a run exactly if no step of the run takes it |
| LoaderProtocol.MarkedWhileLoading | internal/plugins/modelloader/loader.go:246-252 | the same from the state right after a request marked its pod, about to load |
| LoaderProtocol.CancelledWaiterUnmarks | internal/plugins/modelloader/loader.go:574-577 | a cancelled waiter retracts the mark while the load goes on |
| LoaderStaleness.StaleExactly | internal/plugins/modelloader/loader.go:234-237 | in every run an entry is stale exactly if a request wrote it though since its warm answer the pod had lost the model, with every unload's observer call over, or the pod lost a cached model by itself, and nothing mended the entry since |
| LoaderStaleness.WritingExactly | internal/plugins/modelloader/loader.go:647-667 | a request is about to write an entry exactly if it got a warm answer from a pod that had the model and has not moved since |
| LoaderStaleness.GoneExactly | internal/modeltracker/tracker.go:664-676 | a pod that had the model lacks it at the end of a run exactly if the last unload or loss was not followed by a load |
| LoaderStaleness.PendingExactly | internal/modeltracker/tracker.go:382-395 | no observer call is to come exactly if every unload so far has been followed by one |
| LoaderStaleness.StaleStep | internal/plugins/modelloader/loader.go:286-298 | a step leaves an entry stale exactly if it spoils it, or finds it stale and does not mend it |
| LoaderStaleness.StaleEntry | internal/plugins/modelloader/loader.go:403-412 | it happens with dedup unloads alone, and the next request is served from the stale entry |
| LoaderRefinement.AloneIsAtomic | internal/plugins/modelloader/loader.go:215-263 | a request of the protocol that runs alone ends with the cache and the mark of the atomic `Request`, for every outcome, and changes nothing else but what its load put on the pod |
| LoaderRefinement.EmptyNamesDoNothing | internal/plugins/modelloader/loader.go:218-222 | a request without model or pod changes nothing |
| LoaderJoin.JoinsInTwoSteps | internal/plugins/modelloader/loader.go:403-418 | a request that finds a load in flight and no cache entry waits for that load, and changes nothing else |
| LoaderJoin.EarlyEnds | internal/plugins/modelloader/loader.go:418-432 | an early wait ends the request on success and cancellation, and goes on to the query on failure |
| LoaderJoin.LateEnds | internal/plugins/modelloader/loader.go:566-579 | a late wait ends the request on success, and turns it back on failure and cancellation |
| LoaderJoin.JoinEffect | internal/plugins/modelloader/loader.go:403-436 | the atomic request with a load in flight, case by case |
| LoaderJoin.JoinedIsAtomic | internal/plugins/modelloader/loader.go:403-436 | a request of the protocol that joins loads, early and late, ends with the cache and the mark of the atomic request, for every way the waits and the query end |
| RouterProtocol.RunInv | internal/router/router.go:194-306 | the protocol invariant holds along every interleaving, for every failing call and crash of a replica |
| RouterProtocol.MutualExclusion | internal/router/router.go:252-306 | at most one request in the whole system is between acquiring and releasing a model's lease |
| RouterProtocol.CriticalHoldsLease | internal/router/router.go:573-639 | a request between acquiring and releasing has its replica's name on the lease and owns its replica's entry, stale own leases and leases deleted between create and get included |
| RouterProtocol.LocalSingleFlight | internal/router/router.go:206-250 | a replica's map has an entry exactly while one of its requests, and only one, is on the load |
| RouterProtocol.OneResultPerLoad | internal/router/router.go:238-286 | one result is sent per load unless its replica crashes first, before its entry goes, into an empty channel; at most one waiter gets it; success only after the models write |
| RouterProtocol.SendInv | internal/router/router.go:256-286 | a send never blocks |
| RouterProtocol.OutcomeIsWhatWasSaid | internal/router/router.go:215-235 | every request that ends by a load ends by what its owner sent |
| RouterProtocol.WroteMeansWarm | internal/router/router.go:511-520 | a load counts as written only by the step that puts the model into the map |
| RouterOutcomes.WarmReturns | internal/router/router.go:194-204 | a request for a warm model returns at its check and touches nothing |
| RouterOutcomes.LoneLoadWorks | internal/router/router.go:252-306 | if no call fails and the lease is free or its own, a lone request makes the model warm, returns success, and leaves no lease and no entry |
| RouterOutcomes.LoneLoadFails | internal/router/router.go:268-281 | if the load fails the request fails, the model does not become warm, and the lease is given back |
| RouterOutcomes.LoneRequestRefused | internal/router/router.go:258-264 | if another replica has the lease the request fails and leaves lease and models as they are |
| RouterOutcomes.LoneCreateFails | internal/router/router.go:252-257 | if the create call fails so does the request, with no lease but one that call made |
| RouterOutcomes.FactsExactly | internal/router/router.go:194-306 | in every run a load works exactly by its models write, breaks exactly by a failing call or a foreign lease, and each return value is settled exactly by the step that gives it, crashes aside |
| RouterOutcomes.OwnReturnsExactly | internal/router/router.go:238-306 | a request that ran the load returns what became of it, and has sent just that |
| RouterProtocol.LeasesStayHeldExactly | internal/router/router.go:601-613 | a step keeps every lease in the hands of a request between acquisition and release exactly if it is not a failing delete without effect, a failing create that made the lease, or a crash of a replica that has such a request |
| RouterProtocol.NoLeaseLeft | internal/router/router.go:643-667 | in every run that holds throughout exactly if there is no such step |
| RouterLiveness.StuckForever | internal/router/router.go:215-234 | once a waiter has received, the others on that channel wait for ever unless cancelled or crashed |
| RouterLiveness.WaiterCanLeave | internal/router/router.go:215-234 | a waiter can leave without being cancelled or crashed exactly while nobody has received the message |
| RouterLiveness.SecondWaiterLeftBehind | internal/router/router.go:209-235 | two waiters on one load are enough for that |
| RouterLiveness.LeaseNeverExpires | internal/router/router.go:601-638 | a lease whose replica has nobody on the model stays through everything, crashes included, and no replica ever loads that model, until that replica asks again |
| RouterLiveness.NextRequestTakesOver | internal/router/router.go:623-628 | that replica's next request, unless it finds the model warm, takes the stale lease over in five steps |
| RouterLiveness.TakenOverExactly | internal/router/router.go:615-638 | if requests come only from given replicas and models, an abandoned model can be loaded again exactly if the holder asking for it is among them |
| RouterLiveness.LeakAbandons | internal/router/router.go:298-303 | after any call that leaks, delete or create, and the caller's own return, the lease is abandoned exactly if every other request of that replica for the model is past needing it |
| RouterLiveness.CrashAbandons | internal/router/router.go:573-599 | a crash abandons exactly the leases with the replica's name on them, in particular that of every request it cuts off between acquisition and release |
| RouterLiveness.CrashTakesExactly | internal/router/router.go:206-250 | a crash takes exactly the replica's own requests and entries, and no lease |
| PodState.Cache.Update | internal/podstate/cache.go:67-78 | the last snapshot per key wins, an empty key is ignored |
| PodState.Cache.Pressure | internal/podstate/cache.go:85-99 | running plus waiting requests, zero for unknown pods |
| Filter.LoadedModelFilter.Filter | internal/plugins/filter/loaded_model.go:134-210 | the filtered list and the fed cache, the input unchanged without a model or tracker |
| FilterSpec.FilterContract | internal/plugins/filter/loaded_model.go:51-58 | an order-preserving subsequence, non-empty for non-empty input, exactly the warm pods if any and the input otherwise, idempotent |
| FilterSpec.FilterPassesExactly | internal/plugins/filter/loaded_model.go:150-210 | told over the tracker's map: everything passes before seeding; then exactly the pods that have the model, and all if there is none |
| FilterSpec.FedPressure | internal/plugins/filter/loaded_model.go:174-187 | afterwards an address's pressure is that of its last listed pod with metrics |
| FilterSpec.FedSnapshot | internal/plugins/filter/loaded_model.go:174-187 | figure by figure, the snapshot left for an address is that of its last listed pod with metrics |
| FilterSpec.FedFromEmpty | internal/podstate/cache.go:80-99 | from an empty cache an address never listed with metrics has pressure zero, any other that of the last time |
| FilterSpec.LoserIsLeastLoaded | internal/podstate/cache.go:80-99 | the copy a pass gives up never has more recorded load than another |
| Scheduling.DecisionAddsNoCopy | internal/plugins/modelloader/loader.go:246-262 | one filtered decision leaves at most one holder or adds none |
| Scheduling.NoRedundantLoads | internal/modeltracker/tracker.go:340-349 | over any run of decisions offered every holder, each marked at once, and passes, no holder count rises above one or its start |
| InFlight.HoldersWithinPeak | internal/modeltracker/tracker.go:340-349 | with filtering and marking apart, and any marks, retractions and passes between, no model gets on more pods than were in flight for it at one time, or had it or were in flight at the start |
| InFlight.PeakIsReached | internal/plugins/modelloader/loader.go:246-249 | for every `n`, `n` decisions filtered before any of them marks give `n` holders |
| Scheduling.CacheCoherent | internal/plugins/modelloader/loader.go:286-298 | over any run of requests, polls and passes, pods losing models by dedup alone, a cache hit for a pair in use means the pod has the model, if keys are distinct |
| Scheduling.CacheIncoherent | internal/plugins/modelloader/loader.go:403-412 | any two pairs in use that share a key give a run into a cold backend |
| Scheduling.ColonFreePodsAreSafe | internal/plugins/modelloader/loader.go:227-229 | IPv4 pods are safe whatever the model names, IPv6 pods are not |
| Vram.Tracker.GetNodeWithMostAvailableVRAM | internal/vram/tracker.go:172-197 | the named node with the most, positive, available VRAM; an error only if there is none or the unnamed node has the most |
| Vram.VRAMScorer.Score | internal/plugins/scorer/vram.go:140-213 | every candidate gets its score against the true maximum, and for a positive threshold the scores rank as `PodScoresRank` says |
| Vram.PodScoresRank | internal/plugins/scorer/vram.go:158-209 | a pod without pod info, node or metrics scores 0, below all others; below the threshold 0.1; otherwise by what its own node has, in proportion above 0.1, and 1 exactly if no node has more |
| Vram.VRAMScorer.constructor | internal/plugins/scorer/vram.go:114-125 | a non-positive threshold becomes the default |
| Vram.ThresholdPositive | internal/plugins/scorer/vram.go:157 | the threshold in bytes is positive exactly outside the wrap-around |
| Vram.ScoreRange | internal/plugins/scorer/vram.go:189-206 | scores lie in [0.1, 1]; 1 exactly at or above the threshold on a node tied for the maximum |
| Vram.ScoreMonotone | internal/plugins/scorer/vram.go:66-67 | more available VRAM never scores lower |
| Vram.PickScoresHighest | internal/vram/tracker.go:185-196 | the node the tracker picks scores highest, and 1 once at the threshold |
| Vram.HalfScoreReachable | internal/plugins/scorer/vram.go:207-209 | the fallback score is reachable exactly for a non-positive threshold |

## Left out

- The endpoint text a router request returns, which is built from the models-map entry.
- HTTP, JSON, URL building, Kubernetes List calls and logging: each is an outcome the environment chooses.
- Tickers, timeouts and timestamps (LoadedAt, UpdateTime, the load time in the loader's cache): a poll or a
  cancellation may come at any time.
- ReplicaClasses.Plugin.PreRequest: runs without interference, its waits ended by the environment; the
  interleaving of its critical sections is LoaderProtocol's.
- ReplicaClasses.Tracker.ResolveDuplicates: atomic; its two phases are proved from a snapshot against a tracker
  that moved on (ObserveDuplicates, IssueUnloads), and what marks and retractions in between can do is
  DedupHistory.PassLosesModelExactly.
- ReplicaClasses.Tracker.PollOnce: atomic; its queries are proved for a map that moves on (QueryPods), and what
  becomes of a mark or a retraction made meanwhile is PollSpec.SwapDecides.
- DedupSpec.PassKeepsLastCopy and DedupHistory.NoModelLost speak of the tracker's map; RealContents has the pods.
- Scheduling.NoRedundantLoads: each decision is marked at once; InFlight.HoldersWithinPeak has them apart.
- Scheduling.CacheCoherent: over atomic steps, pods losing models by dedup alone; an unload between a warm answer
  and the cache write, and a loss under the entry, are in LoaderStaleness.StaleExactly.
- InFlight leaves polls out: a poll may add whatever the pods answer.
- LoaderProtocol assumes that a tracker is attached and that a pod which answers warm has the model. A pod the
  tracker does not know when a mark is retracted, where the code skips the observer, is the oracle `Unknown`;
  a dedup pass always knows its pod, since passes and polls share one goroutine.
- Pressure providers other than the pod-state cache, and NaN scores.
- The tracker's SetLoaded, SetPodIP and Snapshot, which serve its tests, and AnyPodHasLoaded.
- The width of the sighting counters (no run reaches it) and the rounding of floating-point scores.
- API calls that take effect after they have returned an error: in RouterProtocol a failing call has taken
  effect by then or never does. A crash falls between two steps. A nil Kubernetes client, changes of namespace
  and two replicas with one name are outside RouterProtocol.
- Panics in the loader between registration and cleanup.
- What warm-model discovery finds: it may rewrite the router's models map at any time.
- The pod lookup on the best node and the pod-to-node map of the scorer, which are parameters or outcomes.
- VRAM scraping and discovery, the pool manager, the controller, telemetry and wiring: easy members only.
- ConcurrentLoadLimit, which no code enforces.
