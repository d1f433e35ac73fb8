# Verified model of the devstack daemon's core

devstack starts the services of a development stack, gives them ports, follows their logs and shows them in a
dashboard. This project models the parts of it where loops, shared state or concurrency have to agree with something
much simpler, and proves that they do, or exactly when they do.

| file | models |
|---|---|
| `Planner.dfy` | start order by Kahn's algorithm, the dependency closure of requested services, dependency validation |
| `PortRegistry.dfy` | the shared port registry and its all-or-nothing transactions, by any number of daemons |
| `PortOwners.dfy`, `RunPorts.dfy` | owner strings, and what transactions do to the ports one run holds |
| `RunRecords.dfy`, `RunLifecycle.dfy` | the port ledger of a run through first launch, refresh, down and kill |
| `RunStates.dfy` | run and service states, the events they emit, a mirror fed by events only, reconciliation |
| `LogLines.dfy`, `RecentErrors.dfy`, `RecentErrorsCache.dfy` | the backward chunked scan for recent error lines and its cache |
| `LogTail.dfy` | the log-following cursor |
| `CaptureLog.dfy` | the bounded capture log with its drop counter, and captured bodies |
| `SearchParser.dfy`, `SearchScanning.dfy`, `SearchRoundTrip.dfy`, `SearchEdits.dfy` | the dashboard's search bar: parser, printer, round trip, edits |
| `SourceBatches.dfy` | packing of source log files into ingest batches |
| `EnvVars.dfy` | `$NAME` and `${NAME}` expansion |
| `Common.dfy` | shared vocabulary and sequence facts |

What the source updates in place is a class here (`PortReservationRegistry`, `RegistryFile`, `Daemon`, `RunRecord`,
`LogTailCursor`, `CapturedBody`), and its loops are loops. Each method's contract ties it to a function of the old
state; the theorems are about those functions, about whole sequences of steps, or about the method itself.
Concurrent parts (registry, cache, log tail, capture log) are state machines over their atomic steps, and the theorems
hold for every interleaving. Answers of the operating system, of units, tasks, checks and templates are inputs. Before
every one of its own registry transactions a run's command also meets whatever others did meanwhile (`Turn.others` in
`RunLifecycle.dfy`): any transactions for other runs and for globals, and the port syncs that other runs' commands make,
which act under this run's owner strings for every port a manifest of this run has listed. What those syncs take back
is accounted for separately (`back`, `takebacks`), and is always among the claims that a sync during the command names
and a manifest of the run lists (`SyncedBetween`, `ExposedBy`); where no sync names a listed claim (`Silent`) it is nothing.

## Where the code does less than one would expect

These are proved as exact conditions or as concrete runs.

- **A run can hold ports after `down` or `kill`.** Any other run's `up` or refresh syncs reservations from all manifests
  on disk. If that falls between a release and the write of the stopped manifest, the released port is taken back.
  `RunPorts.SyncTakesBack` and `RunRecords.SlippedSyncTakesBack` are the failing run; `RunLifecycle.Daemon.Down`, `Kill`
  and `UpThenStop` say that what is left is exactly what was taken back, that this is among the listed claims which
  syncs during the command name, and that it is nothing when no such sync names one.
- **A refresh can leak ports of removed services.** It releases them first, and then syncs reservations from the
  manifest on disk, which still lists those services and takes their ports again. `RunLifecycle.Daemon.RefreshAtRest`
  gives the exact condition in terms of the old records, the new configuration and what such syncs took back. It also
  gives the consequence: a live run's refresh is refused before anything is launched when a service asks for a fixed port
  that is on record for another one, so services with fixed ports can be neither renamed nor swapped.
- **A refresh whose init task fails keeps the ports it replaces** (the other part of the same condition).
- **A refresh whose launch fails gives up recorded backend ports** of services that are no longer captured and were not
  launched again: `RunRecords.FailedLiveRefreshCovers`.
- **A failed read of a log is cached as an empty answer**: `RecentErrorsCache.StepKeepsCoherence`, `RecentErrorsCache.FailedReadIsCached`.
- **A failed length query makes the log tail start over** and emit lines twice: `LogTail.FailedStatRestarts`, with the exact
  conditions in `LogTail.RestartIsExact` and `LogTail.RestartInMidLine`.
- **Reconciling with a stale status can stop a run without an event**: `RunStates.StepReplays`, `RunStates.StaleStatusSplitsMirror`.
- **A stopped run does not always stay stopped under reconciliation**; one without services is set running: `RunStates.ReconcileStopped`.
- **Printed search text does not always parse back**: `SearchRoundTrip.RoundTrip` is the exact condition, on the values
  and on the free text. Removing a token can turn quoted free text into a token (`SearchEdits.RemoveCanCreateToken`), and
  removing one that is not there can change another (`SearchEdits.RemoveMissingCanChange`).

## Model

| member | source | states |
|---|---|---|
| Planner.TopoSort | src/config/plan.rs:73-122 | succeeds exactly when the dependency graph on the map's keys has no cycle, self-dependencies and repeated dependencies included; the order then lists every service once, each after its dependencies |
| Planner.BuildGraph | src/config/plan.rs:77-92 | the degrees count each service's listed dependencies with repetition and the edge lists mirror them |
| Planner.FinishService | src/config/plan.rs:103-113 | lowering the dependents of a finished service keeps "degree = unfinished dependencies" and "zero = scheduled once" |
| Planner.OrderedIsAcyclic | src/config/plan.rs:115-119 | a dependency-first order of all services rules out every cycle |
| Planner.StuckSetHasCycle | src/config/plan.rs:115-119 | a non-empty set in which everything depends on a member contains a cycle |
| Planner.StuckIsCyclic | src/config/plan.rs:115-119 | when the queue runs dry too early the services never scheduled contain a cycle |
| Planner.FilterTo | src/config/plan.rs:40-70 | fails exactly when a name reached from the targets is not a service; otherwise keeps the least set that contains the targets and is closed under dependencies, in plan order |
| Planner.KeptIsTopoOrder | src/config/plan.rs:60-69 | the plan order restricted to a closed set is a complete dependency-first order of that set |
| Planner.ValidateDeps | src/config/validate.rs:16-41 | accepts exactly the configs in which every stack's dependencies are services of that stack and acyclic |
| Planner.ValidatedReachesUnknown | src/config/validate.rs:30-40 | in a validated stack the closure fails exactly when a target itself is unknown |
| Planner.StackPlanFiltered | src/config/plan.rs:8-29 | succeeds exactly for a known, acyclic stack from whose requested services only services are reached; its order is a dependency-first order of what it keeps |
| PortRegistry.RefusedOnlyByLiving | src/port.rs:134-162 | dead daemons' entries never stand in the way: a reservation is refused for another's entry exactly when that entry's daemon is alive and its owner another |
| PortRegistry.UnavailableOnlyWhenBound | src/port.rs:134-162 | a reservation is refused as unavailable exactly when availability is asked for, the port cannot be bound and no living daemon's entry holds it; it succeeds otherwise unless another living owner holds the port |
| PortRegistry.ReleaseRefusedOnlyByLiving | src/port.rs:73-88 | a release is refused exactly when another living owner holds the port, and takes just that entry away otherwise |
| PortRegistry.NewEntryWasFree | src/port.rs:47-162 | a port newly entered could be bound then: a fixed one was free, any other one had just been offered by the system; reservations that do not ask for availability are the exception |
| PortRegistry.FixedWereFree | src/port.rs:47-71 | an allocation grants a fixed port only when it is free, unless its owner held it before |
| PortRegistry.FirstBlocked | src/port.rs:47-71 | an allocation fails exactly when a request, after those before it were granted, meets a foreign entry, a port in use, or offers that are all reserved, and with that error |
| PortRegistry.PortReservationRegistry.ReserveSpecific | src/port.rs:134-162 | one's own entry is accepted, another's refused, a free port must be bindable when asked; the entry is the only change, and a refusal changes nothing |
| PortRegistry.PortReservationRegistry.AllocateEphemeral | src/port.rs:90-109 | takes the first offered port nobody holds |
| PortRegistry.PortReservationRegistry.ReleasePort | src/port.rs:73-88 | removes one's own entry, tolerates a missing one, refuses another's |
| PortRegistry.PortReservationRegistry.AllocateAll | src/port.rs:47-71 | allocates in order, the first failure deciding the outcome |
| PortRegistry.RegistryFile.ReservePort | src/port.rs:111-132 | one locked transaction: clean, reserve, write back only on success; a failure leaves the stored registry exactly as it was, stale entries included |
| PortRegistry.RegistryFile.ReserveEphemeralPort | src/port.rs:119-121 | one locked transaction for any free port; a failure leaves the stored registry exactly as it was, stale entries included |
| PortRegistry.RegistryFile.ReleasePort | src/port.rs:73-88 | one locked transaction for a release; a failure leaves the stored registry exactly as it was, stale entries included |
| PortRegistry.RegistryFile.AllocatePorts | src/port.rs:47-71 | one locked transaction for all services of a run; a failure leaves the stored registry exactly as it was, stale entries included |
| PortRegistry.ActKeeps | src/port.rs:47-162 | an action only adds entries under owners it names and for its own daemon, and only a release removes one |
| PortRegistry.LiveEntryKept | src/port.rs:47-221 | no transaction of any daemon overwrites, re-owns or removes a living daemon's entry, except a release naming its port and owner |
| PortRegistry.LiveEntryKeptThroughout | src/port.rs:47-221 | the same over any sequence of transactions by any number of daemons |
| PortRegistry.AllGranted | src/port.rs:47-71 | each request gets what its configuration asks for, held by its own owner |
| PortRegistry.NewEntriesGranted | src/port.rs:47-71 | an allocation adds no entry that was not granted to a request |
| PortRegistry.AllocationIsDistinct | src/port.rs:47-71 | the ports of a successful allocation are pairwise distinct, each stored under its service's owner |
| PortOwners.LastColon | src/app/runtime.rs:337-347 | a joined owner string is split uniquely at its last colon |
| PortOwners.PortOwnerInjective | src/app/runtime.rs:337-339 | public owners of colon-free service names coincide only for the same run and service |
| PortOwners.BackendOwnerInjective | src/app/runtime.rs:341-343 | the same for backend owners |
| PortOwners.RolesMeet | src/app/runtime.rs:337-343 | exactly when a public owner of one run is a backend owner of another |
| PortOwners.RolesDisjointInRun | src/app/runtime.rs:337-343 | within one run public and backend owners never coincide |
| PortOwners.RolesDisjoint | src/paths.rs:18-34 | with run ids and service names valid as path components they never coincide across runs |
| PortOwners.GlobalsApart | src/app/runtime.rs:337-347 | a global's owner is never a run's owner |
| RunPorts.OneClaimPerPort | src/app/runtime.rs:337-343 | a port is held by a run for at most one service and role |
| RunPorts.ClaimAfter | src/port.rs:47-191 | what any transaction of any daemon can do to one port a run holds |
| RunPorts.OtherRunsAreForeign | src/app/runtime.rs:337-347 | what any daemon does under the owners of other runs and of globals names no owner of a run with a valid id; port syncs, which act under this run's owners, are accounted for beside it |
| RunPorts.SyncTakesBack | src/app/runtime.rs:352-386 | for every held port: a release followed by another run's sync leaves it held, and that sync is not foreign to the run |
| RunRecords.SlippedKeeps | src/app/runtime.rs:349-419 | over any sequence of others' transactions and syncs a run loses nothing, and gains only claims that one of these syncs names and some manifest of it has listed |
| RunRecords.SlippedSyncTakesBack | src/app/commands/runs.rs:737-772 | a sync from a manifest that lists a port, coming after its release, is enough for it to be held again |
| RunPorts.OwnReserve | src/port.rs:111-162 | a run's reservation adds exactly that port in that role, or nothing |
| RunPorts.OwnReserveAnswer | src/port.rs:111-162 | a run's reservation of a port it holds for that service succeeds; where availability is asked for and it succeeds the port was held or free; it fails only for another living owner's entry or for want of availability |
| RunPorts.OwnEphemeral | src/port.rs:90-121 | a granted port is one the run did not hold, and is all that is added |
| RunPorts.OwnEphemeralAnswer | src/port.rs:90-121 | a request for any port is refused exactly when every port on offer is reserved by a living daemon |
| RunPorts.OwnRelease | src/port.rs:73-88 | after a release the port is not held in that role, and if it was held the release succeeds |
| RunPorts.OwnAllocate | src/port.rs:47-71 | allocation for a run's services adds exactly the public ports it answers, or nothing |
| RunPorts.SyncedPortBlocksRename | src/app/runtime.rs:349-384 | for three transactions in a row: a release, a sync that takes the port back, and a reservation by another service, which fails and would succeed without the sync |
| RunRecords.DroppedIsObsolete | src/app/commands/runs.rs:1030-1058 | with the new ports held, the two conditional releases remove exactly the old ports the new ones do not renew |
| RunRecords.GivenUpParts | src/app/commands/runs.rs:162-199 | the three conditional releases of the clean-up as a set of ports |
| RunRecords.FirstLaunchClaims | src/app/commands/runs.rs:202-235 | cleaning up after a first launch leaves exactly what the services recorded so far claim |
| RunRecords.RefreshLeftovers | src/app/commands/runs.rs:489-535 | what a completed refresh of a balanced run holds beyond its plan: removed services' ports and replaced ports of failed inits, and nothing the plan claims is among them |
| RunRecords.FailedRefreshCovers | src/app/commands/runs.rs:155-235 | after a refresh whose launch failed the clean-up has left all recorded ports exactly when every recorded service not launched again was planned to keep its backend port |
| RunRecords.FailedLiveRefreshCovers | src/app/commands/runs.rs:155-235 | for a live run that is the case exactly when every such service with a backend port is still captured by its new configuration |
| RunRecords.ObsoleteIsLost | src/app/commands/runs.rs:1030-1058 | in a live refresh a service has a port replaced exactly when its configuration names another port or none, or no longer captures it |
| RunRecords.LeftoverIff | src/app/commands/runs.rs:489-535 | a completed refresh of a live run leaves nothing over exactly when no removed service had a port and no service with a failed init is to lose one |
| RunRecords.ResolvedIsDistinct | src/app/commands/runs.rs:115-153 | ports all held under their services' owners are pairwise distinct over all services and both roles |
| RunRecords.BackendIff | src/config/model.rs:222-236 | a plan gives a service a backend port of its own exactly when it has a public port, its scheme is http or left out, capturing is not switched off, and it is asked for, by the option, by an http scheme or by an http readiness check |
| RunRecords.LaunchedInOrder | src/app/commands/runs.rs:1111-1125 | with the planner's order, each service whose launch was begun had all its dependencies launched before it, and the services launched are closed under dependencies however far the launch got |
| RunRecords.KeptService | src/app/commands/runs.rs:840-854 | a prepared service is left untouched exactly when not forced, on record as starting or ready, and of the same hash; its ports then stay |
| RunRecords.NothingLeftBroken | src/app/commands/runs.rs:1003-1028 | after a refresh no service is stopped or degraded, and a failed one has just been attempted again |
| RunRecords.AllocationAnswers | src/port.rs:47-71 | each service gets what fits its configuration, and a fixed port only when it is free or already held for it |
| RunLifecycle.Daemon.ReleaseServicePort | src/app/runtime.rs:421-426 | the public port is not held afterwards, and the release of a held port succeeds |
| RunLifecycle.Daemon.ReleaseBackendPort | src/app/runtime.rs:428-440 | the same for a backend port that differs from the public one |
| RunLifecycle.Daemon.Ask | src/app/commands/runs.rs:252-266 | what others do between two steps takes nothing from the run; what is added is counted, is among the listed claims that a sync in between names, and is none if the run holds all its manifests list |
| RunLifecycle.Daemon.SyncFromDisk | src/app/runtime.rs:349-419 | the run holds in addition what its manifest on disk lists, if that is restorable; availability is not asked for, so the sync fails only by another's answer or when another living owner holds a listed port |
| RunLifecycle.Daemon.AllocatePorts | src/app/commands/runs.rs:271-274 | every service has the port its configuration asks for, held under its public owner, a fixed one reported free in that transaction or held for that service before, or nothing changed |
| RunLifecycle.Daemon.Reserve | src/app/runtime.rs:352-386 | adds exactly that port or nothing; a port held for the service is always granted; availability is looked at exactly when asked for, and a refusal names what stands against it |
| RunLifecycle.Daemon.ResolvePort | src/app/launch/prepare.rs:245-272 | a fixed port that is new to the service must be free, one it has on record need not be; a refusal means another living owner, or a new port in use |
| RunLifecycle.Daemon.ResolvePortsForRefresh | src/app/launch/prepare.rs:235-286 | on success exactly the answered public ports are held in addition; each fits its configuration, a service that leaves its port open keeps the one it had when the run is live, and every fixed port new to its service was reported free, unless the service held it or a manifest lists it for it; a failure names the service and what stands against its port |
| RunLifecycle.Daemon.ResolveListenPorts | src/app/commands/runs.rs:115-153 | a captured service listens on a held port of its own that is not its public port, the previous one when the run is live and it still can; every other service listens on its public port; it fails only when another living owner holds a previous backend port or no port is on offer |
| RunLifecycle.Daemon.ReleaseUnpreserved | src/app/commands/runs.rs:155-200 | exactly which ports the clean-up gives up, whatever single releases answer |
| RunLifecycle.Daemon.FinishResources | src/app/commands/runs.rs:349-442 | failing globals or environment give the new ports up; success adds exactly the backend ports |
| RunLifecycle.Daemon.NewResources | src/app/commands/runs.rs:257-347 | for a fresh run: on success it holds exactly a fitting, pairwise distinct choice of ports; on failure nothing, unless a listen port failed |
| RunLifecycle.Daemon.RefreshResources | src/app/commands/runs.rs:349-442 | on success the run holds in addition the manifest's ports and a fitting, pairwise distinct choice of ports, which for a live run keeps what can be kept |
| RunLifecycle.Daemon.Persist | src/app/runtime.rs:141-190 | on success the manifest lists the records, restorable unless stopped; on failure it is the old one, or already the new one when only the daemon state written after it failed |
| RunLifecycle.Daemon.LaunchService | src/app/commands/runs.rs:972-1096 | a service stays untouched, with ports and state, exactly when not forced, on record as starting or ready, and of the same hash; otherwise its init decides whether a start is attempted and the start and the wait decide its state; the record has the planned ports and the prepared hash whatever happens after preparation; old ports not renewed are given up exactly when a start was attempted |
| RunLifecycle.Daemon.LaunchServices | src/app/commands/runs.rs:1099-1128 | the services launched are the first of the plan's order, however far the loop gets, and only the last may be without a record; the loop ends early only when that one was not prepared, had a release refused or did not become ready; which of them were attempted, their states and ports follow from the records, and so do the held ports unless a release was refused, which cannot happen when the old ports were held |
| RunLifecycle.Daemon.LaunchAll | src/app/commands/runs.rs:616-633 | launch, clean-up on failure, manifest on success; what is held after a failure is stated when the old ports were held before |
| RunLifecycle.Daemon.Up | src/app/commands/runs.rs:568-634 | from the moment a run is recorded it holds exactly its records' ports, however far its launch got; services are launched in the plan's order with their dependencies first, and every fixed port was reported free; if it fails earlier, other than over a listen port, it holds nothing; other runs' syncs never change that |
| RunLifecycle.Daemon.UpPlanned | src/app/commands/runs.rs:568-634 | a cyclic stack is refused before anything happens; however far the launch of any other gets, dependencies were launched first and what is on record is closed under dependencies; a launch that gets through has launched all services in a dependency-first order |
| RunLifecycle.Daemon.RemoveMissing | src/app/commands/runs.rs:489-535 | services the stack no longer has lose record and ports, and that succeeds when the ports are held |
| RunLifecycle.Daemon.PrepareRefresh | src/app/commands/runs.rs:636-690 | what is held when the launch of a refresh starts: the old ports without the removed services', the manifest's ports, the plan's |
| RunLifecycle.Daemon.Refresh | src/app/commands/runs.rs:636-708 | exactly what is held, apart from what other runs' syncs took back: after a completed refresh, which holds every recorded port, and, when every recorded port was held before, after one whose launch failed; services are launched in order, dependencies first; afterwards none is stopped or degraded and a failed one was attempted; fixed ports new to a service were free as for ResolvePortsForRefresh; what was taken back is bounded by the syncs during the refresh |
| RunLifecycle.Daemon.RefreshAtRest | src/app/commands/runs.rs:489-708 | from a balanced run, a completed refresh is balanced if and only if nothing that syncs took back is left (surely so when no sync meanwhile names a listed claim) and either the run was stopped, or no removed service had a port and no service with a failed init loses one by its configuration; a live run whose new configuration asks for a fixed port on record for another service, or for its own backend port, is never launched; after a failed launch of a live run the run keeps all recorded ports exactly when the services not launched again stay captured |
| RunLifecycle.Daemon.Down | src/app/commands/runs.rs:710-782 | succeeds in releasing whenever every recorded port is held; a balanced run then holds exactly what other runs' syncs took back meanwhile, all of it listed claims that syncs during the call name, and nothing when these name none; purging forgets it |
| RunLifecycle.Daemon.Kill | src/app/commands/runs.rs:784-838 | the same for kill |
| RunLifecycle.Daemon.UpThenStop | src/app/commands/runs.rs:568-838 | wherever a first launch stops, short of a failed listen port, a following down or kill finds everything it must release; what is then held was taken back by other runs' syncs, which is nothing when no sync from the beginning on names a listed claim |
| RunStates.RunRecord.SetService | src/stores/runs.rs:104-115 | an event exactly when the state is another one |
| RunStates.RunRecord.RecomputeRunState | src/stores/runs.rs:117-146 | the run takes the aggregate of its services, with an event on change; a stopped run stays |
| RunStates.FoldFlags | src/stores/runs.rs:121-138 | the two loop flags mean "some service is degraded or failed" and "all are ready" |
| RunStates.RunRecord.MarkServiceReady | src/app/launch/readiness.rs:146-177 | the ready step of the state machine |
| RunStates.RunRecord.MarkServiceFailed | src/app/launch/readiness.rs:179-205 | the failure step |
| RunStates.RunRecord.RecoverHealth | src/app/launch/readiness.rs:284-311 | recovery undoes only a degradation that health checks caused |
| RunStates.RunRecord.DegradeHealth | src/app/launch/readiness.rs:312-341 | only a ready service is degraded by health checks |
| RunStates.RunRecord.GiveUpHealth | src/app/launch/readiness.rs:387-412 | the restart limit fails the service |
| RunStates.RunRecord.RestartService | src/app/commands/restart.rs:31-176 | a restart is its begin step followed by exactly one ready or failed step when it is waited for; a unit that does not restart leaves the service starting |
| RunStates.RunRecord.StoreLaunchResult | src/app/commands/runs.rs:927-963 | replaces the record, with an event exactly when the service was unknown or in another state |
| RunStates.FailedInitDegrades | src/app/commands/runs.rs:897-925 | a failed init task degrades a live run at its next recomputation, whatever its other services do, and changes none of them |
| RunStates.RevivedFollowsServices | src/app/commands/runs.rs:537-558 | no recomputing step moves a stopped run until it is revived; from then on the same step leaves it at the aggregate of its services |
| RunStates.RunRecord.RemoveMissing | src/app/commands/runs.rs:503-517 | removed services vanish without events, and the run is recomputed |
| RunStates.RunRecord.Stop | src/app/commands/runs.rs:743-761 | run and services are stopped, one event per service that was not |
| RunStates.RunRecord.ReconcileWith | src/app/commands/reconcile.rs:11-44 | writes a status that may be stale into the record, event by event |
| RunStates.BuildStatus | src/app/queries/status.rs:60-131 | on a live run a service is failed exactly when it was, or was starting with a unit that is in state failed, hit its start limit, or is inactive with a result other than success; degraded exactly when it was, or was ready with such a unit; nothing else changes and a failure text on record stays; the run is the aggregate, or its own state when that says nothing |
| RunStates.ReconcileJudges | src/app/commands/reconcile.rs:6-49 | reconciling with a status of the record writes exactly that judgement into it |
| RunStates.StepReplays | src/app/commands/reconcile.rs:35-40 | after one step a mirror fed by the events agrees with the store, except exactly after a reconciliation that stops the run silently |
| RunStates.EventReplay | src/stores/runs.rs:104-146 | over every sequence of steps without a silent stop the mirror has the store's run state and every live service's state |
| RunStates.EventReplayFromCreation | src/app/runtime.rs:22-63 | the same from the creation event on, whatever the mirror held before |
| RunStates.FreshStatusIsNotSilent | src/app/queries/status.rs:125-131 | a status taken from the record itself never stops a run silently |
| RunStates.StaleStatusSplitsMirror | src/app/commands/reconcile.rs:35-40 | a run that is launched and stopped, whose service is then restarted and which a status of the run as it is sets running, stops again when a status taken while it was stopped is written back; the mirror agrees before that step and disagrees after it |
| RunStates.RecomputedIsAggregate | src/stores/runs.rs:117-146 | steps that recompute leave the run stopped or at the aggregate of its services |
| RunStates.RunMoves | src/stores/runs.rs:117-146 | which steps stop a run, revive it or leave its state alone; all others make it degraded exactly when a service is degraded or failed and running exactly when all are ready |
| RunStates.ServiceMoves | src/app/launch/readiness.rs:146-412 | for every state, which steps can bring a service there and from where |
| RunStates.StepSettles | src/app/launch/readiness.rs:146-412 | those steps do bring it there, with the failure text that belongs to them, and none touches another service |
| RunStates.CleanThroughout | src/app/launch/readiness.rs:146-412 | over every sequence of steps with clean statuses, no starting or ready service carries a failure text |
| RunStates.ReconcileIdempotent | src/app/commands/reconcile.rs:6-49 | a second reconciliation under the same unit statuses changes and emits nothing |
| RunStates.ReconcileNoOp | src/app/commands/reconcile.rs:6-49 | with no failed-looking unit and the run at its aggregate the first one does nothing either |
| RunStates.ReconcileStopped | src/app/queries/status.rs:125-131 | a stopped run keeps its services, and stays stopped exactly when none is broken and not all are ready |
| RecentErrors.PushRecentLine | src/app/queries/status.rs:180-201 | an accepted line joins the newest-first list unless the limit is reached |
| RecentErrors.MentionsIff | src/app/queries/status.rs:185-187 | a line is considered exactly when the bytes of the stream name stand anywhere in it |
| LogLines.SegmentsMean | src/app/queries/status.rs:218-231 | the segments hold no newline and, put together with newlines, are the text |
| RecentErrors.ScanChunk | src/app/queries/status.rs:218-231 | cutting a chunk at its newlines keeps the answer determined by the rest of the file and the lines found |
| RecentErrors.RemainingStep | src/app/queries/status.rs:218-231 | moving one segment from the unread text to the found lines changes no answer |
| RecentErrors.RecentLinesFromFile | src/app/queries/status.rs:203-243 | for every content, limit and chunk size of at least one: the last accepted newline-separated segments, at most the limit, in file order |
| RecentErrorsCache.StepKeepsCoherence | src/app/queries/status.rs:245-297 | a step keeps cached and confirmed answers equal to fresh ones, except exactly a re-check that confirms the empty answer of a failed read where the right one is not empty |
| RecentErrorsCache.CacheCoherence | src/app/queries/status.rs:245-297 | over every interleaving of appends and readers without a failed read, an entry is a fresh scan of the file at its length |
| RecentErrorsCache.HitIsFresh | src/app/queries/status.rs:250-275 | over every such interleaving a cache hit is the answer of an uncached scan of the file as the reader saw it |
| RecentErrorsCache.FailedReadIsCached | src/app/queries/status.rs:283-297 | a concrete run that caches the empty answer for a file with error lines |
| LogTail.CollectEvents | src/daemon/log_tailing.rs:180-196 | one event per complete line that is not empty, in order |
| LogTail.EventMeans | src/daemon/log_tailing.rs:199-204 | a line gives an event exactly when something is left after its trailing returns and newlines and its colour codes are removed, and that is the event |
| LogTail.TrimLineEndMeans | src/daemon/log_tailing.rs:199-204 | exactly the returns and newlines at the end of a line are removed |
| LogTail.LogTailCursor.ReadNewLogEvents | src/daemon/log_tailing.rs:155-197 | delivers up to the last newline and moves just past it; a shrunken file starts over, even when it cannot be read then |
| LogTail.ReadIsExact | src/daemon/log_tailing.rs:155-197 | a read emits the lines from the cursor to the last newline and leaves no newline behind it |
| LogTail.StepIsExact | src/daemon/log_tailing.rs:155-197 | appends, length queries and reads each keep what was emitted equal to the lines passed |
| LogTail.ExactlyOnce | src/daemon/log_tailing.rs:130-197 | under every interleaving of appends and polls the events are exactly those of the complete lines between first and current cursor, which is at its start or just past a newline |
| LogTail.NothingLeftBehind | src/daemon/log_tailing.rs:171-179 | after every such interleaving that ends with a read, no newline lies beyond the cursor |
| LogTail.DeliveredEvents | src/daemon/log_tailing.rs:155-197 | a read delivers every complete line behind its offset |
| LogTail.FailedStatRestarts | src/daemon/log_tailing.rs:159-164 | a failed length query makes the next read emit the whole file again |
| LogTail.RestartIsExact | src/daemon/log_tailing.rs:159-164 | with the cursor at a line start, delivery then stays exactly-once if and only if no line before the cursor gave an event |
| LogTail.RestartInMidLine | src/daemon/log_tailing.rs:130-164 | with the initial cursor in mid-line it does if and only if that line has ended and the file up to its end gives the events of the part behind the cursor |
| LogTail.FailedOpenRestarts | src/daemon/log_tailing.rs:159-166 | a read that fails after such a query makes the next poll start over all the same |
| CaptureLog.StepKeepsInv | src/services/api_capture.rs:758-899 | every step of senders, streams and writer keeps the flow, the handles and the stream flags consistent |
| CaptureLog.Conservation | src/services/api_capture.rs:816-899 | in every reachable state, attempts = queued + in hand + written + refused + counted + taken + reported; written entries are the accepted ones in order |
| CaptureLog.ConservationAtRest | src/services/api_capture.rs:816-899 | between the writer's turns, attempts = queued + written + counter + reported |
| CaptureLog.Drained | src/services/api_capture.rs:845-884 | at the drain flag queue and counter are empty and every event was written in order or reported as dropped |
| CaptureLog.StreamLoggedOnce | src/services/api_capture.rs:758-807 | a response stream is logged exactly once, whether it ends, fails or is dropped, and never while open |
| CaptureLog.NeverClosedUnderSender | src/services/api_capture.rs:816-826 | the channel is never closed while a sender lives |
| CaptureLog.SendOutcome | src/services/api_capture.rs:758-840 | a send is refused exactly when 1024 events are queued, and otherwise appended; no other step attempts one |
| CaptureLog.NothingDropped | src/services/api_capture.rs:816-899 | over every run in which the queue never fills nothing is dropped and no summary is written |
| CaptureLog.SummariesThroughout | src/services/api_capture.rs:845-899 | no summary is ever written for zero drops |
| CapturedBodies.CapturedBody.Append | src/services/api_capture.rs:722-739 | keeps the longest prefix of the whole body that fits, and whether that is all of it |
| CapturedBodies.PrefixAppend | src/services/api_capture.rs:731-739 | the kept prefix does not depend on how the body is cut into chunks |
| SearchParser.ParseQuotedValue | devstack-dash/src/lib/search-parser.ts:21-44 | a value is answered exactly when the text is a quote, each of its characters bare or behind one backslash (quotes and backslashes always behind one), and a closing quote at the end; nothing is answered when there is no such value |
| SearchParser.QuotedMeans | devstack-dash/src/lib/search-parser.ts:21-44 | the same for every text and value: reading undoes every way to write a value between quotes, and only these |
| SearchParser.ScanPart | devstack-dash/src/lib/search-parser.ts:111-134 | a part ends at the first white space that is neither quoted nor escaped |
| SearchScanning.ScanIsFirst | devstack-dash/src/lib/search-parser.ts:111-134 | a part reaches up to the first blank, newline or tab that has an even number of backslashes right before it and an even number of unescaped quotes anywhere before it |
| SearchScanning.TokenIff | devstack-dash/src/lib/search-parser.ts:54-77 | a part is a token with a field, value and negation exactly when it is an optional minus, a name that lower-cases to the field, a colon and a value that is not empty, has no two leading slashes and, when it starts with a quote, is a quoted text of that value |
| SearchParser.ParseSearch | devstack-dash/src/lib/search-parser.ts:104-149 | the scanner loops yield the tokens and free text of the input's parts |
| SearchParser.RemoveToken | devstack-dash/src/lib/search-parser.ts:161-168 | prints the search without its first token with that raw text, or trims |
| SearchParser.ReplaceAllTokens | devstack-dash/src/lib/search-parser.ts:170-189 | prints the search with the field's tokens replaced by one |
| SearchScanning.OpenIsOdd | devstack-dash/src/lib/search-parser.ts:111-134 | the scanner is left inside an escape exactly by an odd number of trailing backslashes |
| SearchScanning.EscapedIsRead | devstack-dash/src/lib/search-parser.ts:21-89 | reading a quoted value undoes escaping, for every value |
| SearchScanning.PrintedBare | devstack-dash/src/lib/search-parser.ts:84-89 | a value is printed bare exactly when it is not empty and holds no white space or quote; otherwise it is printed as a quoted text that reads as that value |
| SearchScanning.PrintedTokenParses | devstack-dash/src/lib/search-parser.ts:54-93 | a printed token parses to its field, value and negation exactly unless its bare value starts with two slashes |
| SearchScanning.PartsOfPrinted | devstack-dash/src/lib/search-parser.ts:95-134 | how the scanner regroups printed parts in front of any text: an open escape swallows the next separator and part |
| SearchRoundTrip.RoundTrip | devstack-dash/src/lib/search-parser.ts:104-153 | for all tokens with legal fields and any free text, print-then-parse gives back fields, values, negations and free text in order if and only if no bare value starts with two slashes, none leaves the escape open before another part, and the free text parses to itself and to no token |
| SearchRoundTrip.SafePrint | devstack-dash/src/lib/search-parser.ts:104-153 | with safe values the re-parse gives the printed tokens followed by whatever the free text parses to |
| SearchRoundTrip.PlainTextIff | devstack-dash/src/lib/search-parser.ts:104-149 | free text parses to itself and to no token if and only if no white space surrounds it, single spaces separate the scanner's parts, and no part is a token or a quoted value |
| SearchRoundTrip.WordsArePlain | devstack-dash/src/lib/search-parser.ts:79-82 | single-spaced words without quotes or backslashes that are no tokens parse to themselves |
| SearchRoundTrip.NoEcho | devstack-dash/src/lib/search-parser.ts:104-149 | no text equals the free text that results when printed text without a token is put in front of it |
| SearchRoundTrip.UnsafeFails | devstack-dash/src/lib/search-parser.ts:104-153 | a single unsafe value changes the parsed tokens or the free text, whatever text follows |
| SearchEdits.TokenSpans | devstack-dash/src/lib/search-parser.ts:104-149 | for every input the spans are ordered and disjoint and cut out the raw texts, and fields are legal and lower-case |
| SearchEdits.ReplaceSurvives | devstack-dash/src/lib/search-parser.ts:170-189 | for every input, re-parsing a replacement gives the other fields' tokens in order, one positive token for the field and the same free text, if and only if the parser accepts the field, the printed values are safe and the free text parses to itself and to no token |
| SearchEdits.RemoveSurvives | devstack-dash/src/lib/search-parser.ts:161-168 | for every input, re-parsing a removal gives the other tokens in order and the same free text, if and only if they are safe and the free text parses to itself and to no token |
| SearchEdits.RemoveCanCreateToken | devstack-dash/src/lib/search-parser.ts:161-168 | a concrete input whose quoted free text becomes a token |
| SearchEdits.RemoveMissingSurvives | devstack-dash/src/lib/search-parser.ts:161-168 | when removing an absent token trims separators, tokens and free text stay if and only if none is trimmed at the end, or the text before ends outside quotes and escapes, or its last part is no token |
| SearchEdits.RemoveMissingCanChange | devstack-dash/src/lib/search-parser.ts:161-168 | a concrete input whose token changes its value otherwise |
| SourceBatches.PriorityBatches | src/daemon/source_ingest.rs:345-375 | skipped and batched files are a permutation of the readable ones, skipped exactly when empty, last written before the limit, or without a known last line and modified before it; the batches are the retained files newest first, well filled, and none could have taken the next one's first file |
| SourceBatches.SortedIsNewestFirst | src/daemon/source_ingest.rs:377-390 | the sort keeps the files and puts newer ones first, same-aged ones in path order |
| SourceBatches.ReadableMeans | src/daemon/source_ingest.rs:377-403 | every source that is a readable file is listed as often as it is given, and nothing else |
| SourceBatches.PackingUnique | src/daemon/source_ingest.rs:345-375 | the packing rules leave no choice: two packings of the same files are equal |
| EnvVars.ResolveEnvVars | src/config/env.rs:5-64 | the character loop replaces each defined reference of the input once |
| EnvVars.IdentityWhenUndefined | src/config/env.rs:5-64 | with no referenced name defined every string, unclosed and lone dollars included, expands to itself |
| EnvVars.TextsOfPieces | src/config/env.rs:5-64 | reading a string into pieces loses nothing |
| EnvVars.PiecesOfTexts | src/config/env.rs:5-64 | reading is the inverse of spelling on unambiguous pieces |
| EnvVars.PiecesReadable | src/config/env.rs:5-64 | every string is read as unambiguous pieces, hence as the only ones that spell it |
| EnvVars.BareMeans | src/config/env.rs:5-64 | behind a dollar without a brace the name is all letters, digits and underscores that follow, or there is none |
| EnvVars.ExpansionOfTexts | src/config/env.rs:5-64 | expansion replaces exactly the defined references and never reads replaced text again |
| EnvVars.ResolveEnvMap | src/config/env.rs:67-71 | values are expanded one by one, keys kept |

## Left out

- Process control, D-Bus, sockets, proxying, terminals and file watching: effects of the operating system; their outcomes are inputs.
- The log index, readiness checks, task running and `apply_prepared_to_runtime`: not part of this model; the last is taken not to change a service's state.
- Rendering of templates and environments, JSON, TOML, YAML, glob patterns and hashing: the watch hash is a free constructor over both ports and everything else, which is to say collision-free.
- Registry file input and output errors, file locking and legacy formats: a transaction reads and writes one stored map.
- PortRegistry.PortReservationRegistry.AllocateEphemeral: the system's offers are a finite list, whose end is a socket error, so that the retry loop ends.
- Key order of ordered maps: maps are enumerated in an arbitrary order, so results hold for the real one.
- Fixed integer widths: in-degrees, byte and drop counters and lengths are unbounded; saturation of batch sizes is modelled.
- RunLifecycle.Daemon.Up: a failing listen-port reservation returns without releasing what was allocated, so nothing is promised then; an existing run of the same stack goes to Refresh, which the caller chooses here.
- RunLifecycle.Daemon.Refresh: says what is held only for refreshes that got past their launch, and for failed launches when every recorded port was held before; the earlier error returns can leave partial reservations.
- RunLifecycle.Daemon.LaunchServices: when a release is refused, which takes a recorded port that was not held, it says nothing about held ports; the same holds for RunLifecycle.Daemon.LaunchAll.
- RunLifecycle.Daemon.RefreshAtRest: a refresh of a stopped run, and the revive step of the run states, need a stop between the lookup of the run and its snapshot, because the lookup skips stopped runs (src/app/runtime.rs:317-331); no other command reaches them, and one command at a time does not.
- RunLifecycle.Daemon.SyncFromDisk: other runs' and globals' manifests are one outcome beside what others do, and the project directory is taken to exist.
- RunLifecycle.Daemon.Valid: service names hold no colon, as path components never do (src/paths.rs:18-34), and one daemon serves a base directory at a time, as its lock ensures (src/daemon/bootstrap.rs:225-242).
- RunLifecycle.Daemon.Persist: commands on one run come one at a time, and its manifest is written only by them; manifest writes that health monitors, reconciliation or restarts of the same run make during a command are not modelled.
- RunLifecycle.Daemon.LaunchService: watcher and capture handles, and background readiness and health tasks, are left out of the ledger; they change no port.
- Globals' entries in the port maps: they feed only the environment.
- Whether a run is stopped is one flag in the ledger, for a state and a time stamp that are always set and cleared together there.
- RunStates.EventReplay: mutation and emission are one step; events reordered after the lock is released are not covered.
- Counters and timing of the health monitor, and uptime and health statistics of the status: they decide when its three state changes happen, which is an input here.
- LogTail.ExactlyOnce: one log file at a time, append-only; a truncation that regrows past the cursor between polls is not covered.
- Subscriber counts of the log tail registry, log attribute parsing and `count_complete_lines_up_to`: each says no more than its own text.
- RecentErrors.RecentLinesFromFile: the test that classifies a line is an arbitrary function of its bytes after the substring check for the error marker.
- RecentErrorsCache.CacheCoherence: the log exists throughout and only grows; a missing log, which drops its entry and answers nothing, is not modelled.
- CaptureLog.Conservation: failing writes of the log file are not modelled; an entry handed to the file counts as written.
- SearchRoundTrip.RoundTrip: characters are Unicode scalar values and lower-casing is exact only where the result can be a legal field.
- SearchEdits.RemoveMissingSurvives: trimmed white space that the scanner does not separate parts by, such as a no-break space, is not covered.
- SourceBatches.SortedIsNewestFirst: paths are compared through an abstract rank.
- Checks of config validation other than dependencies, planning of globals, task and wire structures, dashboard components and command output.
