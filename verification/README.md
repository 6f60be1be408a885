# Parking services: a model in Dafny

This project models five parts of the parking demo and proves properties of them.  All results
hold for every input, every reachable state or every run; schedules, failures of other
services and answers of podman are arbitrary.

- **Zones** (`PointInPolygon`, `ConvexPolygon`, `CollinearVertices`, `EdgeDistance`,
  `ZoneLookup`): the ray-casting test, the distance to a polygon, the zone filter and the
  operator index of the parking fee service, over exact reals.  The great-circle distance and
  the cosine of the latitude are parameters, so the results hold for any of them.
- **Adapters** (`AdapterId`, `StateManager`, `AdapterTasks`, `AdapterHistory`, `Transcripts`,
  `AdapterRecords`, `AdapterWatch`, `ChecksumMismatch`, `FreshInstalls`, `SharedIds`,
  `ForeignEvents`, `SingleRunning`, `CounterRuns`, `AdapterPrograms`): the update service.  The map of adapters is a class.
  `AdapterTasks` is the whole service as a transition system: every locked region and every
  podman call is one step of one of any number of tasks, and the other modules prove what all
  interleavings keep.  `AdapterPrograms` gives the operations in their own imperative form,
  working on the class, and proves that each of them, interrupted by others after every step,
  is a task of that system.
- **Session** (`Session`, `EventLoop`): the event loop of the parking operator adaptor.
- **Responses** (`ResponseStore`): the response store of the cloud gateway, with timers that may
  already have fired and wait for the mutex when they are stopped.
- **Commands** (`CommandPayload`, `LockingService`): the two validators that a lock command
  passes, and the locking service behind them.

`Wrappers` holds the option and result types.

## Where the code does not do what is promised

- Different `name:tag` pairs are said to get different adapter ids
  (rhivos/update-service/src/proptest_cases.rs:48-71).  The exact conditions are
  `AdapterId.PromisedUniqueIff` for the names and tags named there, `AdapterId.OciUniqueIff` for
  all valid image references, `AdapterId.UniqueInIff` for any other grammar, and
  `AdapterId.UniqueIff` for arbitrary strings.
- At most one adapter is said to run (rhivos/update-service/src/proptest_cases.rs:73-78).
  Overlapping installs break this; `SingleRunning.SingleRunningIff` and `BeginExact` give the
  exact condition.
- Every event is said to be an edge of the table at
  rhivos/update-service/src/proptest_cases.rs:11-21.  `transition` refuses no edge.  With ids that
  are not shared and no removal during an install, an install's events about its own adapter
  are edges of the table; a step about another's adapter (of an install stopping its victim, a
  monitor, a removal or an offload cycle) is one if and only if it comes in time, and
  `FreshInstalls.TableIff` says so for whole runs.  `CounterRuns` has a run for each of the four.
  Without these conditions on the schedule, `SharedIds.OwnEventsIff` and
  `ForeignEvents.ForeignEventsIff` are the exact conditions on a state.
- A response is said to cancel the pending timeout (backend/cloud-gateway/store/store.go:27,
  .agent-fox/specs/06_cloud_gateway/design.md:260).  It cancels the registered timer only;
  `ResponseStore.NoneArmedIff` says after which runs no timer is left armed, and
  `ResponseStore.LookupIsAnswer` that a timeout never replaces a response.
- The signal of the session is said always to match it
  (.agent-fox/specs/08_parking_operator_adaptor/design.md:323).  `EventLoop.SignalAgreement` says
  when it does, `EventLoop.SignalExample` shows that it need not.
- A lock or unlock that succeeds is said to write the lock signal
  (.agent-fox/specs/03_locking_service/requirements.md:76-77).  The lock state
  changes even if the publication fails; `LockingService.LockSignalAgreement` says when the two
  agree, `LockingService.LockSignalExample` shows that they need not.
- Every command but malformed JSON is said to get exactly one response
  (.agent-fox/specs/03_locking_service/design.md:241).  `LockingService.AnsweredIff` says which
  ones do, `LockingService.UnansweredExample` shows one that does not.

## Model

| member | source | states |
|---|---|---|
| `PointInPolygon.Test` | backend/parking-fee-service/geo/geo.go:14-37 | the loop with its trailing index decides the parity of the crossings along the closed walk, and false below three vertices |
| `PointInPolygon.CrossesBySide` | backend/parking-fee-service/geo/geo.go:27-30 | the division in the crossing test is gone: an upward edge is crossed exactly by points strictly left of it, a downward edge by points strictly right of it |
| `PointInPolygon.CrossesSymmetric` | backend/parking-fee-service/geo/geo.go:27-30 | an edge is crossed in one direction exactly when it is crossed in the other |
| `PointInPolygon.CrossingsConcat` | backend/parking-fee-service/geo/geo.go:20-35 | the parity of two paths joined at a vertex is the exclusive-or of their parities |
| `PointInPolygon.ChordAdditivity` | backend/parking-fee-service/geo/geo.go:14-37 | for any polygon, any chord and any point: inside the whole if and only if inside exactly one of the two pieces |
| `PointInPolygon.RotationInvariant` | backend/parking-fee-service/geo/geo.go:14-37 | the answer does not depend on the vertex the list starts with |
| `PointInPolygon.ReversalInvariant` | backend/parking-fee-service/geo/geo.go:14-37 | the answer does not depend on the direction of the vertex list |
| `PointInPolygon.TranslationInvariant` | backend/parking-fee-service/geo/geo.go:14-37 | moving point and polygon together changes nothing |
| `PointInPolygon.InsideBoundingBox` | backend/parking-fee-service/geo/geo.go:20-36 | a point reported inside lies in the half-open bounding box of the vertices, whatever the polygon |
| `ConvexPolygon.TriangleInside` | backend/parking-fee-service/geo/geo.go:14-37 | for a counterclockwise triangle and every point of the plane: inside if and only if left of all three edges, points on an edge being decided by the half-open rule |
| `ConvexPolygon.FanOrder` | backend/parking-fee-service/geo/geo.go:14-37 | seen from its first vertex, the other vertices of a strictly convex polygon come in counterclockwise order |
| `ConvexPolygon.FanInside` | backend/parking-fee-service/geo/geo.go:14-37 | the same if-and-only-if for the first vertices of a convex polygon, by adding one triangle of the fan at a time |
| `ConvexPolygon.ConvexInside` | backend/parking-fee-service/geo/geo.go:14-37 | for a strictly convex polygon with any number of vertices and every point, boundary included: inside if and only if left of all edges |
| `ConvexPolygon.ConvexInsideClockwise` | backend/parking-fee-service/geo/geo.go:14-37 | the same for clockwise vertex lists |
| `ConvexPolygon.ConvexInterior` | backend/parking-fee-service/geo/geo.go:14-37 | points strictly left of all edges are inside, points strictly right of some edge are not |
| `ConvexPolygon.SharedEdgeDisjoint` | backend/parking-fee-service/geo/geo.go:20-36 | two convex zones with a common edge never both claim a point, not even one on that edge |
| `CollinearVertices.CrossesSplit` | backend/parking-fee-service/geo/geo.go:27-30 | an edge is crossed if and only if exactly one of its two parts at any point in its middle is |
| `CollinearVertices.InsertedVertex` | backend/parking-fee-service/geo/geo.go:14-37 | a vertex in the middle of an edge changes the answer for no point, whatever the polygon |
| `CollinearVertices.WeaklyConvexInside` | backend/parking-fee-service/geo/geo.go:14-37 | the exact condition for every point holds for convex polygons with collinear vertices, too |
| `EdgeDistance.NearestOnSegment` | backend/parking-fee-service/geo/geo.go:85-109 | the measured point lies on the segment |
| `EdgeDistance.NearestIsOptimal` | backend/parking-fee-service/geo/geo.go:85-109 | no point of the segment is closer in the projection, degenerate segments included; if the segment does not project to one point, no other is as close |
| `EdgeDistance.NearestSymmetric` | backend/parking-fee-service/geo/geo.go:79-112 | the measured point is independent of the direction of the edge if and only if the edge does not project to a single point or is a single point |
| `EdgeDistance.SegmentMeasured` | backend/parking-fee-service/geo/geo.go:79-112 | the distance to a segment is the great-circle distance to a point of it that no other point of it beats in the projection, and to its first end if its ends coincide there |
| `EdgeDistance.DistanceToPolygonEdge` | backend/parking-fee-service/geo/geo.go:56-74 | the result bounds the distance to every edge from below and is attained by one; one vertex and no vertex are the special cases of the code |
| `EdgeDistance.FirstEdgesLeast` | backend/parking-fee-service/geo/geo.go:65-73 | the running minimum is the least of the edges met so far |
| `EdgeDistance.DistanceRotationInvariant` | backend/parking-fee-service/geo/geo.go:56-74 | the distance does not depend on the vertex the list starts with |
| `EdgeDistance.DistanceReversalInvariant` | backend/parking-fee-service/geo/geo.go:56-74 | nor on the direction of the list, provided that no edge with different ends projects to a single point |
| `ZoneLookup.FindMatchingZones` | backend/parking-fee-service/geo/geo.go:118-130 | an id is found if and only if a configured zone of that id has the point inside, or one of its edges, or its only vertex, within the threshold; the result is the filter of the next two rows |
| `ZoneLookup.MatchingPositions` | backend/parking-fee-service/geo/geo.go:118-130 | the ids found are those of the zones that cover the point, each zone once, in configuration order |
| `ZoneLookup.FoundIff` | backend/parking-fee-service/geo/geo.go:118-130 | the if-and-only-if of the row above, of the filter that specifies the loop |
| `ZoneLookup.Store.constructor` | backend/parking-fee-service/store/store.go:13-30 | the index filled by the two loops equals an order-preserving filter per zone id, and the maps hold the last entry of each id |
| `ZoneLookup.Store.GetZone` | backend/parking-fee-service/store/store.go:33-39 | the last configured zone with the id |
| `ZoneLookup.Store.GetOperator` | backend/parking-fee-service/store/store.go:42-48 | the last configured operator with the id |
| `ZoneLookup.LastOperatorIff` | backend/parking-fee-service/store/store.go:42-48 | what the last entry is: a configured operator with the id, and no later one has it |
| `ZoneLookup.LastZoneIff` | backend/parking-fee-service/store/store.go:33-39 | likewise for zones |
| `ZoneLookup.Store.GetOperatorsByZoneIDs` | backend/parking-fee-service/store/store.go:51-62 | for each given zone id in order, the configured operators of that zone in order |
| `ZoneLookup.GatherHits` | backend/parking-fee-service/store/store.go:51-62 | the operators returned are exactly those at the pairs of a given zone id and an operator that names it, each pair once, in the order of the ids and then of the operators |
| `ZoneLookup.Lookup` | backend/parking-fee-service/handler/handler.go:53-55 | an operator is returned if and only if it is configured and names a zone that covers the point; for each matching zone in configuration order its operators come in configuration order: a join without the index |
| `ZoneLookup.LookedUpIff` | backend/parking-fee-service/handler/handler.go:53-65 | the if-and-only-if of the row above, of the join that specifies the lookup |
| `ZoneLookup.GatherIsJoin` | backend/parking-fee-service/handler/handler.go:53-55 | filtering zones and then consulting the index equals the naive join |
| `ZoneLookup.JoinCount` | backend/parking-fee-service/handler/handler.go:53-65 | an operator is returned once for each configured occurrence of it and each matching zone entry of its zone id |
| `ZoneLookup.LookupExact` | backend/parking-fee-service/handler/handler.go:53-65 | with distinct zone ids exactly the configured operators whose zone matches are returned, each as often as it is configured |
| `ZoneLookup.AdapterLookupAgrees` | backend/parking-fee-service/handler/handler.go:72-84 | the adapter endpoint finds every configured operator itself if and only if no two different operators share an id |
| `ZoneLookup.SubsequencePositions` | backend/parking-fee-service/geo/geo.go:118-130 | what the subsequence order of the next row means: increasing positions in the longer list |
| `ZoneLookup.ThresholdMonotone` | backend/parking-fee-service/geo/geo.go:125-127 | raising the threshold only adds operators and keeps the order of the others |
| `AdapterId.ColonsToHyphens` | rhivos/update-service/src/adapter.rs:12-13 | every colon becomes a hyphen, all other characters stay where they are |
| `AdapterId.DerivedId` | rhivos/update-service/src/adapter.rs:6-14 | the id of `name:tag` under any registry prefix is `name-tag` |
| `AdapterId.RoundTrip` | rhivos/update-service/src/adapter.rs:6-14 | if the tag has no hyphen, splitting the id at its last hyphen gives back name and tag |
| `AdapterId.CollisionIff` | rhivos/update-service/src/adapter.rs:6-14 | when two references get the same id |
| `AdapterId.UniqueIff` | rhivos/update-service/src/adapter.rs:6-14 | among all strings of the form `name:tag` no other pair gets the same id if and only if neither part contains a hyphen |
| `AdapterId.UniqueInIff` | rhivos/update-service/src/proptest_cases.rs:48-71 | for any grammar of names and tags: no other pair it allows gets the same id if and only if no hyphen of `name-tag` other than the joining one leaves two legal parts |
| `AdapterId.PromisedUniqueIff` | rhivos/update-service/src/proptest_cases.rs:48-71 | the promise on exactly the names and tags for which it is made: kept if and only if every hyphen of the name that is followed by a letter or digit would leave too long a tag, and every hyphen of the tag that is followed by a letter or digit and preceded by no dot too long a name |
| `AdapterId.OciUniqueIff` | rhivos/update-service/src/proptest_cases.rs:24-28 | the promise on all valid image names and tags: kept if and only if the name has no single hyphen that leaves a tag short enough, and the tag no hyphen with a name before it and a tag after it |
| `AdapterId.OtherCollisions` | rhivos/update-service/src/adapter.rs:6-14 | the registry does not enter the id, and a reference without a tag can have the id of one with a tag |
| `AdapterId.CollisionExample` | rhivos/update-service/src/proptest_cases.rs:48-71 | two references that satisfy the assumptions of the promised uniqueness and get one id |
| `StateManager.StateManager.constructor` | rhivos/update-service/src/state.rs:34-39 | no adapters and no events |
| `StateManager.StateManager.CreateAdapter` | rhivos/update-service/src/state.rs:42-45 | files the entry under its id, replacing any earlier one, and emits nothing |
| `StateManager.StateManager.Transition` | rhivos/update-service/src/state.rs:48-86 | updates state, instant of stopping and error message of a present adapter and emits one event with the state it left; on an absent id an error and nothing else; no edge is refused |
| `StateManager.StateManager.GetAdapter` | rhivos/update-service/src/state.rs:89-92 | the entry of the id, if any |
| `StateManager.StateManager.RemoveAdapter` | rhivos/update-service/src/state.rs:101-109 | removes exactly that id, and answers whether it was there |
| `StateManager.StateManager.GetRunningAdapter` | rhivos/update-service/src/state.rs:112-118 | a running entry if and only if there is one |
| `StateManager.StateManager.GetOffloadCandidates` | rhivos/update-service/src/state.rs:121-133 | exactly the entries that are stopped and have been for at least the timeout, each once |
| `AdapterHistory.EventsDetermineMap` | rhivos/update-service/src/state.rs:42-86 | in every interleaving, the events since the latest creation of an adapter form a chain from the created to the current state, and they tell which adapters are present |
| `AdapterHistory.LogRefinesMapAlways` | rhivos/update-service/src/state.rs:42-86 | the inductive form of the previous row, from any state whose log is faithful |
| `AdapterHistory.LaunchOnlyVerified` | rhivos/update-service/src/install.rs:79-114 | in every interleaving, a container is launched only by an install of that image, for the derived id, after that task saw the image digest equal the requested checksum |
| `AdapterHistory.DropOnlyAfterRemoval` | rhivos/update-service/src/install.rs:171-208 | in every interleaving, an adapter leaves the map only through a task that read its entry and then removed its container and after that its image with success, so every failure leaves the entry in place |
| `AdapterHistory.GatedAlways` | rhivos/update-service/src/offload.rs:14-45 | the invariant behind the two previous rows: what each program counter of each task has already earned |
| `AdapterHistory.OffloadRespectsTimeout` | rhivos/update-service/src/offload.rs:14-21 | an adapter forgotten by an offload cycle was, when that cycle listed it, in the stopped state and had been for at least the timeout |
| `ChecksumMismatch.MismatchHandled` | rhivos/update-service/src/install.rs:83-106 | in every interleaving, an install whose inspection returned another digest never launches a container, and once it has returned it has since reported the failure of its adapter, unless that was absent, and after that tried to remove the image |
| `ChecksumMismatch.AllCheckedAlways` | rhivos/update-service/src/install.rs:83-106 | the invariant behind the previous row |
| `Transcripts.BegunTranscript` | rhivos/update-service/src/install.rs:11-74 | in every interleaving, what an install has done when its request is answered, told from its own facts: the search, the stop of the adapter found with the transition that its outcome calls for, the entry created with image, checksum and job, the transition to downloading |
| `Transcripts.InstallTranscript` | rhivos/update-service/src/install.rs:77-122 | likewise when it has returned: the pull, the inspection and the launch with their arguments, each followed by what its outcome calls for, down to the messages of the failures |
| `Transcripts.MonitorTranscript` | rhivos/update-service/src/monitor.rs:12-43 | a monitor has waited for its container, and then reported it stopped on exit code 0, failed with the code in the message on any other, and failed with the message of a failed wait |
| `Transcripts.RemovalTranscript` | rhivos/update-service/src/install.rs:165-211 | a removal has looked the adapter up, stopped it if it was running, removed container and image and then the adapter, and answered Ok; or it has reported the first call that failed and answered its message; or the adapter was absent and it has done nothing else |
| `Transcripts.CycleTranscript` | rhivos/update-service/src/offload.rs:9-46 | a cycle has, for each adapter listed, in the order of the list, marked it, removed container and image and then the adapter, or reported the first call that failed |
| `Transcripts.AllToldAlways` | rhivos/update-service/src/install.rs:77-122 | the invariant behind the five previous rows: what each task has done at each of its program counters |
| `AdapterRecords.EntriesMatchLog` | rhivos/update-service/src/state.rs:42-86 | in every reachable state an entry has image, checksum and job of its latest creation, the state it last entered since, the instant at which it last stopped and the message with which it last failed |
| `AdapterRecords.SightsAreExact` | rhivos/update-service/src/state.rs:111-133 | whatever a task was shown was right at that moment: an install a running adapter, or none if and only if there was none; a removal its adapter, if present; a cycle an adapter if and only if it was stopped and had been for the timeout, each once |
| `AdapterRecords.RecordsAlways` | rhivos/update-service/src/state.rs:42-86 | the invariant behind the two previous rows |
| `AdapterRecords.FactsAgreeAlways` | rhivos/update-service/src/state.rs:48-109 | in every run, a transition names the state that the adapter left, one that is refused finds it absent, and after a removal it is absent |
| `AdapterRecords.RemovedMeansGone` | rhivos/update-service/src/install.rs:197-210 | in every run, a removal that has answered Ok has removed the image of the entry it was shown, and at a later moment the adapter was absent |
| `AdapterRecords.CycleOutcome` | rhivos/update-service/src/offload.rs:14-45 | in every run, a finished cycle has for each adapter listed removed its image, and at a later moment the adapter was absent; or the removal of its container or image has failed |
| `AdapterWatch.ContainersAreWatched` | rhivos/update-service/src/install.rs:107-121 | in every run, every monitor watches a container that was launched with success, and every install that got its adapter running has left a monitor for it |
| `AdapterWatch.WatchesAlways` | rhivos/update-service/src/install.rs:107-121 | the invariant behind the previous row |
| `AdapterWatch.DecimalReads` | rhivos/update-service/src/monitor.rs:26-32 | the exit code in the message of a failed container is in decimal, without a leading zero, and has a minus sign if and only if it is negative |
| `AdapterHistory.EntriesExplained` | rhivos/update-service/src/state.rs:59-70 | in every reachable state a stopped adapter carries the instant of its latest transition to stopped, and a failed one carries a message |
| `AdapterHistory.TimelyAlways` | rhivos/update-service/src/state.rs:121-133 | the invariant behind the previous row and `OffloadRespectsTimeout` |
| `FreshInstalls.CounterDeterminesState` | rhivos/update-service/src/install.rs:65-122 | with unshared ids and no removal during an install, under any interleaving: before its creation step an install's adapter is absent, then the program counter of the task determines the state, and after the task has returned the adapter is running, stopped, failed or offloading, or gone |
| `FreshInstalls.EventsFollowTable` | rhivos/update-service/src/proptest_cases.rs:11-21 | in such runs every event goes forward, and it is an edge of the documented table if and only if it comes from the own install of the adapter or finds the adapter in time: running when stopped, stopped when offloaded, running or offloading when it fails |
| `FreshInstalls.TableIff` | rhivos/update-service/src/proptest_cases.rs:118-120 | all events of such a run are edges of the table if and only if every victim, monitor, removal and offload step of it is in time, which the step could check before it acts |
| `FreshInstalls.OffloadedStayRetired` | rhivos/update-service/src/offload.rs:14-45 | in such runs an adapter listed by an offload cycle does not run again, however long the cycle takes |
| `FreshInstalls.OwnedAlways` | rhivos/update-service/src/install.rs:65-122 | the invariant behind the previous rows, over all tasks at once |
| `SingleRunning.SingleRunningIff` | rhivos/update-service/src/install.rs:35-53 | from any state: whatever the installs already begun and any other tasks go on to do, at most one adapter runs, if and only if the state is exclusive |
| `SingleRunning.BeginExact` | rhivos/update-service/src/install.rs:35-36 | beginning an install keeps a state exclusive if and only if every install that can still reach running is for the same adapter id |
| `SingleRunning.ExclusiveStep` | rhivos/update-service/src/install.rs:77-122 | every other step of every task, stale monitors and failures included, keeps a state exclusive |
| `SingleRunning.NotExclusiveBreaks` | rhivos/update-service/src/install.rs:35-53 | from a state that is not exclusive, a run of the begun installs to two running adapters |
| `SingleRunning.SingleRunningGuarded` | rhivos/update-service/src/proptest_cases.rs:73-78 | at most one adapter runs at any time in every run in which installs begin only under that condition |
| `SingleRunning.SerialisedIsGuarded` | rhivos/update-service/src/install.rs:77-122 | the condition is met when every earlier install has returned |
| `SingleRunning.OverlapExample` | rhivos/update-service/src/install.rs:35-53 | a run of two overlapping installs that ends with two running adapters |
| `SingleRunning.DriveToRunning` | rhivos/update-service/src/install.rs:39-114 | from any point at which an install can still succeed, a run of its own steps makes its adapter running and touches nothing but its adapter and its victim |
| `CounterRuns.StaleMonitorRun` | rhivos/update-service/src/monitor.rs:12-43 | distinct ids are not enough for the whole table: the monitor of an adapter that an install stopped reports a second transition to stopped |
| `CounterRuns.StaleVictimRun` | rhivos/update-service/src/install.rs:36-53 | an install stops an adapter that has exited since it was found running: its own event is the second transition to stopped |
| `CounterRuns.RemoveStoppedRun` | rhivos/update-service/src/install.rs:187-195 | a removal of a stopped adapter whose container cannot be removed goes from stopped to failed |
| `CounterRuns.OffloadFailedRun` | rhivos/update-service/src/offload.rs:14-21 | an offload cycle marks an adapter that has failed since it was listed |
| `CounterRuns.ReusedIdRun` | rhivos/update-service/src/install.rs:65-97 | with a shared id an install's own event leaves the table |
| `CounterRuns.OffloadRunningRun` | rhivos/update-service/src/offload.rs:14-21 | with a shared id an offload cycle takes a running adapter offline, as it does not look at the state again |
| `SharedIds.OwnEventsIff` | rhivos/update-service/src/install.rs:77-122 | with shared ids, from any state: whatever all tasks go on to do while nobody asks anew for the adapter, no event of an install in flight about its own adapter leaves the table, if and only if the state is guarded: the install moves its adapter no more, or it moves it along the table and no other task can still stop or fail an adapter of that id, or the adapter is gone and nobody is about to create it |
| `SharedIds.CreationIff` | rhivos/update-service/src/install.rs:65-68 | when an install creates its entry, that is so if and only if no other install begun for the id, no install that is to stop it, no monitor, no removal past its lookup and no offload queue still holds the id |
| `SharedIds.GuardedNeverStrays` | rhivos/update-service/src/state.rs:48-86 | every run from a guarded state keeps the events of the install on the table |
| `SharedIds.UnguardedStrays` | rhivos/update-service/src/state.rs:48-86 | from any other state, a run that takes such an event off the table |
| `SharedIds.Kill` | rhivos/update-service/src/monitor.rs:12-43 | any such task, left alone, stops or fails whatever adapter has the id by then |
| `SharedIds.LeftAloneStep` | rhivos/update-service/src/state.rs:48-86 | a step that does not look an adapter up and belongs to no task that can interfere leaves the adapter alone or deletes it |
| `ForeignEvents.ForeignEventsIff` | rhivos/update-service/src/state.rs:48-86 | the same for a task about an adapter that it did not install (a victim, a monitored, removed or listed one), from any state: while nobody looks the adapter up anew, none of its events leaves the table, if and only if its next moves are edges from the present state and no other task can interfere, or the adapter is gone and nobody is about to create it |
| `ForeignEvents.ListingIff` | rhivos/update-service/src/offload.rs:14-21 | for an adapter that a cycle has just listed, that is so if and only if no other task can still stop or fail an adapter of that id |
| `ForeignEvents.VictimIff` | rhivos/update-service/src/install.rs:36-53 | likewise for the victim that an install has just chosen |
| `ForeignEvents.OnTrackNeverStrays` | rhivos/update-service/src/state.rs:48-86 | every run from a safe state keeps the events of the task on the table |
| `ForeignEvents.UnsafeStrays` | rhivos/update-service/src/state.rs:48-86 | from any other state, a run that takes one off the table |
| `ForeignEvents.QueuesAlwaysDistinct` | rhivos/update-service/src/offload.rs:14-15 | no cycle ever holds an id twice, as the rows above assume of the task they are about |
| `AdapterPrograms.UpdateService.InstallAdapter` | rhivos/update-service/src/install.rs:11-74 | the synchronous part as a program: empty arguments are refused without effect; otherwise the answer is as promised, and under any interference what happened is the submission of one new task and a run in which it has got as far as pulling the image, by steps of its own and others only, having done what `Transcripts.BegunTranscript` says |
| `AdapterPrograms.UpdateService.PullVerifyRun` | rhivos/update-service/src/install.rs:77-122 | the background part, for all answers of podman and under any interference, is the install task of the transition system run to its end; so it has done what `Transcripts.InstallTranscript` says |
| `AdapterPrograms.UpdateService.MonitorContainer` | rhivos/update-service/src/monitor.rs:12-43 | likewise for the monitor and `Transcripts.MonitorTranscript` |
| `AdapterPrograms.UpdateService.RemoveAdapter` | rhivos/update-service/src/install.rs:165-211 | likewise for the removal and `Transcripts.RemovalTranscript`; its answer is the one its task ends with, and if that is Ok the image of the entry was removed and the adapter absent at a later moment |
| `AdapterPrograms.UpdateService.RunOffloadCycle` | rhivos/update-service/src/offload.rs:9-46 | likewise for the loop over the candidates and `Transcripts.CycleTranscript`; for each adapter listed the image was removed and the adapter absent at a later moment, or a call has failed |
| `AdapterPrograms.UpdateService.Transition` | rhivos/update-service/src/state.rs:48-86 | a locked region is one step of the task, after which other tasks may act |
| `AdapterPrograms.UpdateService.FindRunning` | rhivos/update-service/src/install.rs:36-36 | the search for a running adapter as one step |
| `AdapterPrograms.UpdateService.FindAdapter` | rhivos/update-service/src/install.rs:171-173 | the lookup as one step, and where the task goes from there |
| `AdapterPrograms.UpdateService.ListCandidates` | rhivos/update-service/src/offload.rs:14-14 | the snapshot as one step |
| `AdapterPrograms.UpdateService.Yield` | rhivos/update-service/src/install.rs:77-79 | what a program relies on while others run: its own task makes no step |
| `AdapterPrograms.OthersLeaveTask` | rhivos/update-service/src/install.rs:77-122 | what every program guarantees, namely steps of its own task only, is what all others rely on: it leaves their tasks as they are |
| `AdapterPrograms.ProgramsKeepLog` | rhivos/update-service/src/state.rs:42-86 | after any such programs the broadcast events tell the contents of the map |
| `Session.Session.Start` | rhivos/parking-operator-adaptor/src/session.rs:50-64 | fills all fields and marks the session active, whatever there was before |
| `Session.Session.Stop` | rhivos/parking-operator-adaptor/src/session.rs:70-78 | clears the session and answers the id of an active one |
| `EventLoop.ProcessLockEvent` | rhivos/parking-operator-adaptor/src/event_loop.rs:57-111 | for every answer of operator and broker, the new session and the calls made, in order; duplicates and operator failures change nothing |
| `EventLoop.ProcessManualStart` | rhivos/parking-operator-adaptor/src/event_loop.rs:118-149 | likewise, with the reply: already exists, the response, or operator unavailable |
| `EventLoop.ProcessManualStop` | rhivos/parking-operator-adaptor/src/event_loop.rs:155-174 | likewise, with the reply: failed precondition, the response, or operator unavailable |
| `EventLoop.RunEventLoop` | rhivos/parking-operator-adaptor/src/event_loop.rs:220-257 | the loop over any event sequence yields the specified session and trace |
| `EventLoop.EventAnswered` | rhivos/parking-operator-adaptor/src/event_loop.rs:57-174 | at every position of every event sequence, told from the event, the answers of operator and broker and the session that the calls so far left open: a lock starts a session for the configured vehicle and zone if none is open, a manual start for the given zone, an unlock and a manual stop stop the open one by its id, no other event makes a call; a successful start publishes true and records id, zone, time and rate, a successful stop publishes false and clears the session; and each request gets the reply of the operator or the error that is due |
| `EventLoop.TraceInStep` | rhivos/parking-operator-adaptor/src/event_loop.rs:220-257 | over every event sequence and every pattern of failures: each call and each publication is one that the calls before it allow, every reply is right for the session they left open, and that session is the one in memory, active whenever there is one |
| `EventLoop.StopsMatchStarts` | rhivos/parking-operator-adaptor/src/event_loop.rs:94-110 | every stop call carries the id of the latest successful start, with no successful call between |
| `EventLoop.StartsAlternate` | rhivos/parking-operator-adaptor/src/event_loop.rs:65-92 | between a successful start and any later start call there is a successful stop |
| `EventLoop.SessionBalance` | rhivos/parking-operator-adaptor/src/event_loop.rs:57-174 | successful starts exceed successful stops by one while a session is active and by none otherwise |
| `EventLoop.SignalAgreement` | rhivos/parking-operator-adaptor/src/event_loop.rs:84-105 | whatever the broker held at first, it agrees with the session if and only if an even number of publications has failed since the last success, or, before any success, if it held the value that the parity of the failures calls for |
| `EventLoop.FreshSignal` | rhivos/parking-operator-adaptor/src/main.rs:53-56 | whatever the broker held at first, it agrees with the session whenever the latest publication succeeded |
| `EventLoop.SignalExample` | rhivos/parking-operator-adaptor/src/event_loop.rs:84-86 | a session that is active while the signal says it is not |
| `ResponseStore.Store.constructor` | backend/cloud-gateway/store/store.go:20-25 | nothing stored, nothing registered |
| `ResponseStore.Store.StoreResponse` | backend/cloud-gateway/store/store.go:28-36 | stores the response, stops the registered timer if it has not fired, and unregisters it |
| `ResponseStore.Store.GetResponse` | backend/cloud-gateway/store/store.go:40-48 | the stored response of the command, if any |
| `ResponseStore.Store.StartTimeout` | backend/cloud-gateway/store/store.go:52-68 | registers a new armed timer in place of any earlier one, which goes on |
| `ResponseStore.Store.TimerCallback` | backend/cloud-gateway/store/store.go:55-66 | the callback of a fired timer stores the status `timeout` with no reason if and only if no response is stored, and unregisters the command |
| `ResponseStore.LookupIsAnswer` | backend/cloud-gateway/store/store.go:28-68 | in every interleaving a lookup yields the last delivered response, else a timeout if a callback has ended, else nothing; so a callback never replaces a response |
| `ResponseStore.TimeoutIsReported` | backend/cloud-gateway/store/store.go:55-64 | in every interleaving, a command whose timer has run out and that got no response is looked up with its id, the status `timeout` and no reason |
| `ResponseStore.DeliveredMeans` | backend/cloud-gateway/store/store.go:28-36 | what the last delivered response is: delivered for the command, with no later delivery for it |
| `ResponseStore.TimedOutMeans` | backend/cloud-gateway/store/store.go:52-64 | what a timeout is: the callback of a timer that was started for the command has ended |
| `ResponseStore.EveryStartCovered` | backend/cloud-gateway/store/store.go:52-68 | at every moment each started command has a response or a live timer |
| `ResponseStore.QuiescentIsComplete` | backend/cloud-gateway/store/store.go:52-68 | once no timer is live, every started command is answered and no timer is registered |
| `ResponseStore.ConsistentAlways` | backend/cloud-gateway/store/store.go:12-17 | in every interleaving each registered timer is live and of the right command |
| `ResponseStore.DeliveryCancelsIff` | backend/cloud-gateway/store/store.go:27-36 | in a state, a response cancels all armed timers of its command if and only if only the registered one is armed |
| `ResponseStore.DeliveryCancels` | backend/cloud-gateway/store/store.go:27-36 | in particular in every run that starts the command at most once |
| `ResponseStore.DeliveryCancelsExactly` | backend/cloud-gateway/store/store.go:27-36 | in every run: a response delivered next cancels all armed timers of its command if and only if between each start of an unexpired timer and the next start or callback of the command there was a response |
| `ResponseStore.NoneArmedIff` | backend/cloud-gateway/store/store.go:27-68 | in every run: no timer of a command can run out any more if and only if each of its starts has run out or was followed by a response before the next start or callback of the command |
| `ResponseStore.EarlyResponseExample` | backend/cloud-gateway/store/store.go:27-36 | a response that precedes the only start does not cancel its timer |
| `ResponseStore.TimerFate` | backend/cloud-gateway/store/store.go:28-68 | whether a timer is armed and whether it is registered, from the actions alone |
| `ResponseStore.RestartLeaksTimer` | backend/cloud-gateway/store/store.go:55-67 | a run that starts a command twice and in which a response leaves a timer armed |
| `CommandPayload.ValidateCommand` | rhivos/locking-service/src/command.rs:75-94 | accepts exactly commands with an id and at least one door, all of them `driver`; otherwise the error of the first check that fails |
| `CommandPayload.ReadFieldsIff` | rhivos/locking-service/src/command.rs:61-69 | reading field by field succeeds if and only if the known fields are well typed and none is repeated, and then yields what generic lookups yield |
| `CommandPayload.ParsesIff` | rhivos/locking-service/src/command.rs:12-21 | an object parses if and only if its known fields are well typed and unrepeated and the three required ones present, and then to what the fields say; a string action is then `lock` or `unlock` |
| `CommandPayload.UnknownAction` | rhivos/locking-service/src/command.rs:4-10 | an object whose action is any other string is an invalid command, provided that no earlier action field leaves the decision to the library |
| `CommandPayload.GetIsLast` | rhivos/cloud-gateway-client/src/command_validator.rs:41-71 | what a generic lookup yields: the value of the last field of the name |
| `CommandPayload.CountIsOne` | rhivos/cloud-gateway-client/src/command_validator.rs:73-75 | what it means that a name is not repeated: it occurs at exactly one position |
| `CommandPayload.ClientAccepts` | rhivos/cloud-gateway-client/src/command_validator.rs:31-78 | the client accepts a payload if and only if it is an object with a command id that is not empty, an action `lock` or `unlock` and doors that are all strings, none of the three repeated; and it passes these on |
| `CommandPayload.ClientRejects` | rhivos/cloud-gateway-client/src/command_validator.rs:31-78 | otherwise, which error it answers: the first of its checks that fails, in its order |
| `CommandPayload.AcceptedParses` | rhivos/cloud-gateway-client/src/command_validator.rs:31-78 | a payload that the client accepts parses in the locking service to the same command if and only if its optional fields are well typed and not repeated; otherwise the service reports an invalid command, not malformed JSON |
| `LockingService.ProcessLock` | rhivos/locking-service/src/process.rs:36-79 | for all answers of the broker: the new lock state, the reads and writes in order, and the verdict |
| `LockingService.ProcessUnlock` | rhivos/locking-service/src/process.rs:82-105 | likewise, without a safety check |
| `LockingService.ProcessCommand` | rhivos/locking-service/src/process.rs:14-33 | likewise, and one response at the end |
| `LockingService.CommandLog` | rhivos/locking-service/src/process.rs:14-105 | what a valid payload leads to, in terms of the readings alone: a speed of at least 1 or an open door refuses a lock, an unlock needs no reading, a write happens if and only if the state changes, and the answer comes last |
| `LockingService.HandleCommandPayload` | rhivos/locking-service/src/main.rs:36-87 | likewise for any payload, malformed and invalid ones included |
| `LockingService.MalformedDiscarded` | rhivos/locking-service/src/main.rs:46-50 | malformed JSON has no effect |
| `LockingService.InvalidRefused` | rhivos/locking-service/src/main.rs:69-83 | a command with an empty id, no door or a door that is not `driver` is answered with the reason that is due, and the lock is left alone |
| `LockingService.UnknownActionRefused` | rhivos/locking-service/src/main.rs:51-66 | an object with an unknown action is answered with `invalid_command` if it carries a command id that is not empty, and the lock is left alone |
| `LockingService.ActsAsNamed` | rhivos/locking-service/src/command.rs:4-10 | an object that parses and whose action is a string acts as that string says |
| `LockingService.Run` | rhivos/locking-service/src/main.rs:159-203 | the loop over any sequence of payloads, ends of the stream and shutdown |
| `LockingService.LockTrace` | rhivos/locking-service/src/process.rs:42-78 | over every input sequence: writes of the lock signal alternate after the initial false, every write of true directly follows readings that are safe, and the lock state is the value last written |
| `LockingService.LockSignalAgreement` | rhivos/locking-service/src/process.rs:61-74 | the lock state changes even if its publication fails; the published signal agrees with it if and only if an even number of writes has failed since the last success |
| `LockingService.LockSignalExample` | rhivos/locking-service/src/process.rs:61-74 | a lock command that is answered with success while the signal says unlocked |
| `LockingService.LockStateIsLastGranted` | rhivos/locking-service/src/main.rs:153-170 | the service is locked if and only if the last granted command, told from the payloads and readings alone, was a lock |
| `LockingService.CommandAnsweredOnce` | rhivos/locking-service/src/process.rs:14-33 | a processed command makes the service attempt exactly one response, with its id and verdict |
| `LockingService.AnsweredOnce` | rhivos/locking-service/src/main.rs:36-87 | each payload makes the service attempt at most one response, namely its answer, in every lock state |
| `LockingService.InputServed` | rhivos/locking-service/src/main.rs:159-203 | at every position of every input sequence: a payload received while the service serves has the effects that are due for it, in order, with the lock state that they leave, and nothing else has any |
| `LockingService.AnswersInOrder` | rhivos/locking-service/src/main.rs:159-170 | over every input sequence, the responses attempted are the answers to the payloads received while the service serves, in their order, and no others |
| `LockingService.AnsweredIff` | rhivos/locking-service/src/main.rs:22-29 | an object is answered if and only if it is not taken for malformed JSON and carries a string command id that is not empty unless it parses; the answer carries that id |
| `LockingService.UnansweredExample` | rhivos/locking-service/src/main.rs:51-66 | valid JSON that gets no response |
| `LockingService.AcceptedIsAnswered` | rhivos/cloud-gateway-client/src/command_validator.rs:31-78 | every payload the client accepts makes the service attempt exactly one response, with the accepted non-empty command id, in every state and whatever the broker answers |
| `LockingService.AcceptedVerdict` | rhivos/locking-service/src/safety.rs:23-45 | which verdict that is: bad optional fields, unsupported door, no door, unlock, moving, open door, granted, in this order |
| `LockingService.ServesWhile` | rhivos/locking-service/src/main.rs:153-196 | the service goes on if and only if it was not told to stop, no attempt to subscribe again failed, and the stream never ended more than three times in a row |
| `LockingService.EndsAs` | rhivos/locking-service/src/main.rs:171-202 | how it ended: shut down by the signal, lost after the fourth end of the stream in a row, failed by an attempt to subscribe again |

## Left out

- Floating point, NaN and trigonometry: rounding is not modelled; coordinates are exact reals.
- Parsing of JSON text: both validators start from a tree, or from text that is not JSON.
- How serde_json deserializes a command from a payload that is not an object, and an action from anything but a string: the parameter `Library`, so the results hold for every treatment.
- Fields of a command other than the ones the locking service reads, which the client passes through unchanged.
- gRPC, NATS, HTTP, podman processes and the data broker: every call to them is an arbitrary success or failure.
- The real state of containers: podman's answers are arbitrary and need not fit each other.
- Capacities of channels, lagging subscribers, poisoned mutexes and cancellation of tasks.
- The durations of timers: a timer may run out at any time after it was started.
- Wall-clock timestamps of events and sessions: the clock of a session is an answer of its environment, an event carries none.
- Messages of errors that are only logged.
- Initial connection, first publication and first subscription of the services.
- `list_adapters`, `get_zone` routing, the offload timer's sleep and request parsing: easy members that no property needs.
- Retry loops, bearer tokens, telemetry, configuration and response formatting.
- `Yield` in `AdapterPrograms` stands for the turn of the other tasks: only its contract is relied on, which any steps of theirs meet.
