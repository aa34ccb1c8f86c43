# zingthings: a Dafny model of its fault-tolerant deployment and its message pipeline

zingthings runs device protocols in containers. Deploy servers place protocols on containers and,
through their coordinators, watch etcd and move the protocols of a container that has died to one
that is alive. Inside a container, messages travel up and down a pipeline of channel handlers.

This project models four parts of it and proves what they promise.

1. **Deploy, fault and recover over etcd.** `Cluster` is a state machine in which every etcd
   operation, every request and every failure of any number of containers and coordinators is one
   step, and the steps interleave freely. `Durability`, `Conservation`, `Migration`, `Events` and
   `Dispatching` prove what holds in all its runs. `Losses` has, for each condition that conservation
   needs, a run that breaks it in one step and loses the last record; `Examples` has runs that meet
   the hypotheses of the others. `Container` and `Coordinator` are the same code as classes that
   update etcd, the managers, the view and the round-robin index in place; they are proved against
   the functions in `Calls`, and `Simulation` proves that each such call is a run of the machine.
   `Recovery` proves that recover events make progress and finish, and `Stranding` that they do so
   among everything else that happens.
2. **Agreement and placement.** `View` is the watch fold and the `hash % len(view)` rule, `Lag`
   says what happens when coordinators do not share a view, `Selection` is the choice made by a
   recover event, `RoundRobin` and `Placement` the spreading of replicas.
3. **The channel handler pipeline.** `Pipeline` is the doubly linked list with its name index, on
   the heap, and the mutually recursive walk of a message through it.
4. **Text and time.** `Keys` holds the etcd keys, addresses and composed ids; `Offline` the record
   of silent devices.

Conservation is the central result: in every run that meets the conditions of
`Conservation.Careful`, an id that has a durable node record has one ever after. The code alone
does not guarantee it. A dispatch that picks the record's own address needs no condition on its
witness or target, and one that begins while nobody else dispatches the id none on its view; apart
from that none of the conditions can be dropped, as `Losses` shows.

Where the code and its comments or tests disagree, the code is followed. The comment at
`stringToHashCode` says FNV-1a while the call is `fnv.New64`, which is FNV-1; the hash is an
arbitrary function here. `container_test.go` looks a protocol up under an id with a slash while
`Container.Deploy` joins its parts with colons; the colons are modelled.

Findings about the code that the lemmas state exactly:

- A dispatch can delete an id's last record: when the id is found alive at its own address, when its
  witness is about to be undeployed, or when the target answers without writing, because it has not
  subscribed yet, its put failed or it undeployed the id before (`Calls.LastRecordSurvivesIff`,
  `Losses`). The last needs no user request: an earlier dispatch undeployed the id there.
- The shutdown of a container stops all its protocols and so deletes their durable records, as a
  user's undeploy does (`Losses.StopLoses`); only a crash leaves them to be recovered.
- A stopped protocol is not started again at the same process, although a deploy of it answers with
  success (`Calls.StoppedIsNotRestarted`).
- A request under way can put an older device list over that of a newer, completed deploy
  (`Examples.StaleRequestWins`). The stored list stays the newest exactly if no request carries
  another that can still put it (`Migration.StoredDetailStaysIff`).
- A deploy call stops, with success, at the first group that is already registered
  (`Calls.EveryGroupIsRegisteredIff`).
- `Replace` does not move head or tail. A handler that replaces the first is met by messages going
  down only, one that replaces the last by messages going up only, and one that replaces the only
  one by none (`Pipeline.ChannelHandlerPipeline.Replace`).
- `Replace` leaves the old name in the index, which then refuses it and finds the replaced handler
  (`Pipeline.ChannelHandlerPipeline.Get`). Emptying the list afterwards clears only the end at which
  the last handler was removed. Removing there dereferences nil, and at the other end returns that
  handler once more; adding there dereferences nil, and adding at the other end makes the removed
  handler come back in one direction and loses all messages in the other
  (`Pipeline.ChannelHandlerPipeline.AddFirst` and `AddLast`, `RemoveFirst` and `RemoveLast`).
- A recover key is deleted by a coordinator that owns none of the first records it looks at
  (`Selection.GivesUpIff`, `Selection.KeyCanGoTooEarly`); with several coordinators it survives an
  event only when their first records have pairwise different owners (`Selection.KeySurvivesIff`).
- A node listed twice in a view leaves hashes without an owner (`View.EveryHashIsOwned`,
  `View.LateSnapshotLeavesHashesUnowned`).
- A coordinator that has seen a node join and one that has not always both own some hash
  (`Lag.LagBreaksOwnership`).
- A node scan also returns the records of nodes whose address extends the scanned one
  (`Keys.NodeScanIsExact`).
- Saves are stamped in microseconds and swept in milliseconds (`Offline.MicrosecondStampsExpireLate`).

## Model

| member | source | states |
|---|---|---|
| Conservation.RecordsAreConserved | pkg/deploy/protocol_coordinator.go:493-574 | In every careful run, through crashes, lease expiries and any interleaving, an id with a node record has one in every later state |
| Conservation.DeletedOnlyWhenReplaced | pkg/deploy/protocol_coordinator.go:534-555 | When a dispatch deletes the old record, another record of the id is in place at the witness or the target, and no removal of it is under way |
| Conservation.StepKeepsCInv | pkg/deploy/protocol_coordinator.go:493-574 | The conservation invariant, including that at most one coordinator dispatches the id, is kept by every careful step |
| Conservation.BeginIsAlone | pkg/deploy/protocol_coordinator.go:330-345 | A coordinator that passes the owner test in a view shared with the id's dispatchers finds no other coordinator dispatching it |
| Conservation.WitnessIsKept | pkg/deploy/protocol_coordinator.go:465-503 | A liveness key whose removal has not begun proves a record at its address that nothing under way deletes |
| Conservation.TargetIsKept | pkg/protocol/container/container.go:189-227 | A success answer of a process that neither began to remove the id nor failed to record it proves a record at its address that nothing under way deletes |
| Durability.LivenessImpliesDurable | pkg/protocol/register/etcd_register.go:104-147 | In every reachable state a leased key has its info record, and its node record unless the removal of the id has begun under that lease |
| Durability.RemovedWasBegun | pkg/deploy/protocol_coordinator.go:550-574 | Removal has begun under a lease only if a step of the run stopped the id, deleted its record for another address, or undeployed it, where that lease held it |
| Durability.LiveUnlessRemovalBegan | pkg/protocol/register/etcd_register.go:104-147 | The same over the run itself: a live protocol without a node record was hit before by such a step at its own address, under the same lease |
| Durability.RunningImpliesDurable | pkg/protocol/container/container.go:261-269 | In every reachable state a RUNNING answer implies a manager entry, the leased key, the info record and, unless removal has begun, the node record |
| Durability.LeasesOfMeaning | pkg/deploy/protocol_coordinator.go:550-574 | A removal counts for the leases under which the id is live, registered or being deployed at the address, and for no others |
| Durability.UnwrittenIff | pkg/protocol/register/etcd_register.go:95-109 | A pair counts as unwritten iff a deploy under that lease was served before the subscription or its put of the record failed |
| Durability.EntriesStay | pkg/protocol/container/container.go:120-132 | In every run, what a manager has registered stays as it is while its process lives, through stops and further deploys |
| Leases.SameHome | pkg/protocol/register/etcd_register.go:55-95 | A lease is only ever held at one address |
| Leases.KeysAreOnLiveLeases | pkg/protocol/register/etcd_register.go:54-95 | In every reachable state each liveness key and each container key hangs on a lease that holds |
| Leases.ExpiryTakes | pkg/protocol/register/etcd_register.go:54-95 | The expiry of a lease takes the keys on it and nothing else |
| Durability.StepKeepsInv | pkg/protocol/register/etcd_register.go:95-149 | Every step of every process and coordinator keeps keys, manager entries and unfinished deploys backed by records, up to begun removals and unwritten records |
| Durability.RecordMayGo | pkg/deploy/protocol_coordinator.go:550-574 | A record may be deleted once every key and process that could rely on it counts as removed |
| Migration.InfoIsTheLastPut | pkg/protocol/register/etcd_register.go:110-118 | In every run, the stored detail of an id is that of the last deploy whose info record was put |
| Migration.SendsTheLastDetail | pkg/deploy/protocol_coordinator.go:506-523 | In every run, a dispatch asks its target for the record's id and type under the detail that was put last |
| Migration.NothingIsInvented | pkg/deploy/protocol_coordinator.go:506-523 | In every run, each type and device list recorded, in transit or running under an id is one that a user asked for under that id |
| Migration.StoredDetailStaysIff | pkg/deploy/protocol_coordinator.go:504-523 | In every state reachable without a user deploying the id with another detail the stored detail is d, iff it is now and no request that can still put its info record carries another |
| Migration.MigrationKeepsMeaning | pkg/deploy/protocol_coordinator.go:506-523 | Over any number of hops of a run, a detail that is settled in this exact sense stays so while no user deploys another |
| Migration.MigrationKeepsTypes | pkg/deploy/protocol_coordinator.go:506-523 | No hop brings in a type: the types under which an id is recorded, requested or dispatched stay among those it has and those users ask for |
| Migration.RedeployRequestMeaning | pkg/deploy/protocol_coordinator.go:517-523 | So every request of a later hop is for the id and type of its record, with exactly the settled group and device list |
| Events.RecordAfterStep | pkg/deploy/protocol_coordinator.go:322-329 | A node record is there after a step iff the step puts it, or it was there and the step is not one of the two that delete it |
| Events.EventsAreDeletions | pkg/deploy/protocol_coordinator.go:287-346 | In every run the DELETE events that can be handled are exactly the deletions of protocol keys and of container keys that have taken place |
| Events.StartsFollowDeletions | pkg/deploy/protocol_coordinator.go:287-346 | A dispatch outside recovery, and a recovery, only start after such a deletion |
| Events.ViewIsTheFold | pkg/deploy/protocol_coordinator.go:199-237 | In every run a coordinator's view is the fold of the events it has handled over the view it started with |
| Events.StopIsSilent | pkg/protocol/register/etcd_register.go:130-147 | After an undeploy deleted the record, and until a deploy there puts it again, no event for it starts a dispatch at any coordinator, in any interleaving |
| Events.StopDropsTheRecordFirst | pkg/protocol/register/etcd_register.go:130-147 | In every run, when an undeploy deletes the liveness key it has deleted the record before, so the event of the key finds none unless a deploy there put it again |
| Events.CrashIsNoticed | pkg/deploy/protocol_coordinator.go:314-346 | When a lease expires, the DELETE event of each protocol live under it finds the record whenever it is handled, until a step deletes it; an idle coordinator can then dispatch iff it owns the id in its view |
| Events.CrashHasOneDispatcher | pkg/deploy/protocol_coordinator.go:314-346 | Whenever it is handled, exactly one of the coordinators that then share a duplicate-free view is the one that can dispatch it |
| Examples.StopHappens | pkg/protocol/register/etcd_register.go:130-147 | A run from the initial state that meets the hypotheses of StopIsSilent |
| Examples.CrashHappens | pkg/deploy/protocol_coordinator.go:314-346 | A run from the initial state that meets the hypotheses of CrashIsNoticed |
| Examples.LastDeployMeans | pkg/protocol/register/etcd_register.go:110-118 | A run after which the second detail of an id is settled while the process of the first, with other devices, lives on |
| Examples.StaleRequestWins | pkg/deploy/protocol_coordinator.go:504-523 | A run in which a dispatch under way puts an older detail over that of a newer, completed deploy |
| Losses.OwnWitnessLoses | pkg/deploy/protocol_coordinator.go:500-503 | A run, careful but for one step, that loses the last record because the id was found alive at its own address |
| Losses.RemovedWitnessLoses | pkg/deploy/protocol_coordinator.go:550-574 | Another, because the witness had lost its record to an earlier dispatch that broke off before its undeploy request |
| Losses.EarlyTargetLoses | pkg/protocol/register/etcd_register.go:90-95 | Another, because the target had announced itself but not subscribed |
| Losses.FailedPutLoses | pkg/protocol/register/etcd_register.go:104-109 | Another, because the target's put of the record failed |
| Losses.UsedTargetLoses | pkg/protocol/container/container.go:199-204 | Another, because an earlier dispatch had the target undeploy the id, whose entry the manager keeps |
| Losses.StopLoses | pkg/protocol/container/container.go:58-67 | Another, because a stop, by request or by shutdown, deletes the record |
| Losses.TwoDispatchersLose | pkg/deploy/protocol_coordinator.go:330-345 | Another, because a second coordinator, with any view in which it owns the id, moves it the other way |
| Simulation.DispatchRuns | pkg/deploy/protocol_coordinator.go:493-548 | An uninterrupted dispatchToAlive is a run of the interleaved machine with the same effect |
| Simulation.DeployRuns | pkg/protocol/container/container.go:189-227 | An uninterrupted deploy of one group is a run of the machine with the same effect and answer |
| Simulation.RemovalRuns | pkg/deploy/protocol_coordinator.go:550-574 | An uninterrupted doRemoveGarbageData is a run of the machine with the same effect |
| Simulation.DeleteEventRuns | pkg/deploy/protocol_coordinator.go:316-346 | Handling a DELETE event at the owner, from the event on, is a run of the machine with the effect of one dispatch |
| Simulation.RecoverEventRuns | pkg/deploy/protocol_coordinator.go:353-372 | Handling a recover event, from the scan on, is a run of the machine: the same record is selected and dispatched, or the recover key is deleted |
| Calls.RemovesExactly | pkg/deploy/protocol_coordinator.go:550-574 | Record by record and key by key, what doRemoveGarbageData takes from etcd, with every condition it depends on |
| Calls.RedeployMeaning | pkg/deploy/protocol_coordinator.go:504-533 | What the deploy request of a dispatch does to its target: nothing if it has the id, a failure if the type is unknown, else the start of the group with the recorded detail |
| Calls.ServedIdMeaning | pkg/protocol/container/container.go:191-198 | A composed id is served as it is, another one under the recorded group and index 0 |
| Calls.LastRecordSurvivesIff | pkg/deploy/protocol_coordinator.go:493-574 | One dispatch keeps an id's last record iff the pick is its own address, or the id was not found alive and an accepting target was subscribed and did not have the id |
| Calls.AliveAfterSuccessIff | pkg/deploy/protocol_coordinator.go:493-548 | After a dispatch that returned true the id is leased at an alive node, except when it undeployed the only, own, witness |
| Calls.EarlyFailureChangesNothing | pkg/deploy/protocol_coordinator.go:504-533 | A dispatch that returned false has changed nothing unless the target accepted a deploy and does not run it |
| Calls.SecondRoundIsNoop | pkg/deploy/protocol_coordinator.go:505-547 | A second round of the polling loop deploys nothing and removes nothing |
| Calls.EveryGroupIsRegisteredIff | pkg/protocol/container/container.go:189-227 | A deploy call registers every group iff no group found registered precedes one that is not |
| Calls.NewGroupsComeUp | pkg/protocol/container/container.go:189-227 | At a subscribed process every new group is registered with its own devices, recorded and live |
| Calls.RepeatedDeployIsNoop | pkg/protocol/container/container.go:191-204 | Repeating a one-group deploy, with the base id or the composed one, starts and publishes nothing |
| Container.Container.Deploy | pkg/protocol/container/container.go:189-227 | The loop over groups with its early returns leaves the manager and etcd as the call's specification says |
| Container.Container.Start | pkg/protocol/container/container.go:205-224 | A started group is published, if the process has subscribed, by its three puts in their order, and registered after them |
| Container.DeployCanBreakOff | pkg/protocol/register/etcd_register.go:104-128 | Wherever the subscriber of a deploy breaks off, a liveness key that it has put has its record and info behind it |
| Container.UndeployCanBreakOff | pkg/protocol/register/etcd_register.go:134-147 | Wherever the subscriber of an undeploy breaks off, the liveness key is there as long as the record |
| Container.Container.UnDeploy | pkg/protocol/container/container.go:120-132 | Stopping deletes the record and then the liveness key of the registered type, and keeps the manager entry |
| Calls.StopUndoesStartIff | pkg/protocol/register/etcd_register.go:95-149 | A stop leaves etcd as it was before the start, but for the info record, iff neither record nor key was there before; the manager keeps the entry |
| Calls.StoppedIsNotRestarted | pkg/protocol/container/container.go:199-204 | Deploying a stopped protocol at the same process answers with success and writes nothing |
| Container.Container.RegisterIfAbsent | pkg/protocol/core/protocol.go:90-99 | An existing entry is kept and returned |
| Container.ServingIsLocal | pkg/protocol/container/container.go:189-227 | A deploy call touches only its own container's manager and etcd |
| Dispatching.DispatchIsBounded | pkg/deploy/protocol_coordinator.go:493-548 | In every run, whatever else happens and fails meanwhile, one dispatch sends at most 7 deploy requests and polls at most 6 times |
| Dispatching.DispatchGoesOn | pkg/deploy/protocol_coordinator.go:504-547 | In every run, a dispatch goes on from an accepted deploy iff it has polled fewer than six times, and a poll ends it iff the target runs the protocol, else another round follows |
| Dispatching.MoveLowersMeasure | pkg/deploy/protocol_coordinator.go:493-548 | Every move of a dispatch ends it or lowers a well-founded measure, in any world |
| Dispatching.SuccessIsSeen | pkg/deploy/protocol_coordinator.go:493-548 | In every run, a dispatch succeeds only if its target answers RUNNING then, or it saw the protocol leased at a node before |
| Dispatching.RecoveryConfirms | pkg/deploy/protocol_coordinator.go:421-442 | In every run, a recover event dispatches a record only after it has found its liveness key absent |
| Dispatching.TargetWasAlive | pkg/deploy/protocol_coordinator.go:493-499 | In every run, the target of a dispatch is one container all along, which was in the alive list when it was picked |
| Dispatching.NothingGoesBefore | pkg/deploy/protocol_coordinator.go:500-535 | In every run, a dispatch changes nothing in etcd and begins no undeploy before it has seen the protocol leased or has taken an answer of success to its deploy request |
| Coordinator.Coordinator.DispatchToAlive | pkg/deploy/protocol_coordinator.go:493-548 | Without interference: the effect and answer of the closed form for the round-robin pick; no request if the id is alive, one deploy and poll if it comes to run, else 7 deploys and 6 polls or at most one refused deploy; the node is returned iff it was deployed to |
| Coordinator.Coordinator.DeployUntilRunning | pkg/deploy/protocol_coordinator.go:504-547 | Without interference: the effect of one round; one deploy and one poll on success, 7 deploys and 6 polls if the target accepts and does not run it, at most one deploy and no poll if it cannot be asked or refuses |
| Coordinator.Coordinator.DoRemoveGarbageData | pkg/deploy/protocol_coordinator.go:550-574 | Nothing if the pick is the record's address; else the record goes and, if the old node is up, it is asked to undeploy |
| Coordinator.Coordinator.CheckProtocolAlreadyAlive | pkg/deploy/protocol_coordinator.go:465-491 | True iff some alive node holds the liveness key of the id and type |
| Coordinator.Coordinator.OnProtocolDeleted | pkg/deploy/protocol_coordinator.go:316-346 | A DELETE event dispatches iff the node record exists and this coordinator owns the id; otherwise nothing changes |
| Coordinator.Coordinator.OnRecoverPut | pkg/deploy/protocol_coordinator.go:353-372 | A recover event dispatches the selected record or, if none is selected, deletes the recover key |
| Coordinator.Coordinator.GetScheduleOneProtocol | pkg/deploy/protocol_coordinator.go:381-413 | The selected record of the event |
| Coordinator.Coordinator.BuildNeedDispatchProtocol | pkg/deploy/protocol_coordinator.go:415-445 | The first stranded records in response order: as many as there are, up to the size of the view |
| Coordinator.Coordinator.NextNode | pkg/deploy/protocol_coordinator.go:580-593 | Always a member of the list, at the round-robin position; the index ends below the length |
| Coordinator.Coordinator.ReadDeployNodes | pkg/deploy/protocol_coordinator.go:103-119 | The initial read appends the listed nodes unchecked, in order |
| Coordinator.Coordinator.WatchDeploy | pkg/deploy/protocol_coordinator.go:199-237 | The in-place loops over a watch response fold its events over the view |
| Coordinator.Coordinator.UpsertNode | pkg/deploy/protocol_coordinator.go:209-222 | The first entry of the node gets the new timestamp, or the node is appended |
| Coordinator.Coordinator.RemoveNode | pkg/deploy/protocol_coordinator.go:229-235 | Every entry of the node goes, the others keep their order |
| Coordinator.Coordinator.GetCurrentSlot | pkg/deploy/protocol_coordinator.go:456-463 | The first position of this coordinator in its view, and 0 when it is absent |
| Recovery.DeathStartsRecovery | pkg/deploy/protocol_coordinator.go:287-310 | After the DELETE event of a container no stranded record of it is without a recover key, and the key is there iff it was before or the node has a record |
| Recovery.ScanIsThePrefixRead | pkg/deploy/protocol_coordinator.go:415-420 | The scan of a node is what the prefix read of its record keys returns |
| Recovery.DispatchStrandsNothing | pkg/deploy/protocol_coordinator.go:493-574 | No dispatch of a composed id strands anything new, whether it succeeds or fails |
| Recovery.SuccessesLowerStranded | pkg/deploy/protocol_coordinator.go:353-372 | Over any run of recover events, with failed dispatches in between, the stranded records now and the successful events together never exceed the records stranded at the start |
| Recovery.EveryEventCounts | pkg/deploy/protocol_coordinator.go:353-372 | If every event that finds something returns true with a pick elsewhere, each leaves at least one stranded record fewer |
| Recovery.KeyGoesWhenDone | pkg/deploy/protocol_coordinator.go:353-372 | An event deletes the recover key iff it finds nothing stranded; so it does after as many successes as there were stranded records |
| Recovery.RecoveryFinishes | pkg/deploy/protocol_coordinator.go:353-372 | Where every container can serve what is stranded, each event succeeds: at most one event per stranded record and one more, and all of them then live at alive nodes |
| Stranding.StepOnStranded | pkg/deploy/protocol_coordinator.go:353-372 | At an address without process and liveness key, any step but a boot there leaves it so and takes at most the one record that a dispatch removes |
| Stranding.StrandedAreOnlyTaken | pkg/deploy/protocol_coordinator.go:353-372 | In every interleaving, until a boot there, the records still at such an address and those taken by dispatches together are as many as at the start, and no key comes back |
| Stranding.KeyGoneMeansDone | pkg/deploy/protocol_coordinator.go:369-371 | In every run, once a coordinator alone in its view has deleted the recover key of such an address, nothing is stranded there until a boot |
| Stranding.RecoveryCanFinish | pkg/deploy/protocol_coordinator.go:353-372 | From every healthy state with an idle coordinator alone in its view the machine has a run that ends recovery: nothing stranded, the key gone, everything live at alive nodes |
| Recovery.SuccessLowersStrandedIff | pkg/deploy/protocol_coordinator.go:364-371 | A successful dispatch strictly lowers the stranded records iff it was not an own-address pick for an id alive elsewhere |
| Recovery.HealthyDispatchSucceeds | pkg/deploy/protocol_coordinator.go:493-548 | In a healthy cluster a dispatch of a stranded record returns true and leaves it live |
| Recovery.RoundKeepsHealthy | pkg/deploy/protocol_coordinator.go:353-372 | Recovering one record keeps the cluster healthy and leaves fewer stranded |
| Selection.GivesUpIff | pkg/deploy/protocol_coordinator.go:365-371 | The recover key is deleted iff none of the first view-size stranded records, or of all if they are fewer, is owned |
| Selection.SelectsTheFirstOwned | pkg/deploy/protocol_coordinator.go:391-412 | Otherwise the first owned one among them is chosen |
| Selection.StrandedMeaning | pkg/deploy/protocol_coordinator.go:421-442 | The stranded records of a response are those without a liveness key, in the order of the response |
| Selection.KeySurvivesIff | pkg/deploy/protocol_coordinator.go:353-372 | When every coordinator of a duplicate-free view handles a recover event, none deletes the key iff there are view-size stranded records at the front and their slots are all different |
| Selection.FirstOwnedMeaning | pkg/deploy/protocol_coordinator.go:391-412 | The chosen record is the first owned one, and none is chosen iff none is owned |
| Selection.AloneTakesTheFirst | pkg/deploy/protocol_coordinator.go:381-413 | A coordinator alone in its view takes the first stranded record, and nothing iff none is stranded |
| Selection.KeyCanGoTooEarly | pkg/deploy/protocol_coordinator.go:369-371 | With two coordinators the key can be deleted while a record is stranded |
| View.WatchedViewIsTheStore | pkg/deploy/protocol_coordinator.go:199-237 | The view is exactly the nodes in etcd after the log, each with its last PUT's value, in order of insertion since its last removal |
| View.UpsertMeaning | pkg/deploy/protocol_coordinator.go:209-222 | In any view, also with a node listed twice, a PUT changes the first entry of the node or appends it |
| View.WithoutMeaning | pkg/deploy/protocol_coordinator.go:229-235 | In any view a DELETE drops every entry of the node and keeps the others in order |
| View.ReflectedViewIsUnique | pkg/deploy/protocol_coordinator.go:199-237 | That description determines the view completely |
| View.SnapshotIsItsPuts | pkg/deploy/protocol_coordinator.go:104-119 | A duplicate-free snapshot is the fold of its own nodes as PUT events |
| View.LateSnapshotLeavesHashesUnowned | pkg/deploy/protocol_coordinator.go:109-118 | The unchecked append of the initial read can list a node twice, and then a hash has no owner |
| View.SlotMeaning | pkg/deploy/protocol_coordinator.go:456-463 | The slot is the first position of the node, or 0 when it is absent |
| View.DispatchersExactly | pkg/deploy/protocol_coordinator.go:330-345 | Who passes the slot test in a shared view: the node first listed at the hash's slot and, for slot 0, every absent coordinator |
| View.AtMostOneDispatcher | pkg/deploy/protocol_coordinator.go:330-345 | Two listed coordinators of one view never both pass |
| View.EveryHashIsOwned | pkg/deploy/protocol_coordinator.go:398-409 | Every hash has a listed owner iff the view is duplicate-free |
| View.ExactlyOneDispatcher | pkg/deploy/protocol_coordinator.go:330-345 | Coordinators with the same snapshot and log, all listed, have exactly one owner for every hash |
| Lag.OwnersCollideIff | pkg/deploy/protocol_coordinator.go:456-463 | Two coordinators, each with its own view, both own some hash iff their slots agree modulo the greatest common divisor of the view sizes |
| Lag.LagBreaksOwnership | pkg/deploy/protocol_coordinator.go:199-237 | Once a node joins, every coordinator that has seen it and every one that has not both own some hash |
| RoundRobin.PickCount | pkg/deploy/protocol_coordinator.go:580-593 | The exact number of times each position has been picked after k calls |
| RoundRobin.PicksAreFair | pkg/deploy/protocol_coordinator.go:580-593 | After k calls on n nodes every position was picked floor(k/n) or ceil(k/n) times |
| RoundRobin.OneRoundServesEachOnce | pkg/deploy/protocol_coordinator.go:580-593 | Any n consecutive calls pick every position exactly once |
| RoundRobin.FewPicksAreDistinct | pkg/deploy/protocol_coordinator.go:580-593 | Up to n consecutive calls pick pairwise different positions |
| Placement.DeployServer.DealDeployRequest | pkg/deploy/deploy.go:86-155 | The nested loops send one deploy per replica index and group that does not run yet, each by round robin to the alive list as it is read for that deploy |
| Placement.DealtToListed | pkg/deploy/deploy.go:107-154 | However the alive list changes meanwhile, every deploy carries the replica, group and composed id of its task and goes to a member of the list read for it |
| Placement.StableListsAreDealt | pkg/deploy/deploy.go:107-154 | With an alive list that stays the same, the deploys are dealt to it by round robin |
| Placement.RequestMeaning | pkg/deploy/deploy.go:86-154 | A request asks for replica 0, and for replica i iff i is below both Number and the number of alive nodes; for each, exactly for the groups that do not run yet |
| Placement.TasksInOrder | pkg/deploy/deploy.go:107-154 | The replicas are served one after the other |
| Placement.TasksNoRepeats | pkg/deploy/deploy.go:107-154 | No replica of a group is deployed twice by one request |
| Placement.OneGroupSpreads | pkg/deploy/deploy.go:107-154 | The new replicas of a one-group request land on pairwise different nodes |
| Placement.PlacementIsBalanced | pkg/deploy/deploy.go:107-154 | New placements per node differ by at most one, for any number of groups |
| Pipeline.ChannelHandlerPipeline.constructor | pkg/protocol/core/pipeline.go:34-38 | A new pipeline is valid and empty |
| Pipeline.ChannelHandlerPipeline.AddFirst | pkg/protocol/core/pipeline.go:122-156 | Refused iff the name is listed or stale; else the entry is pushed in front, links and index staying exact; on an emptied list with stale names, what walks up and walks down meet instead |
| Pipeline.ChannelHandlerPipeline.AddLast | pkg/protocol/core/pipeline.go:158-192 | The same at the end, with the directions exchanged |
| Pipeline.ChannelHandlerPipeline.RemoveFirst | pkg/protocol/core/pipeline.go:215-231 | Pops and returns the first handler, links and index staying exact; on an emptied list with stale names, returns the last removed handler once more |
| Pipeline.ChannelHandlerPipeline.RemoveLast | pkg/protocol/core/pipeline.go:233-249 | The same at the end |
| Pipeline.ChannelHandlerPipeline.Get | pkg/protocol/core/pipeline.go:194-201 | Finds the handler listed under the name, and under a stale name the handler that was replaced |
| Pipeline.ChannelHandlerPipeline.Replace | pkg/protocol/core/pipeline.go:258-295 | All error cases, the kept old name, the sequence that walks up and the one that walks down meet afterwards, also for the first, the last and the only node; both are the updated one iff the replaced node is interior |
| Pipeline.Replay | pkg/protocol/core/pipeline.go:122-295 | Over any run of additions, removals and interior replacements the pipeline stays valid and acts as a sequence of entries with a set of stale names |
| Pipeline.IndexIsExact | pkg/protocol/core/pipeline.go:194-256 | The index of listed names has exactly these, each mapped to its own node |
| Pipeline.TakenNames | pkg/protocol/core/pipeline.go:251-256 | A name is in the index iff it is listed or was replaced |
| Pipeline.ChannelHandlerPipeline.SendUpStream | pkg/protocol/core/pipeline.go:324-337 | The Deal calls are those of the accepting handlers in the order met going up, cut before the first without a Deal function |
| Pipeline.ChannelHandlerPipeline.SendDownStream | pkg/protocol/core/pipeline.go:339-352 | The same over the reverse of the order met going down |
| Pipeline.Context.SendUpStream | pkg/protocol/core/pipeline.go:83-94 | From a context: the same over the entries after it |
| Pipeline.Context.SendDownStream | pkg/protocol/core/pipeline.go:96-110 | From a context: the same over the reversed entries before it |
| Pipeline.Handler.OnChannelUpStream | pkg/protocol/core/channel_handler.go:151-164 | A handler passes on, deals and passes on, or stops, according to its predicate and Deal function |
| Pipeline.Handler.OnChannelDownStream | pkg/protocol/core/channel_handler.go:136-149 | The same downwards |
| Pipeline.FirstUpFrom | pkg/protocol/core/pipeline.go:297-309 | The search stops at the first handler that takes upstream data |
| Pipeline.FirstDownFrom | pkg/protocol/core/pipeline.go:310-322 | The search stops at the first handler, backwards, that takes downstream data |
| Pipeline.DownReversesUp | pkg/protocol/core/channel_handler.go:136-164 | Handlers alike in both directions are called on the way down in the reverse order of the way up |
| Pipeline.HandlerMeaning | pkg/protocol/core/channel_handler.go:136-164 | A handler is passed by iff it does not implement the direction or its predicate says no, stops a message without a Deal function, and is called otherwise; other data calls nobody |
| Pipeline.AllHandlerMeaning | pkg/protocol/core/channel_handler.go:31-43 | A handler for both directions deals with every message for whose direction it has a function |
| Pipeline.UpHandlerMeaning | pkg/protocol/core/channel_handler.go:90-100 | An up handler deals with every message going up and lets all going down pass |
| Pipeline.DownHandlerMeaning | pkg/protocol/core/channel_handler.go:124-134 | A down handler, the other way round |
| Pipeline.UpTypeHandlerMeaning | pkg/protocol/core/channel_handler.go:74-88 | An up handler for a type deals exactly with the messages of that type, if it is not empty, going up |
| Pipeline.DownTypeHandlerMeaning | pkg/protocol/core/channel_handler.go:108-122 | A down handler for a type, the other way round |
| Keys.KeysNeverCollide | pkg/protocol/core/info.go:8-38 | For components without a slash every key builder is injective and no two families share a key |
| Keys.NodeScanMatches | pkg/protocol/core/info.go:28-30 | What a prefix read of a node's records returns |
| Keys.NodeScanIsExact | pkg/deploy/protocol_coordinator.go:415-420 | It returns exactly the node's records iff no stored address extends the node's and no type is called "nodes" |
| Keys.WatchesSeparateFamilies | pkg/common/const.go:3-15 | The four watch prefixes select disjoint key families, each completely |
| Keys.AddressRoundTrip | pkg/deploy/protocol_coordinator.go:163-172 | Splitting a built address and parsing the port gives host and port back iff the host has no colon |
| Keys.ParsesTheFirstParts | pkg/deploy/protocol_coordinator.go:163-172 | Of any stored text, the parts around the first colon are taken as host and port |
| Keys.AtoiItoa | pkg/protocol/core/info.go:40-42 | Printing a number and parsing it gives it back iff it fits into 64 bits |
| Keys.ItoaMeaning | pkg/protocol/core/info.go:40-42 | Numbers are printed in decimal, most significant digit first |
| Keys.AtoiRefuses | pkg/deploy/protocol_coordinator.go:163-172 | Texts without a digit, with another character or beyond 64 bits are no ports |
| Keys.ComposeInjective | pkg/deploy/deploy.go:110-112 | Different base, group and index never share an id, even if the group contains colons |
| Keys.CheckedIdIsRegisteredId | pkg/protocol/container/container.go:191-198 | The id the deploy server checks is the one the container registers iff the base has no colon; a composed id is kept |
| Offline.LocalMemoryReportRecord.SaveRecord | pkg/protocol/channelhandler/record_device_report_offline_up.go:115-121 | A save is dropped at the limit, else stored |
| Offline.LocalMemoryReportRecord.Size | pkg/protocol/channelhandler/record_device_report_offline_up.go:102-109 | The counting loop gives the number of entries |
| Offline.LocalMemoryReportRecord.Sweep | pkg/protocol/channelhandler/record_device_report_offline_up.go:85-100 | A tick reports and removes exactly the devices whose save is more than 300000 ms old, in the order of the iteration |
| Offline.SweepIsExact | pkg/protocol/channelhandler/record_device_report_offline_up.go:90-97 | A sweep reports every stale device exactly once and removes exactly those |
| Offline.ReportsInOrder | pkg/protocol/channelhandler/record_device_report_offline_up.go:88-100 | The reports of a tick come in the order of the iteration |
| Offline.PoolIsBounded | pkg/protocol/channelhandler/record_device_report_offline_up.go:115-121 | Over every run the pool never exceeds the limit |
| Offline.ReportedIff | pkg/protocol/channelhandler/record_device_report_offline_up.go:85-121 | A device is reported at a tick iff its last accepted save is more than 300000 ms older and was not reported before |
| Offline.SaveBetweenReports | pkg/protocol/channelhandler/record_device_report_offline_up.go:85-121 | Two reports of a device have an accepted save between them, more than 300000 ms before the second |
| Offline.MicrosecondStampsExpireLate | pkg/protocol/channelhandler/record_device_report_offline_up.go:61-65 | With stamps in microseconds the sweep is right exactly outside a window of 999 times the stamp |

## Left out

- HTTP bodies, JSON, logging, signals, tickers, environment, TLS and network lookup: plumbing; JSON is taken as lossless, and the responses to etcd range reads are parameters of the handlers.
- etcd's own protocol: it is an atomic store with leases; all keys of a lease go in one step.
- The timestamps of node and protocol records: nothing modelled here reads them, apart from the view.
- Protocol properties and the number index of a redeployed request: dispatchToAlive does not carry them, so migration does not claim them.
- Two deploys of different groups in one request are two independent tasks in `Cluster`; the early return that couples them is in `Calls` and `Container`.
- A request that reaches a container after its sender has given up is not delayed further in `Cluster`: a task starts when it is sent.
- The machine's choice of a target is any node of the alive list, and a dispatch may start for any stranded record it owns; the round robin and the cap on candidates are in `Coordinator` and `Selection`.
- Coordinator.Coordinator.DispatchToAlive: one call in an etcd that answers and that nobody else uses meanwhile; `Dispatching` and `Conservation` cover interference and failures.
- Coordinator.Coordinator.DeployUntilRunning: the same.
- Coordinator.Coordinator.DoRemoveGarbageData: the same; a failed delete, read or undeploy request is the step RemoveFails of `Cluster`.
- Placement.DeployServer.DealDeployRequest: the deploy requests are recorded, not served; the answers of the checks whether an id runs already are an input, one per id.
- The event of a container that comes up rewrites recover keys; that only repeats recover events, so the machine has no step for it.
- View entries are values: the Go slice holds pointers that nothing else in the repository keeps.
- Deal functions are recorded calls that do not re-enter the pipeline, so the asynchronous constructors equal the synchronous ones; locks are not modelled.
- What follows after the replacement of the first or last node, or after an addition to an emptied list with stale names: the contracts say what walks up and down meet then, but further additions and removals are not claimed.
- The periodic rewrites of recover keys: they only repeat recover events.
- GetFirst, GetLast, the protocol type table, the handler registry, channel manager, up and down links, event bus bookkeeping: one-line lookups.
- The Redis record, Kafka, HTTP and TCP protocols and the database coordinator: clients of libraries, or repetitions of what is modelled.
