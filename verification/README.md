# VOLTHA read-write core: a model and its properties

This project models the parts of the VOLTHA read-write core where correctness is least obvious, and proves what they are
meant to guarantee. VOLTHA presents a passive optical network (one OLT, the root device, with ONUs behind its PON ports)
to an SDN controller as a single OpenFlow switch, the logical device. Two cores run side by side and share a KV store.

* **Competing cores.** `Transaction.dfy` is the protocol by which two cores agree on who serves a request, as a step
  system over KV operations, watch events, timers, crashes and lease expiry; `Progress.dfy` is what it achieves, and
  `Lease.dfy` its lease arithmetic over time. `Ownership.dfy` is the exclusive ownership of devices, with its per-key
  monitors, and `Takeover.dfy` is how a live core gets hold of a free key, `Stability.dfy` how long it keeps it.
  `SingleFlight.dfy` is the concurrent loading of devices by any number of threads.
* **Routes.** `RouteMaps.dfy` is what a good set of routes between the ports of a logical device is; `Routes.dfy` is the
  route cache that computes, extends and checks them.
* **Rules.** `OpenFlow.dfy` has the rules, `Pipeline.dfy` their meaning for packets. `LogicalDevice.dfy` is the flow and
  meter tables of a logical device, and `TableChanges.dfy` says what each operation does to them. `FlowCompiler.dfy`
  decomposes the rules of a logical device into rules of its ONU and OLT; `RuleParts.dfy` spells its parts out,
  `UpstreamRules.dfy` says what becomes of rules for packets from a UNI and which packets the parts take, `Choosing.dfy`
  which rule of a table applies, and `UpstreamMeaning.dfy` relates what logical device and devices do to packets;
  `UpstreamLosses.dfy` has rules for which they differ. `DeviceFlows.dfy` is the flow and group tables of a device and the
  messages to its adapter, `DeviceRequests.dfy` what requests mean for both, and `RuleByRule.dfy` says when a device that
  gets its rules one by one holds the decomposed table.
* **State.** `Transitions.dfy` is the choice of handlers for a change of device state. `Revisions.dfy` is the merge of
  child revisions in the data model and what one watcher makes of its events; `Watchers.dfy` is any number of watchers
  that merge into one parent concurrently.

`Sequences.dfy` defines what is left of a list. Code that updates things in place is modelled by classes and loops with
contracts; protocols are step systems whose runs are sequences of steps, and what holds of them holds of every run, in
every interleaving.

## Where the code does not do what one might expect

In each case the condition under which it does is proved to be exact.

* A request is executed twice if a watcher's timer ends its watch while the other core executes the request or is about to
  reserve it, or if a lease runs out on a live holder while the other core waits for it (`Transaction.Careful`,
  `CarelessStepIsUnsafe`, `LateCoreRepeatsRequest`, `SlowOwnerLosesRequest`).
* A core whose timer fires before its watch has taken in any event executes a request that was served, even if the mark is
  in its queue (`Progress.UnseenMarkRepeats`); by any other of its own steps it never does (`CompletionIsSeen`).
* An owner loses a key that is still its own if a monitor of an earlier, abandoned entry comes back with an unfavourable
  answer (`Stability.StaleMonitorDisowns`); without such a monitor it never does (`OwnersStay`).
* No handler answers the deletion of an enabled OLT (`Transitions.ShippedMeans`).
* One failed renewal with another attempt still to come before the request ends loses the transaction key, however
  punctual the attempts are, because a lease lasts just two renewal intervals (`Lease.KeptIffSteady`, `FailureLosesKey`).
* An abandoned device can still be claimed by a monitor that already holds a favourable answer, so expiry of an abandoned key
  can lead to two owners (`Takeover.AbandonedYetClaimed`, `CarelessExpiryIsUnsafe`).
* `ComputeRoutes` gives routes to the first two NNIs only, and keeps old routes when given fewer than two ports. `AddPort`
  gives routes to every NNI, so adding a port and computing all routes agree if and only if there are at most two NNIs, or
  there was no NNI, or there was no UNI (`Routes.AddPortRefinesComputeRoutes`).
* Watchers copy the list of children without the lock under which they merge it later. A watcher that merges an older copy
  takes a sibling back to an earlier revision, and the drop of that revision then removes the sibling for good
  (`Watchers.ChildIsLost`, `KeepsIffFresh`, `KeepsIffRecent`).
* A watcher whose child has a proxy marks the proxy as busy with its first report and drops the reports that follow until an
  operation on the proxy ends (`Revisions.SecondReportDropped`, `NewestIffInTime`).
* The meter of a flow can vanish when `meterDelete` stores the meters but not the flows; meter counters go wrong when flows
  with meters are deleted by `flowDelete`, replaced by a flow with another meter, or when only one of two writes succeeds
  (`LogicalDevice.Torn`, `Skews`).
* An addition with the overlap flag does not look for an entry with the same key, so keys can repeat.
* A rule to an NNI that matches on EAPOL, IGMP or UDP is turned towards the controller by the decomposer
  (`UpstreamMeaning.TurnedAway`, `UpstreamLosses.ProtocolsTurnedAway`), and the OLT may prefer a rule for the controller that the
  logical device does not choose (`TakenAtOlt`, `EapolTakenAtOlt`).
* The ONU part of a rule for the controller does not match on the rule's VLAN id, but pushes it: the devices send packets of
  any VLAN to the controller, the logical device only those whose outer tag is that id
  (`UpstreamMeaning.ControllerIffTagFits`). Of two such rules that differ in the VLAN id only, the ONU never uses the later
  one (`LaterVlanShadowed`, `UpstreamLosses.VlansAreForgotten`).
* If two such rules have the same cookie as well, their ONU parts have the same key, and the later request replaces the
  earlier part (`RuleByRule.VlanTrapsClash`, `LatestStays`, `DeviceHoldsTable`).

Where comments and code disagree the model follows the code: the overlap check is a stub that finds nothing, and the flag
named for resetting counters carries them over.

## Model

| member | source | states |
|---|---|---|
| Transaction.Watch | rw_core/core/transaction.go:243-315 | the verdict is that of the first input that is neither news of an owner nor a timer after the transaction was seen: a completion mark alone leads to deletion of the key, and whatever cannot be read ends the watch without acquiring |
| Transaction.DecideAppend | rw_core/core/transaction.go:277-308 | later events never change what a queue of watch events makes a watcher conclude |
| Transaction.InvStep | rw_core/core/transaction.go:177-339 | every careful step of either core, of the store or of a crash keeps the invariant that ties phases, key, lease and undelivered events |
| Transaction.InvRun | rw_core/core/transaction.go:177-339 | the invariant holds after every careful run |
| Transaction.CarefulRunsAreSafe | rw_core/core/transaction.go:16-29 | in every interleaving of a careful run at most one live core executes the request |
| Transaction.CarelessStepIsUnsafe | rw_core/core/transaction.go:295-307 | carefulness is exact: any careless step in any reachable state can be continued to two live cores executing the request |
| Transaction.TakeOver | rw_core/core/transaction.go:221-315 | a live core that is exposed when the key is lost gets to execute the request |
| Transaction.GenericRun | rw_core/core/transaction.go:177-219 | for requests that both cores reserve, dependable runs are careful and keep the stronger invariant |
| Transaction.TakeoverOnlyAfterCrash | rw_core/core/transaction.go:177-219 | a generic request is acquired as abandoned only if the other core crashed, whatever the watcher's timer does |
| Transaction.LateCoreRepeatsRequest | rw_core/core/transaction.go:318-330 | a closed request leaves a completion mark; once that has expired a second core executes the request again |
| Transaction.LateCoreFindsMark | rw_core/core/transaction.go:221-262 | while the mark is there the second core is denied, and a look at the key tells it that the request was served |
| Transaction.SlowOwnerLosesRequest | rw_core/core/transaction.go:300-307 | a non-owner's timer takes the request from a live owner that has not reserved yet |
| Progress.CompletionIsSeen | rw_core/core/transaction.go:243-336 | after every careful run in which a core with a live peer closes the request, the completion mark is under the key; however the peer goes on by its own steps it never executes the request, and its own steps take it to the end without the request and remove the mark |
| Progress.UnseenMarkRepeats | rw_core/core/transaction.go:295-307 | the exception is real: a timer that fires before the watch has seen anything makes the peer execute a served request |
| Progress.HeardRun | rw_core/core/transaction.go:243-315 | in every careful run a watcher has a deletion or a mark in its queue while the key is absent, or has seen and will see nothing |
| Progress.IdleTimerMeansNoOwner | rw_core/core/transaction.go:295-307 | as long as the store answers, a watcher with an empty queue acts on its timer only if nobody has reserved the request |
| Progress.SurvivorFinishes | rw_core/core/transaction.go:221-315 | no request is lost: wherever in a careful run a core crashes, a live peer gets, by its own steps and the expiry of the lease, to where it executes the request or the crashed core turns out to have completed it |
| Progress.CrashIsFinal | rw_core/core/transaction.go:58-68 | a core that crashed takes no further step in any run |
| Lease.LeaseLastsTwoIntervals | rw_core/core/transaction.go:182-201 | for every timeout the lease lasts exactly two renewal intervals, and an interval is the least number of seconds, five or more, that covers the timeout |
| Lease.LostIffGap | rw_core/core/transaction.go:340-361 | with the timer running from the last attempt and the lease from the last success, the key is lost exactly if some attempt comes two intervals after the last success before it |
| Lease.KeptIffSteady | rw_core/core/transaction.go:340-361 | the key survives until Close if and only if no attempt is late by an interval, every attempt but the last succeeds, and Close comes within two intervals of the last success |
| Lease.FailureLosesKey | rw_core/core/transaction.go:340-361 | a failed renewal with another attempt still to come before Close loses the key, whatever the delays |
| Lease.HoldOnToTxnUntilProcessingCompleted | rw_core/core/transaction.go:340-361 | for every timeout and every sequence of delayed and failing turns, the renewal loop keeps the key until Close if and only if the turns are steady |
| SingleFlight.InvStep | rw_core/core/device_manager.go:466-513 | every critical section of every thread keeps the loading invariant |
| SingleFlight.InvRun | rw_core/core/device_manager.go:466-513 | the loading invariant holds in every reachable state |
| SingleFlight.SingleLoader | rw_core/core/device_manager.go:466-499 | at most one thread loads a device, and it closes every listed channel once |
| SingleFlight.LoadedBeforeWake | rw_core/core/device_manager.go:502-512 | a waiter that wakes after a successful load finds the agent, unless it was removed since the last successful load |
| SingleFlight.NoLostWakeup | rw_core/core/device_manager.go:466-513 | a blocked waiter can always be woken within two steps of the loader, whatever the load returns |
| SingleFlight.LoadsOnlyIfMissing | rw_core/core/device_manager.go:466-482 | a thread starts a load only for a device with an id that is neither in memory nor being loaded |
| SingleFlight.AgentsChange | rw_core/core/device_manager.go:466-499 | agents come by successful loads or by other operations, and go by other operations only |
| SingleFlight.CallsAnsweredAtOnce | rw_core/core/device_manager.go:466-513 | a call for a device in memory needs no load, and one without an id is turned down |
| SingleFlight.WakesKnowing | rw_core/core/device_manager.go:485-512 | a thread that waits for a load that succeeds wakes knowing it |
| SingleFlight.AnswerIsRight | rw_core/core/device_manager.go:502-513 | a call that returns says whether the agent is in the map then, and says yes after a successful load unless the agent was removed since |
| SingleFlight.EveryCallReturns | rw_core/core/device_manager.go:466-513 | every call under way in a reachable state can come to an answer in at most four steps, and to yes if the load still to be made succeeds |
| Ownership.DeviceOwnership.constructor | rw_core/core/device_ownership.go:63-78 | a core starts without entries |
| Ownership.DeviceOwnership.OwnedByMe | rw_core/core/device_ownership.go:200-243 | answers for the key that a device resolves to; only the first question about a key takes over what the store says, and starts one monitor for it; known entries and resolutions stay |
| Ownership.DeviceOwnership.AbandonDevice | rw_core/core/device_ownership.go:246-274 | forgets an ownership key with its monitor channel and every device that resolves to it, or just the device, and nothing else; devices still resolve to entries, and exactly the monitors without an entry are told to stop |
| Ownership.InvStep | rw_core/core/device_ownership.go:95-183 | every careful step of cores, monitors and store keeps the invariant that all claims of live cores are in the store |
| Ownership.OwnershipIsExclusive | rw_core/core/device_ownership.go:200-243 | after every careful run two live cores never both own a key, and an owner's id is in the store |
| Ownership.ClaimBecomesOwner | rw_core/core/device_ownership.go:122-160 | any claim, in flight or recorded, turns into an owned entry even if the key belongs to another core |
| Takeover.Seize | rw_core/core/device_ownership.go:95-160 | any live core, with or without an entry, a call in flight or a monitor at work, can come to own a free key while all other cores stand still |
| Takeover.CarelessExpiryIsUnsafe | rw_core/core/device_ownership.go:112-160 | the condition on expiry is exact: after expiry under a live claim every other live core, whatever it is doing, can end up owning the key together with the holder |
| Takeover.AbandonedYetClaimed | rw_core/core/device_ownership.go:246-274 | from every initial state there is a run in which a core has abandoned a key that a monitor's answer in flight still claims, so that expiry is not careful |
| Stability.OwnersStay | rw_core/core/device_ownership.go:122-160 | an owner without stale monitors stays the owner until it crashes or abandons the key, whatever the store answers and other cores do |
| Stability.StaleMonitorDisowns | rw_core/core/device_ownership.go:122-183 | the condition is exact: a monitor that still asks the store, or holds an unfavourable answer, can take away the ownership while the key is still there |
| Stability.FirstClaimIsSecure | rw_core/core/device_ownership.go:200-243 | a core that asks for a key for the first time and gets it owns it in this lasting way |
| Stability.OrphanStops | rw_core/core/device_ownership.go:122-160 | a monitor whose entry is gone ends by its own steps, without bringing the entry back |
| Stability.CrashIsFinal | rw_core/core/device_ownership.go:112-160 | a core that crashed stays as it was in every run |
| Stability.Failover | rw_core/core/device_ownership.go:112-160 | wherever in a careful run a core crashes, its keys expire without harm and any live core can come to own them, alone |
| Ownership.MonitorsAddNoEntry | rw_core/core/device_ownership.go:122-183 | monitors never bring an abandoned entry back; only a new request for the key does |
| Transitions.GetTransitionHandler | rw_core/core/device_state_transitions.go:215-250 | for every table, returns the handlers of the first exact entry for the device's own type, else of the last exact entry for any type, else of the first entry that answers the part of the state that changed, else none |
| Transitions.UnchangedState | rw_core/core/device_state_transitions.go:215-250 | an unchanged state runs nothing exactly when no entry leads from a state to itself |
| Transitions.OneDeletionEntry | rw_core/core/device_state_transitions.go:60-174 | exactly one shipped entry answers the deletion of a disabled device, or of an enabled child |
| Transitions.DeletionCleansUp | rw_core/core/device_state_transitions.go:60-174 | with the shipped table, a disabled device or an enabled child that is deleted is cleaned up fully, whatever its other states were and become |
| Transitions.ShippedMeans | rw_core/core/device_state_transitions.go:60-250 | the handlers chosen from the shipped table for every device and every change of state, by administrative states and, if these stay, by operational states |
| Transitions.ActivationSetsUp | rw_core/core/device_state_transitions.go:64-82 | an OLT that becomes active gets its logical device, and an ONU that becomes active its UNI ports, whatever their connection states were and become |
| Revisions.IndexByName | db/model/non_persisted_revision.go:363-371 | maps every name to its last position |
| Revisions.MergeGiven | db/model/non_persisted_revision.go:381-418 | an unchanged child keeps its revision, a changed or new one takes the given revision |
| Revisions.UpdateChildren | db/model/non_persisted_revision.go:339-439 | the children become the merge of given and existing children; other types stay |
| Revisions.MergeUnique | db/model/non_persisted_revision.go:339-439 | names stay unique |
| Revisions.MergeOrigin | db/model/non_persisted_revision.go:339-439 | every child of the merge comes from the given or the existing children |
| Revisions.NoChildLost | db/model/non_persisted_revision.go:358-422 | with unique names no name is lost: the names are those of both lists, given names carry given data, and an existing revision stays if and only if the given list does not name it, repeats its data or has that very revision |
| Revisions.SurvivesIff | db/model/non_persisted_revision.go:358-422 | an existing revision survives a merge exactly if every given revision of its name has its data, or is it |
| Revisions.MergeCovers | db/model/non_persisted_revision.go:339-439 | a list that repeats the existing names in place is the result |
| Revisions.Parent.constructor | db/model/non_persisted_revision.go:77-85 | a parent starts with the given children |
| Revisions.Parent.ChildDrop | db/model/non_persisted_revision.go:468-480 | removes the child with a given hash, if there is one, and keeps all others in order |
| Revisions.Parent.ReplaceChild | db/model/persisted_revision.go:404-439 | puts a revision with other data in its predecessor's place; the drop of the predecessor's hash removes nothing else |
| Revisions.Parent.AddChild | db/model/persisted_revision.go:467-506 | one child is added, the others stay |
| Revisions.Parent.VerifyPersistedEntry | db/model/persisted_revision.go:381-519 | a stored entry refreshes data and version of the child of its name when newer, changes nothing when not, and adds a child when the name is unknown |
| Revisions.Parent.Replay | db/model/persisted_revision.go:152-260 | any sequence of watch events and operations on the proxy changes the watched child only, to what the watcher makes of them |
| Revisions.OwnVersionLags | db/model/persisted_revision.go:152-194 | the version that a watcher compares reports with is never ahead of the listed child |
| Revisions.WithoutProxyAllCount | db/model/persisted_revision.go:178-260 | without a proxy every report counts: skipping those that are not newer than the watcher's own revision loses nothing |
| Revisions.SecondReportDropped | db/model/persisted_revision.go:223-238 | with a proxy the report after an applied one is dropped, whatever it says |
| Revisions.NewestIffInTime | db/model/persisted_revision.go:223-238 | with a proxy a child gets to the newest reported version if and only if a report of that version comes while the proxy is free, read off the inputs: nothing but reports that are not newer than the watcher's revision came since an operation ended, or since the start |
| Revisions.WatchedIs | db/model/persisted_revision.go:178-260 | what a watcher with a proxy remembers, whether the proxy is busy and the version it compares with, is what the inputs before say |
| Revisions.AppliedCount | db/model/persisted_revision.go:178-260 | with a proxy a child settles to what the reports say that came while the proxy was free and were newer, as if there had been no others |
| Revisions.SettledIsNewest | db/model/persisted_revision.go:394-427 | events never lower a version: the child settles on the newest version seen, with data that an event of that version carried |
| Revisions.ReplaysConverge | db/model/persisted_revision.go:394-427 | when versions determine data, replays that report the same versions agree, in any order and with any repetitions |
| Watchers.InvStep | db/model/persisted_revision.go:381-519 | every step of every watcher whose merge carries the current data of all siblings keeps the invariant that ties list, copies, pending merges and drops, loses no child and lowers no version |
| Watchers.StaleLowers | db/model/persisted_revision.go:387-432 | a merge that does not carry the current data of a sibling takes that sibling back to a lower version |
| Watchers.KeepsIffFresh | db/model/persisted_revision.go:381-519 | in every interleaving of any number of watchers, no child is lost and no version falls if and only if every merge carries the current data of all siblings |
| Watchers.KeepsIffRecent | db/model/persisted_revision.go:381-519 | if no child returns to data it had before, this holds if and only if no merge uses a copy that is older than the last change of a sibling |
| Watchers.OwnRevisionLags | db/model/persisted_revision.go:152-194 | as long as merges are fresh, the revision that a watcher compares reports with is not ahead of the listed one |
| Watchers.AloneRefreshes | db/model/persisted_revision.go:381-519 | a watcher that is not interrupted does what the report says: newer data and version replace the old ones, anything else changes nothing, and all other children stay |
| Watchers.ChildIsLost | db/model/persisted_revision.go:432-439 | two children reported with new data at the same time: from every initial state there is a run in which one is taken back to its earlier revision and then removed |
| Watchers.MergeByName | db/model/non_persisted_revision.go:339-439 | what the merge of lists leaves under a name: the given revision, unless none is given or the data is the same |
| DeviceFlows.SwapRemove | rw_core/core/device_agent.go:277-291 | removes one slot by moving the last one into it, and leaves nil behind |
| DeviceFlows.ToUpdateToDelete | rw_core/core/device_agent.go:293-334 | the in-place walk computes the difference between request and stored table |
| DeviceFlows.ToKeep | rw_core/core/device_agent.go:435-450 | keeps the stored entries whose key is not to be deleted, in order |
| DeviceFlows.DifferenceConserves | rw_core/core/device_agent.go:293-334 | no entry is lost or invented: stored table and reduced request make up new table and deletions, as multisets |
| DeviceFlows.DifferenceSplits | rw_core/core/device_agent.go:293-334 | with unique keys the walk finds exactly the new, the changed and the kept entries, said without the walk |
| DeviceFlows.DifferenceOverrides | rw_core/core/device_agent.go:293-334 | with unique keys the new table is the stored table overridden by the request, with unique keys |
| DeviceFlows.AddThenDelete | rw_core/core/device_agent.go:293-460 | adding and then deleting restores the stored list in order if and only if no added key was stored before |
| DeviceRequests.DeletionIs | rw_core/core/device_agent.go:419-502 | after a deletion no flow or group with a listed key is left in the store or at the adapter; every other entry is there as often as before, in order in the store, for both kinds of device |
| DeviceRequests.AdditionIs | rw_core/core/device_agent.go:336-403 | after an addition the store has the requested flows and groups and those under other keys, each key once, earlier ones first and in order, and the adapter holds the same |
| DeviceRequests.AddThenDeleteRestores | rw_core/core/device_agent.go:336-502 | adding flows and groups and deleting them again restores what the device stores, order included, if and only if it had none of their keys; the adapter is in sync again |
| DeviceFlows.NothingLeft | rw_core/core/device_agent.go:351-361 | the empty-table check after the walk fires only when nothing was asked for and nothing stored |
| DeviceFlows.DeviceAgent.AddFlowsAndGroups | rw_core/core/device_agent.go:336-403 | stores the overridden tables and sends them, or the changes, to the adapter; for an unknown device type nothing changes, and if the store fails the adapter already has the changes and the store has not |
| DeviceFlows.DeviceAgent.DeleteFlowsAndGroups | rw_core/core/device_agent.go:419-502 | stores the remaining tables and sends them, or the deletions; for an unknown device type nothing changes, and if the store fails the adapter already has the changes and the store has not |
| DeviceFlows.SyncStep | rw_core/core/device_agent.go:336-502 | one request keeps an incremental and a bulk device equal in store and both adapters in sync |
| DeviceFlows.IncrementalEqualsBulk | rw_core/core/device_agent.go:336-502 | after any sequence of requests incremental messages and whole tables lead to the same store and the same entries at the adapter |
| RuleByRule.LatestStays | rw_core/core/device_agent.go:293-403 | a device that gets rules one by one holds, for every key, the latest rule of that key, once |
| RuleByRule.HoldsTableIffNoClash | rw_core/core/logical_device_agent.go:864-880 | it holds, in order, the table that collects all rules without repetitions if and only if no two of them share table, priority, flags, cookie and match and differ in the rest |
| RuleByRule.DeviceHoldsTable | rw_core/core/logical_device_agent.go:864-880 | so it is for the decomposed table of every device of a logical device, and its adapter holds the same entries, whether it receives changes or whole tables |
| RuleByRule.VlanTrapsClash | rw_core/flowdecomposition/flow_decomposer.go:173-208 | the ONU parts of two rules for the controller that differ in the VLAN id only always differ, and have the same key exactly if the rules have the same cookie |
| OpenFlow.FindFlow | vendor/github.com/opencord/voltha-lib-go/v3/pkg/flows/flow_utils.go:1178-1219 | the first rule with the same table, priority, flags, cookie and match, or none |
| LogicalDevice.FindMeter | rw_core/core/logical_device_agent.go:773-801 | the first meter with an id, or none |
| LogicalDevice.GetMeterConfig | rw_core/core/logical_device_agent.go:907-933 | fails exactly if a named meter is missing; otherwise lists each named meter once, no other, and each as the first meter with that id |
| LogicalDevice.GetUpdatedFlowsAfterDeleteByMeterID | rw_core/core/logical_device_agent.go:759-771 | removing from the back keeps exactly the flows without that meter, in order, and says whether any went |
| LogicalDevice.LogicalDeviceAgent.UpdateFlowCountOfMeterStats | rw_core/core/logical_device_agent.go:773-801 | the 32-bit counter of the flow's meter, and no other, goes up or down by one |
| LogicalDevice.LogicalDeviceAgent.FlowAdd | rw_core/core/logical_device_agent.go:804-904 | the tables after an addition or a replacement, for every combination of failing steps |
| LogicalDevice.LogicalDeviceAgent.FlowDelete | rw_core/core/logical_device_agent.go:936-1007 | the tables after a deletion by wildcard, for every combination of failing steps |
| LogicalDevice.LogicalDeviceAgent.FlowDeleteStrict | rw_core/core/logical_device_agent.go:1076-1147 | the tables after a strict deletion, for every combination of failing steps |
| LogicalDevice.LogicalDeviceAgent.MeterAdd | rw_core/core/logical_device_agent.go:624-657 | a meter is added once |
| LogicalDevice.LogicalDeviceAgent.MeterDelete | rw_core/core/logical_device_agent.go:659-713 | a meter goes, and with it the flows that name it if they can be stored |
| TableChanges.FlowAddition | rw_core/core/logical_device_agent.go:804-904 | a successful addition appends the requested rule, or puts it, with the counters the reset flag asks for, in the place of the first entry of its key, and nothing else changes but the count of its meter; a failed one leaves the flows as they were, or has appended the rule and failed to store the count |
| TableChanges.FlowAdditionSucceeds | rw_core/core/logical_device_agent.go:804-904 | it succeeds exactly if the table has the rule already, or the meter is there and all steps succeed |
| TableChanges.FlowDeletion | rw_core/core/logical_device_agent.go:936-1007 | a deletion takes away exactly the rules of that key or covered by table, cookie mask, output port and group, keeps the others in order, or fails and changes nothing; when it fails |
| TableChanges.BroadDeletions | vendor/github.com/opencord/voltha-lib-go/v3/pkg/flows/flow_utils.go:1223-1257 | a request without any restriction empties the table, and one with the full cookie mask takes exactly the rules with that cookie |
| TableChanges.AgreeIff | vendor/github.com/opencord/voltha-lib-go/v3/pkg/flows/flow_utils.go:1223-1257 | cookies agree exactly if no bit of the mask is one in which they differ |
| TableChanges.StrictDeletionFlows | rw_core/core/logical_device_agent.go:1076-1147 | a strict deletion takes away the first entry of that key and no other, and when it succeeds |
| TableChanges.StrictDeletionMeters | rw_core/core/logical_device_agent.go:1076-1147 | the count of that entry's meter is one less before the flows are stored, and so even if they then cannot be |
| TableChanges.StrictDeletionFails | rw_core/core/logical_device_agent.go:1076-1147 | without an entry of that key it fails and changes nothing |
| TableChanges.MeterAddition | rw_core/core/logical_device_agent.go:624-657 | a meter is added behind the others with no flows, unless its id is taken |
| TableChanges.MeterDeletionMeters | rw_core/core/logical_device_agent.go:659-713 | the first meter with that id goes; without one, or if the meters cannot be stored, nothing changes |
| TableChanges.MeterDeletionFlows | rw_core/core/logical_device_agent.go:659-713 | with the meter go exactly the flows that name it, the others in order; if the flows cannot be stored all stay |
| LogicalDevice.ModificationIsLocal | rw_core/core/logical_device_agent.go:715-757 | modifying a meter changes the configuration of the first meter with that id only; flows, ids and flow counts stay, and an unknown id or a failing store changes nothing |
| LogicalDevice.ReferencesKept | rw_core/core/logical_device_agent.go:624-1147 | an operation keeps meter ids unique and every named meter present if and only if it does not delete a meter while failing to store the flows that name it |
| LogicalDevice.CountsKept | rw_core/core/logical_device_agent.go:773-1147 | an operation keeps every meter counter equal to the number of flows that name it if it does not skew, and with fewer than 2^32 flows only if |
| LogicalDevice.KeysAfterFlowAdd | rw_core/core/logical_device_agent.go:804-860 | an addition keeps flow keys unique unless it asks for the overlap check and its key is present |
| LogicalDevice.ExactCounts | rw_core/core/logical_device_agent.go:773-801 | with fewer than 2^32 flows counters are exact |
| LogicalDevice.CleanRuns | rw_core/core/logical_device_agent.go:624-1147 | after every sequence of clean operations from empty tables references and counters are right |
| RouteMaps.ReverseInvolution | rw_core/route/device_route.go:397-403 | reversing a route of any length twice gives it back |
| RouteMaps.GetReverseRoute | rw_core/route/device_route.go:397-403 | hops come in opposite order with ingress and egress exchanged |
| RouteMaps.InnerPortsArePeers | rw_core/route/device_route.go:91-278 | the two inner ports of a good route are the two ends of one PON link, the outer ones are the ports of NNI and UNI |
| RouteMaps.GoodRoutesAgree | rw_core/route/device_route.go:91-278 | two good sets of routes agree wherever both have a route |
| RouteMaps.CompleteRoutesUnique | rw_core/route/device_route.go:91-278 | there is only one good and complete set of routes |
| RouteMaps.PutKeepsGood | rw_core/route/device_route.go:165-170 | entering a route with its reverse keeps routes good |
| RouteMaps.LinkedAgrees | rw_core/route/device_route.go:358-376 | with symmetric links the routes an NNI has already are those a copy would give it, so the order of copying does not matter |
| RouteMaps.CopyKeepsGood | rw_core/route/device_route.go:358-376 | copying the routes of one NNI to another keeps routes good and touches no other route |
| RouteMaps.LanesAre | rw_core/route/device_route.go:144-175 | the nested walk over PON ports, peers and UNI ports visits exactly the UNI ports of devices that a PON port lists and that face the root device |
| RouteMaps.EnteredIsGood | rw_core/route/device_route.go:144-175 | building the routes of an NNI keeps routes good |
| RouteMaps.LanesReachAll | rw_core/route/device_route.go:144-175 | building the routes of an NNI reaches exactly the UNIs that hang off the root device |
| RouteMaps.OnuPortIs | rw_core/route/device_route.go:321-355 | the port found for a device is the one at the least position that is a PON port, of an ONU or of an OLT, and has the root device for a peer |
| RouteMaps.BuildableIff | rw_core/route/device_route.go:134-163 | routes can be built exactly if the root device has ports and every device listed by one of its OLT ports is known and has a PON port with a link back |
| RouteMaps.HangsIff | rw_core/route/device_route.go:144-175 | a UNI hangs off the root device exactly if its device has a UNI port with that number, a PON port with a link to the root device, and an OLT port of the root device has a link to it |
| RouteMaps.CountTellsComplete | rw_core/route/device_route.go:306-318 | the number of routes is twice NNIs times UNIs if and only if both directions of every pair are there |
| Routes.IndexPorts | rw_core/route/device_route.go:111-120 | finds the NNIs in order, their numbers, and the number of the port at every position |
| Routes.DeviceRoutes.constructor | rw_core/route/device_route.go:71-80 | a new cache is empty and valid |
| Routes.DeviceRoutes.Reset | rw_core/route/device_route.go:379-389 | clears the cache |
| Routes.DeviceRoutes.GetDevice | rw_core/route/device_route.go:341-355 | reading a device again and again keeps the cached PON ports answering like the model |
| Routes.DeviceRoutes.GetDevicePonPorts | rw_core/route/device_route.go:321-338 | the first port found is the first one that faces the peer, and there is none exactly if no port faces it |
| Routes.DeviceRoutes.EnterRoute | rw_core/route/device_route.go:165-170 | enters a route and its reverse |
| Routes.DeviceRoutes.BuildRoutes | rw_core/route/device_route.go:134-175 | succeeds exactly if the root device has ports and all listed peers are known and face it, and then enters the routes along all ways to UNI ports |
| Routes.DeviceRoutes.CopyFromExistingNniRoutes | rw_core/route/device_route.go:358-376 | in any order of visits, existing routes stay and the other NNI gets a copy of each route |
| Routes.DeviceRoutes.ComputeRoutes | rw_core/route/device_route.go:91-178 | keeps the invariant, clears everything on errors except too few ports, succeeds exactly if there is an NNI and all links from its device have a link back, routes the first two NNIs to exactly the UNIs that can be reached and the others to none, and so gives every pair its routes, if all UNIs can be reached, exactly when there are at most two NNIs or no UNIs |
| Routes.DeviceRoutes.AddPortAndVerifyPrecondition | rw_core/route/device_route.go:181-203 | adds a port with a new number, and finds both kinds of port exactly if they are there |
| Routes.Admitted | rw_core/route/device_route.go:217-221 | with routes present the precondition of AddPort cannot fail |
| Routes.DeviceRoutes.FindNnis | rw_core/route/device_route.go:228-239 | lists the NNIs and picks the first other one |
| Routes.DeviceRoutes.RouteUni | rw_core/route/device_route.go:254-276 | succeeds exactly if the UNI's device faces the root device, and then routes every NNI to it |
| Routes.DeviceRoutes.AddPort | rw_core/route/device_route.go:207-278 | keeps the invariant, touches only routes of the new port, clears on errors, leaves all as it was with too few ports, routes the new port, and keeps complete routes complete |
| Routes.DeviceRoutes.IsUpToDate | rw_core/route/device_route.go:306-318 | true exactly if the number of ports agrees and no route is missing; without a logical device, if there are no routes |
| Routes.AddPortRefinesComputeRoutes | rw_core/route/device_route.go:91-278 | for every list of ports: adding the last port to the routes computed for the others gives the very routes that computing them all gives, if and only if there are at most two NNIs, or there was no NNI or no UNI before; the root ports are the same |
| Routes.ComputedUnique | rw_core/route/device_route.go:91-178 | the routes that ComputeRoutes gives are determined by the ports, whatever order routes are visited in |
| Routes.ConcatInjective | rw_core/route/device_route.go:392-394 | keys of different positions differ, whatever characters device ids have |
| FlowCompiler.RouteFromUni | rw_core/core/logical_device_agent.go:1470-1480 | all routes from a UNI have the same first hop, so half a route taken from any of them is the same |
| FlowCompiler.GetRoute | rw_core/core/logical_device_agent.go:1407-1483 | whatever order routes are visited in, a UNI gets its route to the NNI, to the first NNI for the controller, and the same half route without output; a trap on an NNI always gets a half route that ends at an NNI of the root device, and a rule without in-port does exactly if there are routes |
| FlowCompiler.DecomposeFlow | rw_core/flowdecomposition/flow_decomposer.go:428-486 | a rule from a UNI becomes the rules of its route's devices, or an error |
| FlowCompiler.AddRules | vendor/github.com/opencord/voltha-lib-go/v3/pkg/flows/flow_utils.go:1064-1082 | each device gets its rule once, other devices keep their tables |
| FlowCompiler.DecomposeRules | rw_core/flowdecomposition/flow_decomposer.go:52-73 | fails exactly if one rule fails, and otherwise gives every device its rules, each once, in order |
| RuleParts.InPortIsFirst | vendor/github.com/opencord/voltha-lib-go/v3/pkg/flows/flow_utils.go:433-443 | the in-port of a rule is that of its first in-port field, 0 without one |
| RuleParts.OutPortIsFirst | vendor/github.com/opencord/voltha-lib-go/v3/pkg/flows/flow_utils.go:417-431 | the output of a rule is that of its first output action, 0 without one |
| RuleParts.VlanVidIsFirst | vendor/github.com/opencord/voltha-lib-go/v3/pkg/flows/flow_utils.go:477-489 | the VLAN id of a rule is that of its first VLAN field, if any |
| RuleParts.TrapFieldsAre | rw_core/flowdecomposition/flow_decomposer.go:76-110 | rules on EAPOL, IGMP or UDP, and no others, are turned towards the controller |
| RuleParts.ExceptIs | vendor/github.com/opencord/voltha-lib-go/v3/pkg/flows/flow_utils.go:373-403 | excluded fields are left out, all others stay as often as they were, in order |
| RuleParts.PartsWhere | rw_core/flowdecomposition/flow_decomposer.go:428-486 | which devices get a part of a rule from a UNI, by table, next table, output and routes |
| RuleParts.FailsWhere | rw_core/flowdecomposition/flow_decomposer.go:428-486 | a rule from a UNI is in error exactly if there is no route to its output, for the controller to the first NNI |
| RuleParts.PartFields | rw_core/flowdecomposition/flow_decomposer.go:142-276 | a part matches on the device's port, on the UNI as tunnel, and on the rule's other fields; the ONU part of a rule for the controller not on its VLAN id |
| RuleParts.OltTrapActions | rw_core/flowdecomposition/flow_decomposer.go:153-171 | the OLT part of a rule for the controller pushes the tag 4000 and sends to the controller or to the first NNI |
| RuleParts.OnuTrapActions | rw_core/flowdecomposition/flow_decomposer.go:173-208 | the ONU part pushes the VLAN id of the rule, if any, and sends to the OLT |
| UpstreamRules.PartCarries | rw_core/flowdecomposition/flow_decomposer.go:142-276 | what a rule became, on whatever device, has its meter, cookie, metadata and priority |
| UpstreamRules.TableHasParts | rw_core/flowdecomposition/flow_decomposer.go:52-73 | the table of a device has what the rules became there, and nothing else |
| UpstreamRules.MetersCarried | rw_core/flowdecomposition/flow_decomposer.go:142-276 | the meters that rules of the devices name are exactly those that the logical rules with a part name |
| UpstreamRules.MetersKept | rw_core/flowdecomposition/flow_decomposer.go:142-276 | for rules from UNIs that could be decomposed these are all meters that the rules name |
| Choosing.BestCollected | rw_core/flowdecomposition/flow_decomposer.go:52-73 | a table that was collected rule by rule, without repetitions, chooses the first part of highest priority that matches |
| Choosing.WinnerWins | rw_core/flowdecomposition/flow_decomposer.go:52-73 | the winner matches and precedes, by priority and then by position, every other part that matches; without one none matches |
| UpstreamRules.FirstTableBecomes | rw_core/flowdecomposition/flow_decomposer.go:231-253 | a rule of the first table becomes one rule, on the ONU |
| UpstreamRules.SecondTableBecomes | rw_core/flowdecomposition/flow_decomposer.go:254-275 | a rule of the second table becomes one rule, on the OLT |
| UpstreamRules.TrapBecomes | rw_core/flowdecomposition/flow_decomposer.go:142-209 | a rule for the controller becomes a rule on the OLT and one on the ONU |
| UpstreamRules.TrapFieldsKept | rw_core/flowdecomposition/flow_decomposer.go:76-110 | a decomposed rule is turned towards the controller exactly if the rule has an EAPOL, IGMP or UDP field |
| UpstreamRules.TrapOnOnu | rw_core/flowdecomposition/flow_decomposer.go:173-208 | the ONU part of a rule for the controller takes a packet exactly if the fields of the rule other than the VLAN id do |
| UpstreamRules.TrapOnOlt | rw_core/flowdecomposition/flow_decomposer.go:153-171 | the OLT part takes a packet exactly if all fields of the rule do |
| UpstreamMeaning.OnuWinner | rw_core/flowdecomposition/flow_decomposer.go:219-253 | unless it prefers a rule for the controller, the ONU chooses what the rule chosen in the first table became, ties included |
| UpstreamMeaning.OltWinnerIs | rw_core/flowdecomposition/flow_decomposer.go:219-276 | unless it prefers a rule for the controller, the OLT chooses what the rule chosen in the second table became, ties included |
| UpstreamMeaning.KeepsIff | rw_core/flowdecomposition/flow_decomposer.go:173-208 | a packet stays with the rule of the first table exactly when the ONU does not choose a rule for the controller |
| UpstreamMeaning.LogicalRun | rw_core/flowdecomposition/flow_decomposer.go:215-218 | a packet that the first table passes on leaves the logical device at the NNI of the second rule, rewritten by both |
| UpstreamMeaning.LogicalToController | rw_core/flowdecomposition/flow_decomposer.go:215-218 | the logical device sends a packet to the controller exactly when it chooses a rule for the controller in the first table |
| UpstreamMeaning.DevicesRun | rw_core/flowdecomposition/flow_decomposer.go:219-276 | unless rules for the controller are preferred, the same packet leaves the OLT with the same contents, at that NNI's port or, for a rule on EAPOL, IGMP or UDP, at the controller |
| UpstreamMeaning.MeaningPreserved | rw_core/flowdecomposition/flow_decomposer.go:76-276 | for every table, packet and UNI, as long as the ONU prefers no rule for the controller: ONU, PON link and OLT do what the two tables of the logical device do, if and only if the second rule has no EAPOL, IGMP or UDP field and the OLT prefers no rule for the controller to it |
| UpstreamMeaning.OnuTakesOver | rw_core/flowdecomposition/flow_decomposer.go:142-209 | otherwise the devices send one packet, to the controller if and only if the rule that the OLT chooses, for the packet with the tag of the ONU's rule, has an EAPOL, IGMP or UDP field; it is the ONU's rule or precedes it |
| UpstreamMeaning.TrapReachesController | rw_core/flowdecomposition/flow_decomposer.go:142-209 | a packet that a rule for the controller is about, before all other rules of its UNI by priority and position, leaves the OLT with tag 4000 above the tag the rule asks for, at the controller if and only if the rule has an EAPOL, IGMP or UDP field |
| UpstreamMeaning.ChosenIffTagFits | rw_core/flowdecomposition/flow_decomposer.go:173-208 | the logical device chooses such a rule exactly for packets whose outer tag is the VLAN id that it asks for, if any |
| UpstreamMeaning.ControllerIffTagFits | rw_core/flowdecomposition/flow_decomposer.go:173-208 | if no other rule for the controller is about the packet, the devices send it to the controller whatever its tag, and the logical device does if and only if the rule has no VLAN id or the outer tag is that id |
| UpstreamMeaning.LaterVlanShadowed | rw_core/flowdecomposition/flow_decomposer.go:173-208 | of two rules for the controller that differ in the VLAN id only, the ONU never chooses the later one, and packets of its VLAN arrive with the id of the earlier one |
| UpstreamMeaning.TakenGoesToController | rw_core/flowdecomposition/flow_decomposer.go:76-209 | when the OLT prefers a rule for the controller to the second rule of a packet, the packet ends at the controller |
| UpstreamLosses.EapolTakenAtOlt | rw_core/flowdecomposition/flow_decomposer.go:142-209 | on every logical device in order there are rules by which an EAPOL packet leaves the logical device at an NNI and the devices at the controller |
| UpstreamLosses.ProtocolsTurnedAway | rw_core/flowdecomposition/flow_decomposer.go:76-110 | on every logical device in order, every EAPOL, IGMP or UDP packet that a rule on that protocol lets out of the logical device at an NNI leaves the devices at the controller |
| UpstreamLosses.VlansAreForgotten | rw_core/flowdecomposition/flow_decomposer.go:173-208 | on every logical device in order, rules that send EAPOL packets of a list of VLANs to the controller send all EAPOL packets there, with the first VLAN id on top; the logical device sends those of the listed VLANs as they are and drops the rest |

## Left out

- Transaction.CarefulRunsAreSafe: the KV store is atomic and its watches deliver every change in order; the client that implements it is not part of this model.
- Progress.CompletionIsSeen: the peer's look at the key does not fail after the mark was written, and what it receives can be read; a peer that has given up stays there.
- Lease.KeptIffSteady: an attempt takes no time; what it takes is part of the delay of the next one.
- Ownership.OwnershipIsExclusive: renewals by a live owner succeed; a failing renewal shows up as an expiry.
- Ownership.DeviceOwnership.OwnedByMe: the look-up of a device's parent at the device manager (getOwnershipKey) is a parameter.
- SingleFlight.SingleLoader: the loading of logical devices follows the same scheme with an error path of its own and is not modelled.
- Revisions.UpdateChildren: nested paths, transactions (branches) and three-way merge of revisions are not modelled.
- Revisions.Parent.ReplaceChild: copy, merge and drop are one step here; `Watchers.dfy` has them as steps that interleave.
- Revisions.Parent.AddChild: copy and merge are one step here; `Watchers.dfy` has them as steps that interleave.
- Revisions.Parent.VerifyPersistedEntry: copy and merge are one step here; `Watchers.dfy` has them as steps that interleave.
- Revisions.Parent.Replay: deletions reported by a watch and entries that cannot be unmarshalled are not modelled.
- Watchers.KeepsIffFresh: a drop is one step; other writers of the list (updates through a proxy) are not modelled, and all watched children are there from the start.
- DeviceFlows.IncrementalEqualsBulk: an adapter is taken to remove the listed keys and then to add; replacing whole tables incrementally (updateFlowsAndGroupsToAdapter) is not modelled.
- RuleByRule.DeviceHoldsTable: deletions between the additions are not modelled.
- LogicalDevice.CountsKept: the only-if direction needs fewer than 2^32 flows, as counters have 32 bits.
- LogicalDevice.LogicalDeviceAgent.FlowAdd: groups, and the counts changed by deleting groups, are not modelled.
- Routes.DeviceRoutes.ComputeRoutes: port numbers are distinct, all NNIs are on one device and not on one of its UNI ports; devices do not change while routes are built.
- Routes.DeviceRoutes.AddPort: a port that is there already is added again only over symmetric PON links; locks are not modelled.
- Routes.AddPortRefinesComputeRoutes: the ports are as ComputeRoutes requires them, PON links are symmetric, and routes to every UNI can be built.
- FlowCompiler.DecomposeFlow: rules whose packets come from an NNI (downstream, double-tagged, multicast, NNI traps) and rules without an in-port depend on metadata helpers or on any of several routes and are not modelled; groups pass through unchanged.
- FlowCompiler.DecomposeRules: lists that hold such rules are left out with them; rules are told apart by their contents, not by a hash of them.
- UpstreamMeaning.MeaningPreserved: rules of the UNI for the controller have an EAPOL, IGMP or UDP field, as others are let out at an NNI with tag 4000; OnuTakesOver, TrapReachesController and ControllerIffTagFits cover the packets for which the ONU prefers such a rule; masks, and meters acting on packets, are not modelled.
- Timers, gRPC, Kafka messaging, adapters' own behaviour, the OpenFlow agent, alarms, metrics and image handling are not modelled.
