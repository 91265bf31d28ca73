# A Dafny model of VOLTHA's coordination, PON simulator and OpenFlow agent

The project models four parts of VOLTHA and proves what they promise, for every input, every run
and every iteration order of Python's dictionaries and sets. `dafny verify dfyconfig.toml` checks it.

**Core-store assignment and leader election.** VOLTHA instances elect a leader through a Consul
session lock; the leader maps hexadecimal core-store ids to live members and publishes the mapping;
workers latch onto their id. `Coordination` is one coordinator, `Election` any number of them over
one key with sessions ending at any time. `Reassignment` is one reassignment, `LeaderStore` its
writes, `ClusterRun` whole runs with atomic handlers, `CrashSafety` whole runs in which a leader may
stop between any two writes, and `OverlappingLeaders` runs in which two leaders work on one store.
`MemberList`, `LeaderObject` and `WorkerObject` are the imperative
methods, proved against those functions; `Strings` and `CoreIds` relate the order of strings to the
order of the numbers they denote.

**The PON simulator.** `PonFlows` selects a flow by priority and match mask from a sorted table,
`PonActions` runs VLAN actions on values and on shared frame objects, `PonNet` wires one OLT to any
number of ONUs through mutually recursive delivery, `PonConservation` says exactly when no frame is
lost on the PON, `PonDepth` when delivery ends and how deep it recurses, and `PonSimulator` has the objects, which do
on the heap what `PonNet` says on values.

**The OpenFlow agent.** `OpenFlowStream` reassembles messages, `MessageQueues` is the predicate-based
queue they go through, `Roles` handles roles and generation ids, `Reconciliation` keeps agents in line
with the device list, and `AgentCoverage` says when no mapped device is left without agents.

**Three algorithms.** `YangFlatten` (list and inline flattening of YANG replies), `IgmpFloat` (the
IGMPv3 floating-point code) and `SymbolTable` (longest-prefix symbol resolution).

Things that turn out not to hold are kept as the code has them, with a concrete run or input that
shows it and the exact condition under which they do hold:

- The documentation of `Leader` says that a single instance exists across the cluster. Two can exist
  at once (`Election.TwoLeadersAtOnce`). A self-declared leader holds the key exactly while the key has
  not been written after the index it watches (`Election.HoldsKeyIff`); at most one does
  (`Election.OneHolder`), so of two Leader objects one belongs to an instance that is behind
  (`Election.SecondLeaderIsPast`), and its next answer demotes it (`Election.StaleLeaderIsDemoted`,
  `Election.StaleAnswerInFlight`). A leader without a Leader object is possible too, exactly as
  `Election.NoLeaderObjectIff` says.
- A reassignment leaves a current member without a slot exactly when an id that it makes is in use
  (`Reassignment.AllPlacedIff`). With ids 0001..n that starts beyond 0xffff members, where string `max`
  stays at `ffff` (`ClusterRun.NextIdFreshIff`, `ClusterRun.OverflowEvicts`).
- Recursive deletes take the record of a current member with them (`ClusterRun.PrefixTakesRecord`),
  exactly when the id of a cleared member is a prefix of its own (`ClusterRun.RecordsSurviveIff`).
- Frames can be lost on the PON (`PonConservation.FrameLost`): counters of both sides agree exactly when
  no ONU before the last fails on a frame that the OLT sends (`PonConservation.ConservedOverRunsIff`).
- Delivery on the PON need not end (`PonNet.EchoesForever`). Where devices hand a frame on as it is, no
  call depth suffices exactly when the OLT echoes it and the first ONU that fails on it or echoes it
  echoes it, and three calls do otherwise (`PonDepth.EndsIff`). Whatever devices do to frames, three
  calls suffice if at most one side of the PON echoes (`PonDepth.ThreeCallsSuffice`).
- A frame object shared by all ONUs is not what each would see in a copy of its own
  (`PonNet.SharingShows`); when it is, `PonNet.OwnCopyIff` says.
- Agents converge exactly when nothing is to be deleted, or there are at most two controller endpoints
  and every agent to be deleted stops (`Reconciliation.ConvergesIff`).
- Device entries can dangle when two devices share a datapath (`Reconciliation.SharedDatapathDangles`).
  Among devices of a given set no refreshes ever leave one dangling exactly when in that set a datapath
  determines its device (`AgentCoverage.CoveredIff`).
- The staleness test accepts what the OpenFlow rule rejects (`Roles.StaleButAccepted`), in exactly two
  cases (`Roles.AgreesWithSpecification`).
- A top-level leaf with the reserved tag is lost from a YANG reply (`YangFlatten.ReservedLeafIsLost`),
  and nothing else is (`YangFlatten.ReplyKeepsTexts`).
- A nested type can resolve to another symbol (`SymbolTable.NestedNameClashes`), exactly when a symbol's
  name is a package of another (`SymbolTable.ResolvesIff`).

One more has failing runs and a rule that suffices, each half of which is needed: when two leaders work
on one store, two workers can get one core-store id if a leader reassigns while the other still has
something to write (`OverlappingLeaders.OverlapSharesCoreStore`), or after the other has written what it
has not read (`OverlappingLeaders.StaleSharesCoreStore`), and never otherwise
(`OverlappingLeaders.OrderlyIsSafe`).

## Model

| member | source | states |
|---|---|---|
| `CoreIds.FormatRoundTrip` | common/utils/id_generation.py:23-32 | reading a formatted id gives the number back; four digits suffice exactly up to 0xffff |
| `CoreIds.FourDigitIsFormat` | common/utils/id_generation.py:23-32 | every four-digit id is the rendering of its own number, so ids and numbers correspond one to one |
| `CoreIds.MaxIsNumericMax` | voltha/leader.py:374-375 | on four-digit ids the string maximum is the numeric maximum |
| `Reassignment.ReassignContents` | voltha/leader.py:357-388 | the content of every slot after a reassignment, for every order in which cleared ids are popped |
| `Reassignment.ReassignIsExact` | voltha/leader.py:357-388 | when no id to be made is in use: members that have a slot keep it, no id disappears, new ids are above the maximum, occupied slots and current members are in bijection, none of the departed remains |
| `Reassignment.AllPlacedIff` | voltha/leader.py:373-386 | every current member gets a slot exactly when no id to be made is in use, for every injective mapping |
| `Reassignment.FourDigitsAreValid` | voltha/leader.py:374-386 | mappings with four-digit ids never collide |
| `Reassignment.ReassignSize` | voltha/leader.py:357-388 | the size becomes the larger of the old size and the member count; there is an empty slot exactly when there are fewer members than slots |
| `LeaderStore.AfterSchedule` | voltha/leader.py:393-414 | the store after all writes of a reassignment, for every order of both sets: mapping, records of new members, records left by the recursive deletes |
| `ClusterRun.MemberRecordSurvives` | voltha/leader.py:397-414 | a member ends with its own record exactly when no cleared member's id is a prefix of its id |
| `ClusterRun.RecordsSurviveIff` | voltha/leader.py:397-414 | all current members end with their records exactly when no cleared id is a prefix of a current one, a member back under another host included |
| `ClusterRun.PrefixTakesRecord` | voltha/leader.py:408-414 | two members, of which `v1` leaves: the record of `v10`, which keeps its slot, is gone |
| `ClusterRun.LostRecordStaysLost` | voltha/leader.py:397-406 | a mapped member whose record was never written gets none from any later reassignment that keeps it |
| `ClusterRun.BroadcastIdReached` | common/utils/id_generation.py:21-32 | the reserved broadcast id is handed out exactly from 0xffff members on |
| `ClusterRun.GateOpens` | voltha/leader.py:209-242 | in a state of that shape the gate opens only when there are at least as many members as slots |
| `ClusterRun.ShapeStep` | voltha/leader.py:300-313 | a membership change either waits at the temporal-state gate and changes nothing, or leaves exactly the listed members on the ids 0001..n |
| `ClusterRun.ShapeOverRuns` | voltha/leader.py:209-414 | after any run from an empty store the ids are exactly 0001..n, all occupied, in bijection with n members, and the records say the same |
| `ClusterRun.NextIdFreshIff` | voltha/leader.py:374-386 | with ids 0001..n in use the next id is unused exactly when n is at most 0xffff or all hexadecimal digits of n but the last are f |
| `ClusterRun.OverflowEvicts` | voltha/leader.py:374-386 | otherwise a newcomer takes the slot of a running member |
| `MemberList.Sanitize` | voltha/leader.py:166-207 | one member per replica number, with the latest start time as a string; the list unchanged when an id does not match or numbers are distinct |
| `MemberList.LatestNumerically` | voltha/leader.py:189-194 | with start times of one width the member kept is numerically the latest |
| `LeaderObject.MaxKey` | voltha/leader.py:374-375 | the string maximum of the ids in use |
| `LeaderObject.ClearDeparted` | voltha/leader.py:357-371 | step 1 over the dictionary in any order: retained mapping, active ids, cleared slots, inactive ids |
| `LeaderObject.PlaceNewcomers` | voltha/leader.py:373-386 | step 2 for some order of popping the cleared ids; fails exactly when a new id is to follow one that is no numeral |
| `LeaderObject.FindSlot` | voltha/leader.py:348-351 | a slot of the member, or nothing exactly when it has none |
| `LeaderObject.WriteAssignments` | voltha/leader.py:397-406 | one record per new member, each with that member's slot, in some order |
| `LeaderObject.RemoveDeparted` | voltha/leader.py:408-414 | both recursive deletes per departed member, in some order |
| `LeaderObject.Publish` | voltha/leader.py:393-414 | steps 3 to 5 are one schedule of writes, in that order |
| `LeaderObject.Leader.TrackMembers` | voltha/leader.py:283-313 | ignored while temporal or unchanged; otherwise the list is taken, sanitised or as it is, the mapping loaded or created, the timer restarted |
| `LeaderObject.Leader.ReassignCoreStores` | voltha/leader.py:345-418 | mapping and log of writes are a reassignment and its schedule; without a member list, or when a new id cannot be made, it fails untouched and rearms the timer |
| `LeaderObject.Leader.Update` | voltha/leader.py:283-418 | an update followed by its timer is one step of the runs of `ClusterRun` |
| `CrashSafety.StepKeepsInv` | voltha/leader.py:346-414 | the invariant that ties store, leader and workers is kept by every step, crashes between any two writes included |
| `CrashSafety.RunKeepsInv` | voltha/leader.py:119-143 | it holds over every run, with successors that reload the stored mapping |
| `CrashSafety.NoSharedCoreStore` | voltha/worker.py:100-145 | over every run two running processes never hold the same core-store id |
| `CrashSafety.LatchedForGood` | voltha/worker.py:217-231 | a core-store id once set never changes and the deferred fires at most once, with it |
| `CrashSafety.FirstMemberServed` | voltha/worker.py:100-145 | the machine is not vacuous: a run in which a process starts, is listed, assigned and told the first id |
| `OverlappingLeaders.OrderlyIsSafe` | voltha/leader.py:283-414 | over every run of two leaders on one store, two running processes never hold the same id, provided a leader reassigns only when the other has nothing left to write and has written nothing since it last read |
| `OverlappingLeaders.OverlapSharesCoreStore` | voltha/leader.py:345-414 | a run in which a reassignment, right after reading, overlaps with the writes of another: two running workers get one id |
| `OverlappingLeaders.StaleSharesCoreStore` | voltha/leader.py:303-343 | the same with no writes outstanding, from a mapping read too early |
| `WorkerObject.FirstValue` | voltha/worker.py:117-122 | the first non-empty value under exactly the member's key |
| `WorkerObject.Worker.TrackMyAssignments` | voltha/worker.py:100-145 | latches that value once and arms the timer, changes nothing else, polls again exactly while there is no id and no halt |
| `WorkerObject.Worker.ProcessConfigAssignment` | voltha/worker.py:228-231 | the deferred fires with the id, once |
| `WorkerObject.Worker.Stop` | voltha/worker.py:70-81 | halts, leaves no timer and keeps the id |
| `WorkerObject.Worker.TrackMyPeers` | voltha/worker.py:168-178 | the peers are the mapping without the own id; published exactly when changed; fails when the own id is missing |
| `WorkerObject.PollIsReadAndHandle` | voltha/worker.py:110-125 | a poll that finds a value reads the member's own record, whatever else shares the prefix, and is two steps of the cluster machine |
| `WorkerObject.EmptyPoll` | voltha/worker.py:110-125 | a poll that finds nothing means there is no usable own record |
| `Coordination.Coordinator.WaitForALeader` | voltha/coordinator.py:147-159 | a new waiter fires at once when a leader is known, else is queued |
| `Coordination.Coordinator.SetLeaderId` | voltha/coordinator.py:487-492 | all queued waiters fire, in order, and the queue is emptied |
| `Coordination.Coordinator.AssertLeadership` | voltha/coordinator.py:468-474 | becomes leader with a new Leader object unless it already is |
| `Coordination.Coordinator.HaltLeader` | voltha/coordinator.py:503-507 | halts the Leader object; raises exactly when there is none |
| `Coordination.Coordinator.AssertNonleadership` | voltha/coordinator.py:476-485 | announces the leader and gives up leadership |
| `Coordination.Coordinator.OnRead` | voltha/coordinator.py:409-426 | all outcomes of the read-back, with the exceptions that end the pass |
| `Coordination.Coordinator.OnWatch` | voltha/coordinator.py:436-466 | a changed or missing record ends the pass, after demotion if leading; an equal one goes on watching |
| `Coordination.AfterReadKeeps` | voltha/coordinator.py:409-426 | handling a read-back keeps the coordinator's invariant: waiters exact, one live Leader object at most, leading only while watching |
| `Coordination.AfterWatchKeeps` | voltha/coordinator.py:436-466 | so does handling an answered watch |
| `Election.StepKeepsInv` | voltha/coordinator.py:389-507 | every step of the cluster keeps the invariant that a watched record is still stored or the key was written after the watched index |
| `Election.OneHolder` | voltha/coordinator.py:389-466 | in every reachable state at most one self-declared leader holds the key |
| `Election.StaleLeaderIsDemoted` | voltha/coordinator.py:426-456 | any other self-declared leader watches below the store's index, and its next answered watch demotes it and halts its Leader object |
| `Election.StaleAnswerInFlight` | voltha/coordinator.py:426-457 | one with an answer in flight is demoted by it, or goes on watching below the store's index |
| `Election.HoldsKeyIff` | voltha/coordinator.py:409-456 | a self-declared leader watches, and holds the key exactly while it has not been written after the watched index |
| `Election.SecondLeaderIsPast` | voltha/leader.py:37-42 | of two live Leader objects at least one belongs to an instance that the key has been written past |
| `Election.NoLeaderObjectIff` | voltha/coordinator.py:494-507 | over every run, a leader has no Leader object exactly when that was abandoned at some step and the instance has led ever since |
| `Election.LeaderObjects` | voltha/coordinator.py:468-507 | nobody leads at the top of a pass; a Leader object lives only while its coordinator leads; all earlier ones are halted |
| `Election.WaitersFireOnce` | voltha/coordinator.py:147-159 | each waiter is pending or has fired, never both, never twice; none pends once a leader was seen |
| `Election.Elect` | voltha/coordinator.py:396-417 | from a free key an instance with a live session becomes leader |
| `Election.TwoLeadersAtOnce` | voltha/leader.py:37-42 | a reachable state with two Leader objects |
| `PonFlows.IsMatch` | ponsim/ponsim.py:288-370 | raises at an unsupported field reached, zero on any mismatch, else the union of the fields' bits |
| `PonFlows.NonZeroMask` | ponsim/ponsim.py:288-370 | a flow matches with a non-zero mask exactly when all its fields match and one is more than metadata |
| `PonFlows.SharedBitTies` | ponsim/ponsim.py:51-63 | because of the shared bit, matching the UDP source port adds nothing to matching the IP protocol |
| `PonFlows.SortIsDescending` | ponsim/ponsim.py:262-264 | the table is the installed flows in descending priority |
| `PonFlows.SortKeepsChoice` | ponsim/ponsim.py:262-285 | selection over the sorted table is selection over the flows as installed, earliest first among equals |
| `PonFlows.ChoiceUnique` | ponsim/ponsim.py:266-285 | the plain definition determines the outcome |
| `PonFlows.Select` | ponsim/ponsim.py:266-285 | the scan with early exit picks the best flow by priority, then mask, then place; drops exactly without a hit; raises exactly when it reaches an unsupported field |
| `PonActions.BalancedListIsIdentity` | ponsim/ponsim.py:373-416 | a balanced action list returns every frame unchanged |
| `PonActions.NestedActions` | ponsim/ponsim.py:373-416 | the frame below the tags that the list itself pushed stays as it was |
| `PonActions.FinalDepth` | ponsim/ponsim.py:373-416 | final tag depth is initial depth plus pushes minus pops that found a tag |
| `PonActions.RaisesExactly` | ponsim/ponsim.py:373-416 | an action list raises exactly when it holds an unknown action or a set-field that meets an untagged frame |
| `PonActions.InPlaceIsOverride` | ponsim/ponsim.py:396-407 | what a list leaves in the object it was given: the last VLAN id and priority set before the first push or pop |
| `PonActions.UnalteredIff` | ponsim/ponsim.py:396-407 | the object is left as it was exactly when untagged or those values equal its own |
| `PonActions.ProcessActions` | ponsim/ponsim.py:373-416 | the loop on frame objects: what is left in the old object, what the result is, whether it is the same object |
| `PonNet.CountedOnce` | ponsim/ponsim.py:77-111 | whatever the iteration order, a frame of 1 to 9216 bytes is counted once, in one bin, on its port |
| `PonNet.IngressLedger` | ponsim/ponsim.py:242-260 | one delivery balances: what is sent on the PON is what the other side then receives |
| `PonNet.NothingInventedOverRuns` | ponsim/ponsim.py:242-260 | after any injections and installs, with any tables, nothing is received that was not sent |
| `PonConservation.Arrival` | ponsim/ponsim.py:242-256 | a frame from the PON is counted whether or not handling it raises, which it does exactly at an unsupported field or a bad action |
| `PonConservation.OnuArrival` | ponsim/ponsim.py:242-256 | the same for an ONU that sends the frame back: what it sends is received, and it fails on the frame also when the OLT fails on what it sent |
| `PonConservation.InjectCounts` | ponsim/ponsim.py:242-260 | with at most one side of the PON echoing, a frame from outside is handled within three calls, and what the OLT sends for it is missed by exactly the ONUs behind the first that fails on it |
| `PonConservation.InjectConservesIff` | ponsim/ponsim.py:250-256 | so counters stay balanced exactly when no frame is sent, it is not counted, or no ONU before the last fails |
| `PonConservation.UniConserves` | ponsim/ponsim.py:242-256 | a frame from a UNI never unbalances them unless the OLT echoes, whatever raises |
| `PonConservation.FoundIsSeen` | ponsim/ponsim.py:253-256 | without echoing ONUs what an ONU finds in the shared frame, and whether it fails on it, is what `PonNet` says |
| `PonConservation.ConservedOverRunsIff` | ponsim/ponsim.py:242-260 | after any injections and installs with at most one side echoing, the OLT's PON receive count is the sum of the ONUs' transmit counts and each ONU's receive count is the OLT's transmit count, exactly when every frame that the OLT sends on the PON gets to all ONUs by the tables of its time |
| `PonConservation.PinnedIsCalm` | ponsim/ponsim.py:262-264 | tables that pin another ingress port than they output to never echo, through any run |
| `PonConservation.FrameLost` | ponsim/ponsim.py:250-256 | two ONUs, of which the first fails: the second never receives what was counted as sent |
| `PonDepth.ThreeCallsSuffice` | ponsim/ponsim.py:242-260 | if at most one side of the PON sends frames back, every injection ends within three calls |
| `PonDepth.EndsIff` | ponsim/ponsim.py:242-260 | for frames that devices hand on as they are: no call depth suffices when the frame circles between the OLT and an ONU, three calls do otherwise |
| `PonDepth.OutputsAreUnaltered` | ponsim/ponsim.py:373-416 | flows that only output hand every frame on as it is |
| `PonNet.PinnedPortsSuffice` | ponsim/ponsim.py:262-285 | flows that pin another ingress port than they output to rule out hairpins |
| `PonNet.FanOut` | ponsim/ponsim.py:253-256 | delivery to the ONUs in link order, each on the frame left by the earlier ones; a prefix of the copies when one raises |
| `PonNet.CopiesPorts` | ponsim/ponsim.py:441-449 | each UNI gets at most one copy |
| `PonNet.InjectAtNni` | ponsim/ponsim.py:242-260 | without hairpins a frame from the NNI needs two calls in depth and leaves only through UNIs |
| `PonNet.InjectAtUni` | ponsim/ponsim.py:242-260 | and one from a UNI leaves only through the NNI, at most once |
| `PonNet.SeenIsOverride` | ponsim/ponsim.py:396-407 | what ONU i finds is the sent frame with the tag fields last set in place before it |
| `PonNet.OwnCopyIff` | ponsim/ponsim.py:253-256 | it finds the frame as sent exactly when that is untagged or those fields agree |
| `PonNet.NoLeadingSetsLikeOwn` | ponsim/ponsim.py:373-416 | if no ONU's selected flow sets a field before a push or pop, delivery is as with private copies |
| `PonNet.SharingShows` | ponsim/ponsim.py:253-256 | two ONUs, of which the first sets the VLAN id: the second sends out what the first has made of the frame |
| `PonNet.EchoesForever` | ponsim/ponsim.py:242-260 | with echoing flows no call depth suffices |
| `PonSimulator.CountFrame` | ponsim/ponsim.py:98-111 | the loop over the bins is the counting of `PonNet` |
| `PonSimulator.PonSim.constructor` | ponsim/ponsim.py:420-449 | distinct new devices with empty tables and zero counters |
| `PonSimulator.PonSim.Ingress` | ponsim/ponsim.py:242-260 | delivery through objects and a shared frame is delivery on values, exceptions and call depth included |
| `PonSimulator.PonSim.Forward` | ponsim/ponsim.py:253-256 | so is the loop over the links |
| `PonSimulator.PonSim.IngressAt` | ponsim/ponsim.py:470-473 | a frame from outside enters through port 2; an unknown port changes nothing |
| `PonSimulator.PonSim.InstallFlows` | ponsim/ponsim.py:464-468 | the device's table is replaced by the sorted flows |
| `OpenFlowStream.FramingUnique` | ofagent/of_connection.py:54-75 | a stream has one division into messages and a rest |
| `OpenFlowStream.ScanIsFraming` | ofagent/of_connection.py:54-82 | the scan finds it; messages and rest concatenate to the stream; the rest is never a complete message |
| `OpenFlowStream.RoundTrip` | ofagent/of_connection.py:54-82 | a stream of whole messages comes back message by message |
| `OpenFlowStream.SplitIndependent` | ofagent/of_connection.py:42-82 | however a stream is cut into reads, messages, leftover and failure are those of one read |
| `OpenFlowStream.OpenFlowConnection.DataReceived` | ofagent/of_connection.py:42-82 | the loop with its offset is one such read; when it raises, earlier messages stay queued and the buffer stays |
| `MessageQueues.MessageQueue.Put` | common/utils/message_queue.py:52-68 | serves the oldest accepting waiter, else queues; the step of the runs below |
| `MessageQueues.MessageQueue.Get` | common/utils/message_queue.py:70-87 | takes the oldest acceptable message, else waits |
| `MessageQueues.MessageQueue.CancelGet` | common/utils/message_queue.py:42-50 | removes the waiter, and fails exactly when it was there and not last |
| `MessageQueues.MessageQueue.Reset` | common/utils/message_queue.py:32-40 | fails every waiter, in order, and empties both lists |
| `MessageQueues.StepKeepsInv` | common/utils/message_queue.py:32-87 | every put, get, cancel and reset keeps the invariant of the next row |
| `MessageQueues.InvOverRuns` | common/utils/message_queue.py:32-87 | in every run nobody waits for a message that is there, and every message and every get is in exactly one place: pending in order, delivered once to a match, or lost |
| `MessageQueues.PairedInOrder` | common/utils/message_queue.py:52-87 | when predicates divide messages into channels, each channel pairs its messages with its gets in order until one side is used up |
| `Roles.StaleIff` | ofagent/of_protocol_handler.py:153-156 | a request is rejected exactly when behind by less than 2^63 |
| `Roles.AgreesWithSpecification` | ofagent/of_protocol_handler.py:153-156 | agrees with the signed 64-bit rule of section 6.3.4 of the OpenFlow Switch Specification 1.3.0 except when behind by exactly 2^63 or ahead by 2^63 or more |
| `Roles.StaleButAccepted` | ofagent/of_protocol_handler.py:153-156 | generation 0 against cached 2^63 and the reverse: stale by the rule, not rejected |
| `Roles.ProtocolHandler.HandleRoleRequest` | ofagent/of_protocol_handler.py:151-167 | rejected requests change nothing; accepted ones set role and, for MASTER and SLAVE, the generation id |
| `Roles.ProtocolHandler.HandleUpdate` | ofagent/of_protocol_handler.py:119-194 | the test that flow mod, group mod, packet out and port mod share |
| `Roles.GenerationIsLastAccepted` | ofagent/of_protocol_handler.py:151-167 | over every request sequence with reconnects, the cached id is that of the last accepted claim |
| `Roles.RoleIsLastAccepted` | ofagent/agent.py:142-146 | the role is that of the last accepted request on the current connection |
| `Roles.ForwardedIff` | ofagent/of_protocol_handler.py:119-194 | an update is forwarded exactly when that request asked for MASTER or EQUAL |
| `Roles.NewestWins` | ofagent/of_protocol_handler.py:151-167 | while ids stay within 2^63 of each other, the cached id is the largest claimed and a claim is accepted exactly when no earlier one was larger |
| `Reconciliation.ConnectionManager.CreateAgent` | ofagent/connection_mgr.py:260-269 | the loop over endpoints is the creation on maps |
| `Reconciliation.ConnectionManager.DeleteAgent` | ofagent/connection_mgr.py:271-277 | so is the deletion, with every point where it can raise |
| `Reconciliation.ConnectionManager.RefreshAgentConnections` | ofagent/connection_mgr.py:225-258 | and a refresh, for every order of the set to delete |
| `Reconciliation.ConnectionManager.Forward` | ofagent/connection_mgr.py:310-322 | never misses an agent when mapped datapaths are covered, and then reaches one per endpoint |
| `Reconciliation.SafeOverRuns` | ofagent/connection_mgr.py:225-277 | after any refreshes, failed ones and failing stops included, every mapped device's datapath has an agent for every endpoint, provided a datapath determines its device |
| `Reconciliation.SharedDatapathDangles` | ofagent/connection_mgr.py:260-277 | without that proviso it fails |
| `AgentCoverage.CoveredIff` | ofagent/connection_mgr.py:225-277 | over all runs with devices of a given set, every order and every pattern of failing stops, every mapped device's datapath has an agent for every endpoint exactly when in that set a datapath determines its device |
| `Reconciliation.DeleteTidy` | ofagent/connection_mgr.py:271-277 | a deletion is clean with one endpoint, clean but raising with two, half done with more |
| `Reconciliation.BrokenForGood` | ofagent/connection_mgr.py:225-277 | a half deleted datapath stays so through every refresh, and a refresh that does not want it always raises |
| `Reconciliation.TidyOverRuns` | ofagent/connection_mgr.py:225-277 | from empty maps every reachable state has exactly the agents of some datapaths, or there are more than two endpoints and one datapath is half deleted |
| `Reconciliation.ConvergesIff` | ofagent/connection_mgr.py:225-258 | for a fixed list the agents become the wanted ones, after one call or with two endpoints one more than there are datapaths to delete, exactly when nothing is to be deleted, or there are at most two endpoints and no agent to be deleted raises when stopped |
| `YangFlatten.InlineOption` | netconf/nc_rpc/rpc_response.py:111-127 | whether the level is dropped and which children go on; nothing when the named child is missing |
| `YangFlatten.ProcessElement` | netconf/nc_rpc/rpc_response.py:129-157 | the recursion with its loops is the function that the theorems are about |
| `YangFlatten.RaisesIff` | netconf/nc_rpc/rpc_response.py:111-157 | it raises exactly when a processed dict names an inline child that it does not have |
| `YangFlatten.KeepsTexts` | netconf/nc_rpc/rpc_response.py:98-157 | every leaf text is kept in order, at its path: lists add no level and lend their tag, inline dicts stand for the named child's children |
| `YangFlatten.ToYangXml` | netconf/nc_rpc/rpc_response.py:159-201 | the method computes the reply that the next rows speak of |
| `YangFlatten.ReplyKeepsTexts` | netconf/nc_rpc/rpc_response.py:197-201 | a reply keeps all leaf texts, in order and at their paths, exactly when no top-level leaf has the reserved tag |
| `YangFlatten.ReservedLeafIsLost` | netconf/nc_rpc/rpc_response.py:98-104 | one top-level leaf with that tag: an empty reply |
| `YangFlatten.ListReplyKeepsTexts` | netconf/nc_rpc/rpc_response.py:171-195 | a reply of one list keeps them all, with the request's tag on the items |
| `IgmpFloat.EncodeFloat` | docker/config/igmpv3.py:125-136 | the greatest code whose value does not exceed the number |
| `IgmpFloat.Monotone` | docker/config/igmpv3.py:125-136 | encoding is monotone |
| `IgmpFloat.Inverts` | docker/config/igmpv3.py:125-144 | encoding undoes decoding on every code |
| `IgmpFloat.SaturatesIff` | docker/config/igmpv3.py:129-130 | the code is 255 exactly from 31744 on |
| `IgmpFloat.RelativeError` | docker/config/igmpv3.py:125-144 | the relative error is below one sixteenth exactly up to 33860 |
| `SymbolTable.SortDescends` | netconf/protoc_plugins/rpc_gw_gen.py:173-177 | the table is the symbols in descending string order |
| `SymbolTable.FindMatchingPrefix` | netconf/protoc_plugins/rpc_gw_gen.py:179-184 | the scan returns the longest symbol that the name starts with, and fails exactly when there is none |
| `SymbolTable.ResolvesIff` | netconf/protoc_plugins/rpc_gw_gen.py:179-196 | all top-level and nested types resolve to their own symbol exactly when no symbol's name is a package of another |
| `SymbolTable.NestedNameClashes` | netconf/protoc_plugins/rpc_gw_gen.py:179-184 | with `p.A` and `p.A.B` declared, the nested type of `p.A` resolves to the other |
| `SymbolTable.NameOfType` | netconf/protoc_plugins/rpc_gw_gen.py:186-196 | the generated name is module, declared name and nested names |
| `SymbolTable.IncludeManager.ExtendSymbolTables` | netconf/protoc_plugins/rpc_gw_gen.py:151-177 | a file's symbols are added and the table sorted anew |
| `SymbolTable.IncludeManager.AddNeededSymbol` | netconf/protoc_plugins/rpc_gw_gen.py:186-196 | records name and include of the longest matching symbol, once; fails untouched without one |

## Left out

- Consul, Twisted, gRPC, timers, logging and delays: steps between two suspensions are atomic, answers may be lost or late, and a session ends at any time; in `CrashSafety` a session ends only after its process has stopped.
- CrashSafety.NoSharedCoreStore: speaks of one leader at a time, which may be replaced at any step; runs of two are those of `OverlappingLeaders`.
- In the `Track` step of `CrashSafety` and `OverlappingLeaders` the member list contains every running process that is registered, and list and mapping are read in one step.
- `CrashSafety` takes member ids as never reused and none a prefix of another, and at most 0xffff members; `ClusterRun` takes handlers as atomic and an id as determining its host.
- The patterns that read replica number and start time from a member id are parameters of `MemberList`; JSON encoding of the mapping is not modelled, and spellings of a number other than lower-case hexadecimal digits are taken to raise.
- PonConservation.ConservedOverRunsIff: assumes that at most one side of the PON echoes; with both only `PonNet.NothingInventedOverRuns` speaks of whole runs, because what is lost then depends on how far the recursion got.
- PonDepth.EndsIff: assumes that devices hand the frame on as it is; flows that rewrite the frames they echo on both sides may or may not end.
- Membership records, their renewal and the session-renewal timeout appear only as `CreateSession` and `EndSession` steps; `voltha/coordinator_etcd.py` is a second backend for the same election.
- The candidate workload fields of the worker, which the source does not use yet.
- Scapy: frames are values with a tag stack, `/` copies its operands, and Python's call stack is a depth parameter; flow and action lists are given, not taken apart from protobuf; alarms, statistics export and `XPonSim` are not modelled.
- Protocol layers other than Ethernet, VLAN, IPv4 and UDP; the hash order of the counter dictionaries is any order.
- The OpenFlow message library is a parameter of `OpenFlowStream`; a raw message shorter than a header is taken to raise in its parser.
- Callbacks that call back into the queue while a `reset` is failing its waiters; predicates are pure.
- Port lookup inside the port mod handler and conversion of messages to protobuf.
- Reconciliation.ConvergesIff: assumes that an agent always or never raises when stopped, datapath and device determine each other and there is at least one endpoint; without endpoints no agent ever exists.
- `YangFlatten` gives an element its new tag as a parameter instead of writing it into the input tree, so it does not show that the input is changed; attributes other than `type` and text between elements are not modelled, nor are `sort_xml_response` and the XML strings around a reply.
- `IgmpFloat` writes shifts and masks on disjoint bits as arithmetic.
- The mapping from file names to Python modules is a parameter of `SymbolTable`; templates and generated files are not modelled.
- The rest of the repository: device adapters, the configuration tree, the flow decomposer, the event bus, the command line and the container scripts.
