# L4Way: staged rollouts, crash-safe agents and the compilers between them

L4Way (module path `flux.local/flux`) moves layer-4 forwards between nodes. A controller places
forwards, compiles one desired state per node and releases it in stages; an agent on every node
brings its kernel to that state and reports usage back. This project models the parts on which
traffic and accounting depend, and proves what they promise over every input and every run.

**Staged rollout.** `Spec` holds the desired state of a node as maps keyed by identifier;
`StateLists` and `StateValidation` connect it with the lists that are stored and sent, and show
that neither list order nor map order is visible. `RolloutPlan` says what the stages of a rollout
are, `RolloutBuilder` computes them loop by loop, `CanarySelection` chooses the canary. A forward is
*served* when its ingress names an exit that listens on the service VIP and target port and names
the ingress back; a cluster is *exit-first* when every via-exit ingress entry is served.
`RolloutWaves`, `RolloutSafety` and `RolloutTheorems` prove that every prefix of the stages plus
any subset of the next stage's nodes is exit-first if and only if no retained exit changes its VIP or
port or drops a protocol. `RolloutResources` adds what an entry runs with at each of those moments, its
policy, checks, links and ranges, and `RolloutSchedule` the order of the stages, the size of the canary
and the length of its bake.

**The rollout as it runs.** `RolloutMachine` gives each database transaction as a function,
`RolloutStore` is the class that performs it row by row, `RolloutInvariants` and `RolloutRuns` are
about every sequence of ticks and acknowledgements, and `RolloutFleet` and `RolloutSystem` add the
agents and a network that loses, repeats and reorders reports. The agents there make the moves of
`AgentMoves`, and the reconciler below is proved to make no others. `RolloutTiming` says what passes
with time and failure (soak, timeout, permanent errors), and `RolloutCompletion` that the end stays in
reach. `TrafficClasses` is the publication of one state: why it can be stored, and why the node can
compile it.

**Agent.** `AgentModel` and `AgentReconciler`: a durable record, three kernel subsystems, and calls
that succeed, fail (perhaps after taking effect) or never return. `GenerationExchange` is the
delivery of generations between the two sides, `Meter`, `UsageLedger` and `UsageDelivery` the way of
a counter from the kernel into the controller's rollups.

**From plan to kernel.** `Placing` and `Scheduling` (placement with unsigned bandwidth arithmetic),
`PlanCompiler`, the three node compilers `NftProgram`, `FabricProgram` and `TrafficControl`, and what
they achieve together in `PlacementMeaning` and `EndToEnd`.

**Arithmetic pieces.** `ServiceVips` (the service VIP allocator) and `RecordLayer` (the encrypted
record layer over Noise transport messages: the 65535-byte limit of section 3 and the rekey function
of section 11.3 of the Noise Protocol Framework, revision 34).

## What turned out not to hold

- Exit-first fails exactly when a forward keeps its exit and changes its VIP or target port there, or
  drops a protocol: `RolloutTheorems.ExitFirstExactly` gives the condition, and
  `RolloutTheorems.UnstableExitBreaks` the prefix at which it shows. The transition checks of the
  builder do not look at it (`RolloutExamples.FailoverIsAccepted` is such a plan: a backend failover to
  another port).
- A rollout whose compensation was released can stop for good: a late permanent error for an older
  generation puts the status back to `rollback_pending`, where a compensation stage in `awaiting_ack` is
  never completed (`RolloutRuns.LateErrorStrands`, `RolloutRuns.StrandedForever`); it finishes if and
  only if the status is still `waiting_acks` (`RolloutRuns.CompensationFinishes`). A run of four events
  gets there: `RolloutExamples.CompensationNeverFinishes`.
- A failure-free `Recover` does not always succeed. It does if and only if `AgentModel.Ready` holds; what
  blocks it is that usage of the applied program has to be read first and the table that counted it is
  gone (`AgentReconciler.RestartBlocks`, `AgentReconciler.CrashAfterSwitch`), or that the outbox is full.
  `AgentReconciler.RestartMidChange` is a run that ends there.
- Usage does not always get through. A batch outside the clock window of ten minutes is refused, and the
  refusal ends the session before anything behind it is looked at. One session delivers everything if and
  only if every batch is in the window (`UsageDelivery.SessionDelivers`); the head of the outbox ever leaves
  it if and only if it is received in its window (`UsageDelivery.HeadGetsThrough`), so a batch too old is
  stuck for good and one from the future only waits (`UsageDelivery.OverdueIsStuck`).
  `UsageDelivery.LateUsageIsLost` is a short run that gets there.
- Placement checks every capability a compiled state requires but one, the blocking of protocols
  (`EndToEnd.CapabilitiesCovered`; `PlacementExample.BlocksAreNotChecked` is a plan it lets through).
- The metering bound can fail although counters only count: over one epoch it holds if and only if no counter
  that moved is missing from one sample and back in a later one (`Meter.BoundHoldsExactly`); such a counter is
  reported in full twice (`Meter.VanishingCounterCountsTwice`). The equivalence is about a single epoch; over
  several epochs only `Meter.MeteringBound` speaks, which takes plausible readings as its condition.

## Model

| member | source | states |
|---|---|---|
| StateValidation.Canonical | internal/spec/canonical.go:11-84 | the canonical form is sorted by identifier, user, and pool and backend, and stands for the same state |
| StateValidation.CanonicalIgnoresOrder | internal/spec/canonical.go:11-118 | two canonical forms are equal exactly when they stand for the same maps, so no list or traversal order can be seen in a checksum |
| StateValidation.Validate | internal/spec/validate.go:39-461 | the single pass with owner tables accepts exactly the lists with distinct keys whose maps satisfy, condition by condition and on the addresses themselves, what is asked between elements: listeners, VIPs, classes, routing identifiers, interfaces, local addresses, link references, and service ranges kept clear of every other address |
| StateValidation.ValidExactly | internal/spec/validate.go:39-461 | the conditions between elements, one by one, on addresses, protocols and ranges |
| StateValidation.CheckForwards | internal/spec/validate.go:286-430 | the owner tables for listeners, VIPs and classes find a conflict exactly when two forwards of the list conflict |
| StateValidation.CheckLinks | internal/spec/validate.go:97-185 | the owner tables for routing identifiers, interfaces and local addresses find a conflict exactly when two links of the list conflict, though each owner is overwritten by the next |
| StateLists.CanonicalIsUnique | internal/spec/canonical.go:11-84 | sorted lists that stand for the same map are the same list |
| StateLists.UpsertForward | internal/cluster/rollout.go:300-317 | the target is in the list exactly once afterwards, all other forwards stay |
| StateLists.RemoveForward | internal/cluster/rollout.go:319-327 | exactly the forward with that identifier is gone |
| StateLists.MergeByKey | internal/cluster/rollout.go:353-412 | the result holds the union by key with final elements winning, whatever order the merge map is visited in |
| CanarySelection.SelectCanary | internal/cluster/rollout.go:482-516 | a disjoint cover of the changed forwards whose first part has the smallest hashes, or is empty when the percentage does not split them |
| CanarySelection.CanariesGrow | internal/cluster/rollout.go:482-516 | a canary of n forwards at a percentage p has count forwards with 100*(count-1) < n*p <= 100*count, and canaries for growing percentages are nested while a split exists |
| CanarySelection.FirstIsUnique | internal/cluster/rollout.go:491-500 | the hash order leaves no choice of canary |
| RolloutBuilder.CompleteStateMap | internal/cluster/rollout.go:181-190 | unknown nodes get the empty state, field by field; known ones keep their canonical state |
| RolloutBuilder.ChangedStates | internal/cluster/rollout.go:213-247 | exactly the nodes whose state differs in a field other than traffic classes, with their new state |
| RolloutBuilder.ChangedForwardIDs | internal/cluster/rollout.go:262-298 | exactly the forwards with a different entry on some node before and after |
| RolloutBuilder.ValidateFabricTransitions | internal/cluster/rollout.go:451-480 | accepts if and only if no node changes a link in place that an entry of before or after names |
| RolloutBuilder.ValidateRoleTransitions | internal/cluster/rollout.go:414-449 | for consistent maps accepts if and only if every node keeps its part in every forward it keeps and no forward keeps its exit under another ingress, though it looks at one entry of each map only |
| RolloutBuilder.MutateForwards | internal/cluster/rollout.go:121-175 | visiting the selected forwards and their nodes in any order gives one and the same map; what that map holds beside the forwards is `RolloutResources.ResourcesThroughout` |
| RolloutBuilder.AppendWaveStages | internal/cluster/rollout.go:91-179 | appends the non-empty prepare, promote and cleanup stages of the wave, or fails exactly when one of their states is invalid; the published resources are those of `RolloutResources.ResourcesThroughout` |
| RolloutBuilder.BuildRolloutStages | internal/cluster/rollout.go:48-89 | the stages are a function of the two completed maps; a rollout between consistent maps is refused if and only if a transition is unsafe or a published state invalid. What that function yields is pinned by `RolloutSchedule.StagesInOrder`, the four wave lemmas below and `RolloutResources.EntriesRunWithTheirResources` |
| RolloutSchedule.StagesInOrder | internal/cluster/rollout.go:48-89 | stages come in one order, each at most once: prepare, promote and cleanup of the canary, its bake, then the same of the rest; there is a bake, of the asked length, if and only if there is a canary |
| RolloutSchedule.NothingMovesInOneStage | internal/cluster/rollout.go:58-65 | where no forward changes, the nodes that change otherwise get their target in a single promote stage, and if there are none there is no stage |
| RolloutSchedule.CanaryIsItsShare | internal/cluster/rollout.go:482-516 | the canary is the asked share of the changed forwards rounded up, where a strategy that names no percentage means all of them, and there is none if that is all |
| RolloutWaves.PreparedAt | internal/cluster/rollout.go:118-131 | after prepare, a selected forward has its final entry on its final exit and is untouched elsewhere |
| RolloutWaves.PromotedAt | internal/cluster/rollout.go:133-154 | after promote, a selected forward has its final entry on its final ingress and none on its old one |
| RolloutWaves.CleanedAt | internal/cluster/rollout.go:156-177 | after cleanup, a selected forward has its final entry on its final exit and none on its old one |
| RolloutWaves.WaveProgress | internal/cluster/rollout.go:91-179 | a whole wave leaves exactly its forwards with their final entries on every node |
| RolloutWaves.LiveIsBetween | internal/cluster/rollout.go:48-89 | after any prefix of stages and any part of the next, each node is at one of two consecutive working maps |
| RolloutWaves.MovedIsServed | internal/cluster/rollout.go:118-177 | between two phases of its wave a moved forward stays served on every ingress |
| RolloutWaves.WaveIsExitFirst | internal/cluster/rollout.go:91-179 | any mixture of two consecutive working maps of a wave is exit-first |
| RolloutSafety.ExitFirstThroughout | internal/cluster/rollout.go:48-179 | make before break on every prefix and every subset of the next stage's nodes, with stable retained exits |
| RolloutTheorems.ExitFirstExactly | internal/cluster/rollout.go:48-179 | an accepted rollout is exit-first throughout if and only if no retained exit changes its listener or drops a protocol |
| RolloutTheorems.UnstableExitBreaks | internal/cluster/rollout.go:118-131 | otherwise the prefix that ends with the prepare barrier of the forward is not exit-first |
| RolloutExamples.FailoverIsAccepted | internal/cluster/rollout.go:414-432 | a two-node plan that fails over to a backend on another port, on a kept exit, is consistent, valid and accepted under any strategy, and some prefix of its rollout is not exit-first |
| RolloutTheorems.ReplayArrives | internal/cluster/rollout.go:48-89 | installing all stages in order turns the completed current map into the completed target map up to traffic classes |
| RolloutTheorems.CompleteIsWellPosed | internal/cluster/rollout.go:181-211 | completing consistent valid maps keeps them consistent and valid |
| RolloutTheorems.CanaryIsolation | internal/cluster/rollout.go:67-81 | until the bake is over unselected forwards keep their entries on every node; when the canary wave is installed selected ones have their target entries |
| RolloutTheorems.CanaryKept | internal/cluster/rollout.go:67-81 | from the bake on, through every prefix and subset of the full wave, canary forwards keep their target entries on every node |
| RolloutTheorems.LiveIsValid | internal/cluster/rollout.go:100-116 | every state a node runs during a rollout passed validation |
| RolloutResources.ResourcesThroughout | internal/cluster/rollout.go:329-412 | after any prefix of stages and any subset of the next, each node is as before, as in the target, or carries the links, checks, ranges and policies of both (those of the target where they differ), with the blocks of the target and the higher schema |
| RolloutResources.EntriesRunWithTheirResources | internal/cluster/rollout.go:329-412 | wherever an entry is a new one, the policy of its user and the checks, links, ranges and blocks are those of the target already; wherever it is still the old one, its user has the policy of before or of the target |
| RolloutResources.ActiveLinksKept | internal/cluster/rollout.go:329-381 | throughout, the link an entry names resolves on its node and equals the link of that name before and after |
| RolloutMachine.NextPending | internal/controller/store/cluster.go:1154-1155 | the first pending stage after the completed one, if any |
| RolloutMachine.CompensationAt | internal/controller/store/cluster.go:1198-1207 | finds a compensation stage whenever there is one |
| RolloutMachine.MatchAt | internal/controller/store/cluster.go:1327-1378 | the row an acknowledgement updates; none is missed |
| RolloutStore.Store.constructor | internal/controller/store/cluster.go:621-778 | a scheduled rollout has every stage pending with queued targets, and satisfies the invariant |
| RolloutStore.Store.PublishStage | internal/controller/store/cluster.go:849-927 | all targets of the stage receive the next generation, or nothing changes at all |
| RolloutStore.Store.CompleteStage | internal/controller/store/cluster.go:1141-1196 | the stage is completed, and the next pending stage published, the rollout completed, or, for compensation, rolled back |
| RolloutStore.Store.EnsureCompensation | internal/controller/store/cluster.go:1198-1230 | resumes the compensation stage, or creates it with the baselines of the nodes that received a generation |
| RolloutStore.Store.AdvanceRollout | internal/controller/store/cluster.go:1069-1139 | one advancer pass does what the transaction function says, and keeps the invariant; what the function does to a soak, a timeout and a failure is stated by the lemmas of `RolloutTiming` |
| RolloutStore.Store.RecordAck | internal/controller/store/cluster.go:1327-1378 | an acknowledgement updates the one row of its generation and may request a rollback; keeps the invariant |
| RolloutStore.OnlyMatch | internal/controller/store/cluster.go:1327-1378 | generations never repeat, so an acknowledgement concerns at most one stage |
| RolloutInvariants.ScheduledInv | internal/controller/store/cluster.go:621-778 | a freshly scheduled rollout satisfies the invariant and is on its forward path |
| RolloutInvariants.HandleKeepsInv | internal/controller/store/cluster.go:1069-1378 | every tick and every acknowledgement, in any state, keeps the invariant; the forward path is never re-entered |
| RolloutRuns.RunKeepsInv | internal/controller/store/cluster.go:1069-1378 | so does every sequence of them |
| RolloutRuns.TerminalIsAbsorbing | internal/controller/store/cluster.go:1069-1139 | completed, rolled_back and failed are final, and nothing is published any more |
| RolloutTiming.UnhealthyCanaryIsGivenUp | internal/controller/store/cluster.go:1118-1131 | in a soak, a pass that finds the canary unhealthy publishes nothing, fails the stage and requests a rollback, or fails the rollout without automatic rollback |
| RolloutTiming.HealthMattersInSoaks | internal/controller/store/cluster.go:1118-1131 | health is asked for in a soak only: everywhere else a pass does the same for a healthy and an unhealthy canary |
| RolloutTiming.AcknowledgementsTimeOut | internal/controller/store/cluster.go:1103-1117 | a stage with a target outstanding waits for 600 seconds from its start, and is given up by the next pass |
| RolloutTiming.ClockStartsAtPublication | internal/controller/store/cluster.go:866-927 | the time of a stage starts at the pass that publishes it and is not touched while its targets are awaited |
| RolloutTiming.NothingLeavesBeforeTheBakeIsOver | internal/controller/store/cluster.go:1118-1136 | in every run, when a stage behind a bake has left pending, some pass before found the canary healthy no earlier than the asked seconds after the bake began |
| RolloutTiming.OnlyPermanentErrorsGiveUp | internal/controller/store/cluster.go:1327-1378 | an acknowledgement fails its stage exactly when it reports a permanent error before success; an error that may pass only counts an attempt |
| RolloutTiming.OnlyGenuineReportsCount | internal/controller/store/cluster.go:1327-1378 | a report for a generation the node never received, with other content than was published, or that no stage waits for, changes nothing |
| RolloutTiming.SuccessIsKept | internal/controller/store/cluster.go:1327-1378 | a target that succeeded stays so through every event, late and repeated errors included |
| RolloutTiming.OnlyValidStatesArePublished | internal/controller/store/cluster.go:849-927 | every generation published in a run is a valid state of its node |
| RolloutCompletion.CompletionReachable | internal/controller/store/cluster.go:1069-1196 | a rollout of valid stages can still be completed if and only if it is on its forward path: no state of that path is stuck |
| RolloutCompletion.RollbackReachable | internal/controller/store/cluster.go:1198-1230 | a rollout whose rollback was requested and whose compensation does not exist yet can still be rolled back |
| RolloutRuns.BarrierHolds | internal/controller/store/cluster.go:1079-1103 | a stage leaves pending only after every target of every earlier stage acknowledged |
| RolloutRuns.NoForwardAfterRollback | internal/controller/store/cluster.go:1141-1255 | once a rollback is requested no forward stage is ever published again |
| RolloutRuns.CompensationTargets | internal/controller/store/cluster.go:1216-1223 | compensation targets exactly the nodes that received a generation in this rollout, each with its baseline |
| RolloutRuns.RolledBackIsAcknowledged | internal/controller/store/cluster.go:1141-1153 | rolled_back implies that each of them acknowledged its baseline, as the last thing published to it |
| RolloutRuns.CompensationFinishes | internal/controller/store/cluster.go:1079-1103 | a released compensation can still end as rolled_back if and only if the status is waiting_acks, whatever acknowledgements are outstanding |
| RolloutRuns.LateErrorStrands | internal/controller/store/cluster.go:1366-1374 | a permanent error for the failed stage's generation after that moment strands the rollout |
| RolloutRuns.StrandedForever | internal/controller/store/cluster.go:855-857 | a stranded rollout is never reported as rolled back |
| RolloutExamples.CompensationNeverFinishes | internal/controller/store/cluster.go:1366-1374 | a run of four events after which the compensation stage is released and the rollout is never rolled back, whatever follows |
| RolloutFleet.MovesKeepInv | internal/controller/store/cluster.go:849-927 | the invariant of controller and agents survives lost, repeated and reordered reports and agent restarts |
| RolloutFleet.NodeIsAtBarrier | internal/controller/store/cluster.go:1069-1196 | on the forward path each node runs the state of the last acknowledged stages or of the one being released |
| RolloutFleet.FleetIsLive | internal/controller/store/cluster.go:1069-1196 | what the nodes run is a prefix of the stages plus a subset of the next |
| RolloutFleet.OperationIsFleetRun | internal/agent/reconciler.go:387-555 | whatever moves an operation of the reconciler makes are a run of the fleet, if what it converges to was published for its node |
| RolloutSystem.StagesArePlanned | internal/cluster/rollout.go:48-179 | the built stages are such as the state machine expects: targets have baselines, only bakes are empty, none compensates |
| RolloutSystem.StagesAreVersioned | internal/cluster/rollout.go:204-211 | every published state is canonical already, so publication leaves its schema alone |
| RolloutSystem.UndisturbedIsOnTrack | internal/controller/store/cluster.go:1069-1139 | a rollout is on its forward path exactly as long as no stage failed |
| RolloutSystem.ExitFirstInEveryRun | internal/cluster/rollout.go:43-47 | in every run, as long as no stage failed, the states the nodes actually run are exit-first |
| RolloutSystem.OutcomeInEveryRun | internal/controller/store/cluster.go:1141-1196 | completed means every node runs the target; rolled_back means every node runs what it ran before |
| TrafficClasses.ClassTable.Allocate | internal/controller/store/store.go:535-574 | an owner keeps its class for ever, a new one gets the lowest free class, and it fails exactly when all are taken |
| TrafficClasses.ClassTable.Resolve | internal/controller/store/store.go:455-486 | every limited owner of the ingress gets its class, everyone else none; fails exactly when there are more owners than classes, without a trace |
| TrafficClasses.ClassTable.Publish | internal/controller/store/store.go:403-453 | publishing succeeds exactly when there is room and the state is valid apart from its classes; the result differs in classes only |
| TrafficClasses.ResolvedIsValid | internal/controller/store/store.go:455-486 | allocated classes never conflict, so validity does not depend on them, and every limit of the result has one |
| TrafficClasses.LimitsHaveClasses | internal/controller/store/store.go:455-486 | a forward limited on its own that enters at the node, and a limited user with some forward entering there, have the class of their rows; everything else has none |
| TrafficClasses.StageCanBePublished | internal/controller/store/cluster.go:849-927 | a validated canonical stage can be published whenever every target has room for the classes it needs, whoever holds one already; no allocation is lost |
| AgentReconciler.AcceptedIsNewOrTop | internal/agent/reconciler.go:358-385 | exactly the states that are newer than everything recorded, or the one on top of the record, are accepted |
| AgentReconciler.RefusalMeans | internal/agent/reconciler.go:358-385 | a state is refused for another node, for being older than the record, or for giving a recorded generation another content, each exactly then and in this order of precedence |
| AgentReconciler.Agent.constructor | internal/agent/store.go:43-45 | an agent starts with an empty record and no table, which satisfies write-ahead safety |
| AgentModel.StorableMeans | internal/agent/store.go:47-111 | what the check lets through: valid states of one node, the pending one newer than the applied one or the same, and at most 10000 batches in sequence |
| AgentReconciler.Agent.Save | internal/agent/store.go:185-251 | the record is replaced atomically, and only by one that passes its check |
| AgentReconciler.Agent.Collect | internal/agent/reconciler.go:645-714 | batch and meter state are committed together; it fails without a fault exactly when the outbox is full or the counters are gone |
| AgentModel.BatchSays | internal/agent/reconciler.go:645-714 | a batch names the node and generation that were applied, the program that counted and the time, carries the next number, and is left out exactly when no counter moved |
| AgentReconciler.Agent.CollectUsage | internal/agent/reconciler.go:632-643 | a collection on its own leaves the record alone or observes the counters into meter and outbox, and keeps write-ahead safety |
| AgentReconciler.Agent.AckUsage | internal/agent/reconciler.go:726-745 | an acknowledgement leaves the record alone or cuts the outbox, and what it builds is never refused |
| AgentReconciler.Agent.RollbackDataplane | internal/agent/reconciler.go:557-630 | when it succeeds the table, traffic control and fabric are back at the applied state, or, if there was none, the table is gone and the other two run a state of the same node and generation that holds nothing at all; what only the failed target needed is gone; without faults it succeeds exactly when a table exists |
| AgentReconciler.Agent.Install | internal/agent/reconciler.go:492-536 | when all steps succeed the kernel runs the target in all three subsystems, and fabric that only the superseded state needed is removed |
| AgentReconciler.Agent.WriteAhead | internal/agent/reconciler.go:488-491 | the target is durable before the kernel is touched, the record is never refused, and its generation never carried other content |
| AgentReconciler.Agent.Commit | internal/agent/reconciler.go:548-552 | the target becomes applied and nothing stays pending; the record is never refused |
| AgentReconciler.Agent.Replace | internal/agent/reconciler.go:464-555 | a failed step with a successful rollback leaves the kernel of the applied state, or an empty one if there was none, the applied snapshot unchanged and the target pending |
| AgentModel.ReadyExactly | internal/agent/reconciler.go:387-491 | `Ready` holds exactly when the target and the applied state compile, no foreign table is in the way, and either nothing is left to do or the usage of a program about to be replaced can be read (room in the outbox, some counter left) and a cleaner is there if one is needed |
| AgentReconciler.Agent.Converge | internal/agent/reconciler.go:387-555 | kernel-ahead, kernel-conflict and refused records are unreachable; without faults it converges if and only if `Ready` holds, a blocked attempt changes nothing, and converging again to what already runs changes nothing |
| AgentReconciler.Agent.Apply | internal/agent/reconciler.go:135-165 | refused states change nothing; accepted ones converge, under write-ahead safety; what is applied is confirmed by all three subsystems, and delivering it twice is delivering it once |
| AgentReconciler.Agent.Recover | internal/agent/reconciler.go:167-186 | from any state a crash can leave, one fault-free pass empties pending, applies what was on top and runs it, if and only if `Ready` holds |
| AgentReconciler.Agent.Audit | internal/agent/reconciler.go:188-207 | a successful audit ends with the top of the record applied and running in all three subsystems |
| AgentReconciler.Agent.Refresh | internal/agent/reconciler.go:209-232 | does nothing while the clock changes nothing, else converges |
| AgentReconciler.Agent.Live | internal/agent/reconciler.go:135-555 | over any sequence of deliveries, collections, acknowledgements, crashes, restarts and faults the table never runs ahead of the record, applied generations never decrease and no generation carries two contents; record and table are at every moment what the moves of `AgentMoves` made so far lead to |
| AgentReconciler.RestartBlocks | internal/agent/reconciler.go:645-684 | after a machine restart during a change of programs recovery is blocked |
| AgentReconciler.RestartMidChange | internal/agent/reconciler.go:483-491 | a run without faults, delivery, second delivery up to its write-ahead, machine restart, recovery, after which no recovery at any time succeeds |
| AgentReconciler.CrashAfterSwitch | internal/agent/reconciler.go:645-684 | after a crash between table switch and commit recovery works if and only if a counter of the applied program survives, or it had none |
| AgentReconciler.RecoveryUnblocked | internal/agent/reconciler.go:167-186 | while the table still runs the applied program only a full outbox can block recovery |
| AgentModel.WrittenAheadIsFetched | internal/agent/reconciler.go:488-491 | a record that is written ahead moves as an agent that accepts a snapshot newer than its record, or on top of it |
| AgentModel.CommittedIsCommitted | internal/agent/reconciler.go:548-552 | a record that is committed moves as an agent that commits what its kernel runs |
| GenerationExchange.NextKeepsInv | internal/controller/control/server.go:229-315 | publications, sends, losses, commits, reports and reconnects keep the exchange consistent, and nothing goes backwards |
| GenerationExchange.NeverLost | internal/controller/control/server.go:229-278 | the two branches that close a session for data loss are unreachable |
| GenerationExchange.SendsExactly | internal/controller/control/server.go:229-278 | what was published last is sent exactly when the agent can take it, it is newer than what is applied and not blocked, and it is not on its way unless due for another try |
| GenerationExchange.CatchesUp | internal/controller/control/server.go:229-315 | from every state of every run some run leads to both sides at what was published last: no loss, block or failure stands in the way for good |
| GenerationExchange.ResentOnlyOnRetry | internal/controller/control/server.go:229-278 | between two sends of a snapshot on one connection a retryable error came in, and the time that it set has passed |
| GenerationExchange.BlockedUntilResult | internal/controller/control/server.go:280-315 | after a permanent error its generation is sent again only once something was applied or another generation failed for good |
| GenerationExchange.SettledOnceApplied | internal/controller/control/server.go:280-315 | a generation reported as applied, and any older one, is not sent again unless the agent reports something older |
| GenerationExchange.AppliedUnblocks | internal/controller/control/server.go:280-315 | once something is applied, anything newer that was not sent yet goes out at the next occasion, blocked before or not |
| GenerationExchange.Sandwich | internal/controller/store/store.go:593-675 | in every run controller applied <= agent applied <= desired, with equal contents at equal generations |
| GenerationExchange.SandwichFromBegin | internal/controller/control/server.go:229-278 | so it is from the first publication on, and no decision to send ever closes the session for data loss |
| GenerationExchange.OperationIsExchange | internal/agent/reconciler.go:135-207 | whatever moves an operation of the reconciler makes are steps of the exchange, if it converges to what it received or to the top of its record |
| Meter.Tracker.Observe | internal/meter/tracker.go:55-106 | rejects unnamed and duplicate samples without a trace; otherwise each delta is what the counter gained since the same epoch, or its whole value after a restart, and a new sequence number is given exactly when something moved |
| Meter.MeteringBound | internal/meter/tracker.go:55-106 | over any epochs and any restarts the sum of all deltas never exceeds what passed, and equals it when no counter restarts unobserved |
| Meter.VanishingCounterCountsTwice | internal/meter/tracker.go:76-99 | a counter that is missing from a sample and comes back is reported in full once more |
| Meter.BoundHoldsExactly | internal/meter/tracker.go:76-99 | for counters that only count, over one epoch, the bound holds at every prefix if and only if no counter that moved is missing from one sample and back in a later one |
| UsageLedger.Acknowledged | internal/agent/reconciler.go:726-745 | a cumulative acknowledgement leaves a suffix of the outbox, cut right after the acknowledged batch |
| UsageLedger.Controller.RecordUsageBatch | internal/controller/store/store.go:689-788 | an unknown generation fails; a known batch changes nothing; otherwise the batch is recorded and every counter grows by its delta in one step or, with an unknown counter, nothing changes |
| UsageLedger.Outbox.AckUsage | internal/agent/reconciler.go:726-745 | the loop drops the acknowledged batch and everything before it |
| UsageDelivery.RecordAddsOnce | internal/controller/store/store.go:706-752 | recording one of the emitted batches adds its amounts, and only its, to what is credited |
| UsageDelivery.RunKeepsInv | internal/agent/controlclient/runner.go:209-242 | everything older than a batch on the wire or acknowledged is recorded or ahead of it, in every run |
| UsageDelivery.CollectKeepsInv | internal/agent/reconciler.go:686-713 | the meter numbers a new batch above all earlier ones, so no two batches ever share a key |
| UsageDelivery.CollectsLikeTheAgent | internal/agent/reconciler.go:645-714 | a collection of the agent whose applied generation was published is a step of the delivery: it is allowed and leaves the same meter state and outbox |
| UsageDelivery.NeverRefused | internal/controller/store/store.go:700-741 | in every run each emitted batch names a published generation and only its counters, so a timely batch is recorded whenever the store is up |
| UsageDelivery.CountedExactlyOnce | internal/controller/store/store.go:689-788 | after any run rollups plus uncredited outbox equal everything ever emitted, per counter, and nothing uncredited was dropped; keys are unique because the meter numbers them |
| UsageDelivery.EmittedIsReported | internal/agent/reconciler.go:645-714 | what is emitted over a run is what the meter reports for the readings the run takes |
| UsageDelivery.NeverOvercharged | internal/controller/store/store.go:689-752 | from kernel counter to rollup: credited plus held usage never exceeds the traffic that passed, and equals it when no counter restarts unobserved |
| UsageDelivery.SessionDelivers | internal/controller/control/server.go:340-375 | an undisturbed session leaves exactly the outbox from its first untimely batch on, so everything is recorded if and only if every batch is in the clock window |
| UsageDelivery.HeadGetsThrough | internal/controller/control/server.go:343-350 | some run that receives only at given times drops the head of the outbox if and only if the head is in the window at one of them |
| UsageDelivery.TenMinutes | internal/controller/control/server.go:340-375 | a batch more than 600 seconds old, or ahead of the clock by more, ends the session unrecorded and stays with the agent; one in between is recorded and acknowledged if the store is up and knows its generation and counters |
| UsageDelivery.OverdueIsStuck | internal/controller/control/server.go:343-350 | from a point in time on the head can still be delivered if and only if it is not too old by then; a batch from the future only waits |
| UsageDelivery.LateUsageIsLost | internal/controller/control/server.go:343-350 | a run after which one counted packet, and everything collected later, is never credited |
| Placing.MatchingLinks | internal/cluster/scheduler.go:310-338 | finds the first link of the one node that the first link back, by the same technique, faces with crossed addresses, or there is none |
| Placing.ChooseNode | internal/cluster/scheduler.go:78-129 | the previous node if still eligible; else a node as good as every eligible one: in another failure domain if that is preferred and possible, then with forwards(n)*max(m) <= forwards(m)*max(n), then by smaller identifier; none only if no node is eligible |
| Placing.EligibleIsSuited | internal/cluster/scheduler.go:78-102 | a node is eligible exactly when it is enabled, available, plays the role, matches the selector, has room and every required capability, and faces the ingress over a tunnel both support, in another domain where required |
| Placing.ChoiceIsUnique | internal/cluster/scheduler.go:103-128 | the choice does not depend on the order in which nodes are visited |
| Placing.LoadOrderIsStrictTotal | internal/cluster/scheduler.go:103-128 | the cross-multiplied comparison of loads is a strict total order |
| Placing.ChooseBackend | internal/cluster/scheduler.go:147-194 | the preferred backend among the healthy ones, else among the unknown ones, else among all |
| Placing.BackendIsKept | internal/cluster/scheduler.go:147-194 | the backend of before is kept among equals, and, where none is known to be healthy, whatever its priority unless only it is known to be unhealthy |
| Placing.HealthyIsPreferred | internal/cluster/scheduler.go:147-194 | a backend with a fresh healthy observation of its version is never passed over for one without, nor for one of worse priority |
| Placing.UnhealthyIsTheLastResort | internal/cluster/scheduler.go:147-194 | a backend known to be unhealthy is chosen only if all of them are; without health checks the first by priority is |
| Scheduling.Place | internal/cluster/scheduler.go:22-76 | every forward in order gets eligible nodes, links and a backend under the usage booked so far; it fails exactly when no placement in that order exists. What placement means on numbers is stated by `Scheduling.PlacedAsAsked`, `Scheduling.PlacedOnTheLightest` and `Scheduling.FitsExactly` |
| Scheduling.PlacedAsAsked | internal/cluster/scheduler.go:78-129 | every forward is on distinct nodes that are available, enabled, play the role, match the selector and are in different failure domains where that is required |
| Scheduling.PlacedOnTheLightest | internal/cluster/scheduler.go:103-128 | every forward stays where it was if it may, and else is on a node as good, on the numbers booked so far, as any eligible one |
| Scheduling.PlacedOnAHealthyBackend | internal/cluster/scheduler.go:22-76 | a forward has a backend healthy in the eyes of the node that hands traffic to it, of the best priority, whenever there is one |
| Scheduling.FitsExactly | internal/cluster/scheduler.go:249-281 | the fit test on unsigned words says exactly whether the node has room for one more forward and for what it reserves, or may use by its rate limit |
| Scheduling.NeverOverCapacity | internal/cluster/scheduler.go:249-268 | no outcome of placement exceeds a node's forward limit or a non-zero bandwidth |
| Scheduling.NeverUnderflows | internal/cluster/scheduler.go:249-260 | the unsigned subtraction of the capacity test never wraps around |
| Scheduling.OutcomeIsDetermined | internal/cluster/scheduler.go:22-129 | placement has a single outcome, whatever order maps are visited in |
| PlanCompiler.Compile | internal/cluster/scheduler.go:340-493 | every node gets exactly the entries, checks, policies and used links of the placements that concern it (spelled out in `PlacementMeaning`); refused exactly on an unknown forward, pool, backend, node or VIP, an incomplete link or an invalid state |
| NftProgram.KeysAgree | internal/spec/validate.go:331-345 | validation reserves exactly the keys the compiler emits |
| NftProgram.CompileAt | internal/dataplane/nft/compiler.go:96-286 | succeeds exactly on valid states with resolved classes; every key is in every map exactly as its one forward asks: paused if and only if the forward is paused or force-deleting, or its expiry or its drain deadline is not after `now`, and draining if and only if it drains and neither time has come; marked for the class of its own limit or its user's on the ingress, for the link of its replies on the exit |
| FabricProgram.Compile | internal/dataplane/fabric/compiler.go:82-164 | the allowed addresses, routes and rules are those of the links and of the via-exit forwards, in any order |
| FabricProgram.EntriesMean | internal/dataplane/fabric/compiler.go:82-164 | no route, rule or allowed address without a tunnel that needs it, and none missing: to the VIP over the link in the main table, and back to the ingress in table 47000 + routing identifier, selected by the mark 0x47000000 + identifier at priority 20000 + identifier |
| FabricProgram.MarksApart | internal/dataplane/fabric/compiler.go:71-75 | distinct routing identifiers give distinct marks, tables and priorities, and no routing mark is a traffic mark |
| PlacementMeaning.LookupGivesTarget | internal/dataplane/nft/compiler.go:96-200 | the ingress table, and for via-exit the exit table after it, send every protocol to the placed target |
| PlacementMeaning.EntriesAreAsPlanned | internal/cluster/scheduler.go:367-417 | a placed forward has an entry on its ingress and on its exit and nowhere else, with the VIP, listener, link, limits and times of the plan and the target of a backend of its pool |
| PlacementMeaning.BackendsAreProbed | internal/cluster/scheduler.go:418-446 | the node that hands traffic to the target probes every backend of the pool, at its probe address if it has one |
| PlacementMeaning.UsersHaveTheirPolicies | internal/cluster/scheduler.go:387-453 | a node has the policy of exactly those users whose forwards enter there |
| PlacementMeaning.LinksAreThoseOfTunnels | internal/cluster/scheduler.go:397-463 | a node has exactly the links its tunnels run over, unchanged but for the key of a WireGuard peer |
| PlacementMeaning.TunnelAgrees | internal/dataplane/fabric/compiler.go:103-146 | over reciprocal links, routes, accepted sources, reply marks, rules and tables of both nodes fit together, and nothing competes with them: one route and one carrying link for the VIP, one rule for the mark, one route in its table |
| TrafficControl.WriteDirectionClasses | internal/dataplane/tc/compiler.go:143-205 | user classes first, then forward classes, all apart on a valid node, and one filter for each class that ingress traffic is marked with; the limits are in `TrafficControl.UsersAreLimited` and `TrafficControl.ForwardsAreLimited` |
| TrafficControl.UsersAreLimited | internal/dataplane/tc/compiler.go:143-205 | a user limited one way has a class with that limit and burst: upload by the ingress rate, download by the egress rate, neither above the link |
| TrafficControl.ForwardsAreLimited | internal/dataplane/tc/compiler.go:143-205 | a forward with limits of its own has a class with them, or with its user's where it says nothing itself |
| TrafficControl.WriteIngressRedirects | internal/dataplane/tc/compiler.go:215-233 | one rule with consecutive preference for each key of each upload-limited forward, with its mark |
| TrafficControl.UploadsAreRedirected | internal/dataplane/tc/compiler.go:215-233 | redirected is exactly what an upload-limited forward listens to, for its own class if it has limits, else for its user's |
| TrafficControl.MarksFindTheirClass | internal/dataplane/tc/compiler.go:143-247 | the nft mark of a limited forward selects exactly one filter, whose class exists, is no faster than the link and follows its parent; on a valid node no other class has its identifier |
| EndToEnd.PlacedLinksMatch | internal/cluster/scheduler.go:321-338 | every placed tunnel runs over reciprocal links |
| EndToEnd.PlacedTrafficArrives | internal/cluster/scheduler.go:22-471 | after placement and compilation a packet for the forward reaches exactly the placed target over a tunnel both nodes agree on |
| EndToEnd.CapabilitiesCovered | internal/control/protocol.go:45-117 | a node has every capability its compiled state requires if and only if it blocks no protocols or supports blocking them |
| EndToEnd.NothingAskedInVain | internal/control/protocol.go:45-117 | placement demands no capability of a node that the state compiled for it would not require |
| EndToEnd.TunnelsAskWhatTheyNeed | internal/cluster/scheduler.go:131-145 | what placement asks of a node for a tunnel is exactly what a state with such a link requires, and a key for WireGuard |
| EndToEnd.PlacedLinksCompile | internal/cluster/scheduler.go:131-145 | no link that placement chose is ever missing the key of its peer |
| PlacementExample.BlocksAreNotChecked | internal/control/protocol.go:45-49 | a plan that is valid, placed and compiled for a node that lacks a capability its state requires |
| ServiceVips.NoWrapAround | internal/controller/store/cluster.go:1537-1567 | the 32-bit addition of base and cursor never wraps |
| ServiceVips.BlocksAreAligned | internal/controller/store/cluster.go:1537-1567 | a block starts at a multiple of its size, which is a power of two, and contains the address it was written with |
| ServiceVips.Allocator.NextAvailable | internal/controller/store/cluster.go:1537-1567 | a free address inside a block, which in a block of more than two excludes the first and the last, or none only if every such address of every block is taken, despite the moving cursors |
| ServiceVips.Allocator.AllocateServiceVIPs | internal/controller/store/cluster.go:1484-1535 | exactly the via-exit forwards get an address: the one they had, or a free one, all distinct and inside the blocks (neither the first nor the last address of a block of more than two); out of capacity only when all are taken |
| RecordLayer.ChunksKeepPlaintext | internal/securechannel/conn.go:38-62 | cutting into records loses nothing |
| RecordLayer.ChunksAreFull | internal/securechannel/conn.go:38-62 | every record but the last carries 65535 - 16 bytes |
| RecordLayer.KeysAreRekeyed | internal/securechannel/conn.go:43-60 | record i is sealed after exactly i / 2^20 rekeys |
| RecordLayer.FramesAreSealed | internal/securechannel/conn.go:43-60 | record i is two bytes of length, higher byte first, and the plaintext sealed under the key of its block and the number i |
| RecordLayer.Sender.Write | internal/securechannel/conn.go:38-62 | the bytes on the wire are the frames of the plaintext, encrypted record by record with a rekey after every interval; after an error, a prefix of that |
| RecordLayer.Sender.WriteRecord | internal/securechannel/conn.go:43-60 | one record more on the wire, under the key of its number |
| RecordLayer.Receiver.ReadFrame | internal/securechannel/conn.go:116-130 | the next frame is returned only when all of it arrived, and it is the one that was sealed at this position |
| RecordLayer.Receiver.Read | internal/securechannel/conn.go:64-88 | a successful read returns between one and `size` bytes that continue what was delivered, in order |
| RecordLayer.Converse | internal/securechannel/conn.go:38-88 | for any writes and any read sizes, each end going on until its own first error, what is read is a prefix of what was written |

## Left out

- Addresses are IPv4 numbers, the only family validation admits; unmapping of IPv4-in-IPv6 is not modelled.
- Prefixes are kept as written: two spellings of one service block are two different states here, where canonicalization and merging mask them to one.
- StateValidation.Canonical: sorting is modelled; the masking of prefixes, the unmapping of addresses and the clearing of host names are not.
- Protocol lists and protocol-block policies are sets; an absent block policy and an empty one are the same.
- Checksums stand for the content they cover, and SHA-256 in the canary order is an arbitrary function with ties broken by identifier.
- StateValidation.Validate: the format of identifiers, numeric ranges, schema gates, overlap of service CIDRs among themselves and reserved class and routing identifiers are not modelled; the other conditions between elements are. Error messages are not modelled.
- Rollouts: SQL, audit rows, plan pausing, and the placement commit at completion are not modelled; nodes start at their baselines, and other publications to the same node (quota pause, expiry, cleanup after a force delete) do not happen during a rollout.
- RolloutFleet: agents restart, but machines do not, so a move that makes a kernel forget is not part of a fleet run; a machine that lost its kernel state runs nothing until its agent recovers it.
- Exit-first order is not claimed during compensation, which is a single stage.
- RolloutCompletion.CompletionReachable: completion stays possible, but no fairness of the network or of the advancer is assumed, so no run is claimed to end.
- RolloutStore.Store.PublishStage: the states that publication stores are parameters; module `TrafficClasses` says what they are and when they exist.
- TrafficClasses.ClassTable.Publish: generation exhaustion and the service VIP bindings of the same transaction are not modelled.
- AgentReconciler.Agent.Converge: compile errors of the three compilers are one predicate, and the traffic-control, fabric and counter backends are taken to be configured; presence is all that the fabric check looks at, so fabric resources left over from before a crash are not excluded (a replacement and a rollback remove those of the state they supersede).
- AgentReconciler.Agent.Collect: the counters read are those of the installed table at that moment; counting across a crash with another table in place is not claimed to be exact.
- Agent purge, conntrack cleanup beyond its success or failure, health probing and node commands are not modelled.
- Clock and envelope checks of results are not modelled in `GenerationExchange`.
- In `UsageDelivery` and `GenerationExchange` a disconnect empties both directions at once: a message of an old stream that is still being handled after a reconnect is outside the model.
- UsageLedger.Controller.RecordUsageBatch: the evaluation of quotas after a batch, the generation it may publish, and numeric ranges are not modelled.
- Meter.Tracker.Observe: counters are unbounded; wrap-around of 64-bit counters is not modelled.
- Scheduling.NeverOverCapacity: numbers are assumed to fit their 64-bit words at the start; the sums wrap as in the program and are proved not to.
- PlanCompiler.Compile: the placement list is a map by forward; a list that names a forward twice, which placement never produces, is not represented.
- NftProgram.CompileAt: the text of the script, its chains, its upload and download counter maps with their bindings, and its protocol-block rules are not modelled, only the sets and maps a packet is looked up in.
- TrafficControl.WriteDirectionClasses: root classes, the textual batch and its checksum are not modelled.
- RecordLayer.Receiver.Read: nothing is claimed after a read has failed; handshake and cipher are an abstract family of keys with opening inverse to sealing.
- HTTP management API, access control, user interface, installers, upgrades, backups and the command broker: input, output and single-branch claims only.
