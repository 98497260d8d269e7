# PGBastion: a verified model

PGBastion is a PostgreSQL high-availability daemon. This project models the parts of it whose correctness depends on
state, concurrency or arithmetic, and proves what they keep over every input, every run and every interleaving. All of
it is Dafny 4; `dafny verify dfyconfig.toml` checks everything.

**Connection pool** (`internal/proxy/pool.go`). `PoolState` gives each section under the mutex as a function,
`BackendPool` is the object whose methods are proved against those sections, and `PoolProtocol` interleaves any number
of Acquire calls, callers, the two replenishers, cleanup and Close, with the counter updates made outside the lock as
steps of their own. `PoolLaws` says what the sections do to a connection of a given age. `PoolTheorems`, `PoolAges`,
`PoolBounds`, `PoolExhaustion` and `PoolService` prove the conservation law of the counter, exclusive ownership,
first-come-first-served hand-offs, exactly when the pool panics, exactly when it is used up for good, and the exact
size bound. No run is excluded: a Close during an Acquire is a run like any other, and it is proved that this is the
one way to panic.

**Replicated state machine** (`internal/consensus`). `Fsm` is the state and its commands, `ClusterFsm` the object
updated in place, `ReplicatedLog` and `LogLaws` what the log alone determines although every replica reads its own
clock, and `Store` one node's view: the log it applied, its FSM, and writes that are refused unless the node leads,
and otherwise commit or fail, while other nodes' commands land in between.

**Failover and the node manager** (`internal/cluster`). `Failover` and `Switchover` give the controller's decisions,
publications, waits and monitoring, and `Timeouts` what a timeout does; `NodeManager` one evaluation of a node as a
function of its health report, its directives and what happens around each write; `FailoverController` and
`ClusterManager` are the two objects, proved against them. `NodeRuns` ties every step to the log. `NodeStates`,
`ReplicaChoice`, `FailoverGuard`, `LeaderLag`, `SelfFencing`, `DirectiveRuns` and `Followers` prove what holds over
whole runs: which states can be left and how, what must have happened before an automatic failover and whom it
promotes, exactly when a node fences itself, how often a directive is executed, and what becomes of a node that does
not lead. `FailoverExample` is one concrete run.

**Texts, counters, buffers.** `ManagedBlock` treats the marker splice of pg_hba.conf as a lens on strings.
`AlterSystem` proves the `ALTER SYSTEM` printer inverse to a reader that follows the string-literal rule of section
5.3 of ISO/IEC 9075-2 (a doubled quote stands for one quote). `ConfigApplier` covers change detection by version
number, `RateLimiter` the token bucket over real numbers, `HealthHistory` the ring buffer.

In all modules a clock reading, a result of an external program, a Raft write's outcome and the commands of other
nodes are inputs, so a theorem holds whatever they are. A list that Go builds by iterating a map is an arbitrary
enumeration of that map.

## Where the code differs from what one would expect

Each of these is proved, with the exact condition where there is one.

- A waiter that gives up after Release sent to it strands the connection. That is the only way to lose a slot
  (`CapacityLostIff`), the slot never comes back (`StrandedCapacityIsLost`), and a pool of any size can lose all of
  them (`TimeoutsCanExhaustThePool`). An open pool is used up for good exactly when all are lost and no replenisher is
  dialling (`UsedUpIff`, `ExhaustedForGood`).
- MaxPoolSize is a true bound, and waiters imply an empty idle list, if and only if no idle minimum is configured
  (`SizeIsRespectedIff`, `WaitersMeanNoIdleIff`). Otherwise the counter can exceed it by two, and no more.
- An Acquire that enters its connection after Close writes to a nil map (`RunPanicsIff`, `PanicIsReachable`).
- A file with a stray marker is not repaired: each write appends, or swallows text (`LastWriteWinsIffWellFormed`).
- Deleting a cluster parameter counts as applied but leaves the old value on the server
  (`DeletedParameterStaysOnServer`), and so does a refused one (`ServerMatchesIff`, `RefusedIsNotRetried`). A full SET
  is sure to be noticed if and only if it raises the version or repeats it with the same map (`SetKeepsDetectionIff`).
  The warning at internal/cluster/pgconfig.go:117 speaks of assuming that all parameters need a restart; the code then
  treats none as needing one, and the model follows the code.
- Reporting a change of state reports a lag of zero with it. A leader that starts a failover does so on entering
  FAILOVER_IN_PROGRESS, just before the target is chosen by least lag, and before that on entering REPLICA_LAGGING if
  its lag is beyond the threshold. With non-negative lags, once either report commits and nothing else lands in
  between, the choice is sure to be of least lag, by the lags its own health report left on record, if and only if no
  other candidate lagged less than the leader (`ChoiceIsOfLeastLagIff`, `ChoiceIsOfLeastReportedLagIff`,
  `HarmlessIffOwnLagIsLeast`); if all others lag, the leader promotes itself however far behind it is
  (`LeaderPromotesItself`, `RecoveredPrimaryIsFailedOver`).
- The confirmation period is not reset when the primary recovers: a detection from before a healthy spell still counts
  (`OldDetectionStillCounts`, `RecoveredPrimaryIsFailedOver`).
- internal/consensus/store.go:36 refuses every write of a node that does not lead Raft (`FollowersCommitNothing`). A
  primary that does not lead cannot report its health and turns stale (`FollowingPrimaryGoesStale`), a follower
  executes its directives again on every tick until another node touches their IDs (`FollowersRepeatDirectives`), and
  a failover to a follower ends by its timeout, as failed, although the target was promoted
  (`FailoverToFollowerTimesOut`).
- A leader that failed over automatically, and any node whose switchover ended, successfully or not, stays in
  FAILOVER_IN_PROGRESS until a directive or another manual operation moves it (`StuckUntilIntervention`,
  `FailedSwitchoverStrands`, `OneFailoverPerIntervention`).
- The comment at internal/cluster/manager.go:327 says that fenced nodes stay fenced until manually unfenced; a manual
  failover whose publication fails also puts a fenced leader into RUNNING_REPLICA (`ManualFailoverLands`).
- An error return of a failover leaves FENCE pending, and no longer monitored, if and only if FENCE committed
  (`FailedPromoteLeavesFencePending`); a switchover does the same with DEMOTE, with no PROMOTE to follow
  (`FailedSwitchoverLeavesDemotePending`).
- A committed timeout overwrites a completion that lands just before it (`TimeoutOverwritesCompletion`,
  `CompletionCanBeLost`); before the timeout a pass writes nothing (`NoTimeoutNoWrite`).
- The Raft back-off passes the 30 seconds at which doubling is meant to stop and ends at 32 (`BackoffSchedule`).

## Model

| member | source | states |
|---|---|---|
| PoolState.WithDefaults | internal/proxy/pool.go:106-122 | each positive setting is kept, each other one becomes 20 connections, 5 minutes or 30 minutes; the idle minimum is taken as given |
| PoolState.Unhealthy | internal/proxy/pool.go:157-178 | the pop loop discards exactly the unhealthy connections above the topmost healthy one |
| BackendPool.BackendPool.constructor | internal/proxy/pool.go:106-142 | a new pool is empty, with the defaulted configuration |
| BackendPool.BackendPool.Acquire | internal/proxy/pool.go:151-213 | the first section of Acquire does what AcquireSection says: closed, from idle, reserved, or queued |
| BackendPool.BackendPool.PopHealthy | internal/proxy/pool.go:157-178 | the pop loop removes the unhealthy top of the stack, counts each close once, and takes the first healthy connection |
| BackendPool.BackendPool.GiveUp | internal/proxy/pool.go:244-266 | a waiter that gives up takes itself off the queue if it is still on it, keeping the order of the others |
| BackendPool.BackendPool.Release | internal/proxy/pool.go:271-308 | foreign connections change nothing; otherwise retire, hand to the oldest waiter, or put on the idle stack |
| BackendPool.BackendPool.Discard | internal/proxy/pool.go:311-322 | a lent connection is retired, any other changes nothing |
| BackendPool.BackendPool.Close | internal/proxy/pool.go:325-354 | closes all idle and lent connections once, wakes all waiters, and is idempotent |
| BackendPool.BackendPool.CloseLent | internal/proxy/pool.go:342-346 | closing the lent connections decrements once per connection, in any map order |
| BackendPool.BackendPool.CloseConn | internal/proxy/pool.go:430-433 | one close, one decrement |
| BackendPool.BackendPool.CleanupIdleConnections | internal/proxy/pool.go:452-477 | keeps the healthy idle connections in order and retires the others |
| BackendPool.BackendPool.PlanReplenish | internal/proxy/pool.go:479-494 | how many connections a replenisher sets out to dial |
| BackendPool.BackendPool.Stock | internal/proxy/pool.go:522-530 | a replenished connection goes on the idle stack, or is retired if the pool was closed |
| PoolLaws.AcquireOutcome | internal/proxy/pool.go:151-213 | Acquire takes the topmost idle connection dialled at most the lifetime and touched at most the idle timeout before its check, marks its use, closes those above and leaves those below; if there is none it reserves a slot, or queues last |
| PoolLaws.ReleaseOutcome | internal/proxy/pool.go:271-308 | Release closes a lent connection if and only if it is past the lifetime or past the idle timeout since it was lent; else the oldest waiter gets it unchanged, or it goes on top of the idle list stamped now |
| PoolLaws.LastInFirstOut | internal/proxy/pool.go:157-173 | the connection released last is lent first, while it has not expired |
| PoolLaws.StockedIsLent | internal/proxy/pool.go:522-530 | so is one a replenisher has just stocked |
| PoolLaws.CleanupOutcome | internal/proxy/pool.go:452-477 | cleanup closes exactly the expired idle connections and keeps the order of the others |
| PoolLaws.CleanupCounts | internal/proxy/pool.go:452-477 | each closed connection is counted down once |
| PoolLaws.NeededFills | internal/proxy/pool.go:479-494 | a replenisher sets out to fill the idle minimum, as far as the pool size allows |
| PoolAges.RunKeepsTimes | internal/proxy/pool.go:145-308 | in every run the stored times are those read off the steps: when a connection was dialled, and when it was last lent, received, given back or stocked |
| PoolAges.LentIffFresh | internal/proxy/pool.go:157-178 | over every run an idle connection is lent if and only if it is not too old by those times and everything above it is; it is closed exactly if it and everything above it are |
| PoolAges.ReturnedIffFresh | internal/proxy/pool.go:285-307 | over every run a connection given back to an open pool is closed if and only if it is too old, counting from when it was lent |
| PoolAges.CleanedIffOld | internal/proxy/pool.go:463-473 | over every run the maintenance closes exactly the idle connections that are too old |
| PoolAges.NoDialAfterClose | internal/proxy/pool.go:498-503 | after Close no replenisher starts another dial |
| PoolProtocol.StepKeepsInv | internal/proxy/pool.go:145-532 | every step of every thread keeps queue, ownership and counting invariants |
| PoolTheorems.RunKeepsInv | internal/proxy/pool.go:145-532 | the invariants hold at every point of every run |
| PoolTheorems.CounterIsConserved | internal/proxy/pool.go:145-362 | total = idle + in use + reserved dials + hand-offs sent or received + counted but not inserted + stranded; after Close and quiescence exactly the stranded remain |
| PoolTheorems.StrandedCapacityIsLost | internal/proxy/pool.go:244-255 | a stranded hand-off stays counted for the rest of the run |
| PoolTheorems.CapacityLostIff | internal/proxy/pool.go:244-266 | in every run the lost slots are exactly as many as waiters gave up after a connection was sent to them; none is lost if and only if there is no such waiter |
| PoolTheorems.PlacesAreDisjoint | internal/proxy/pool.go:158-346 | no connection is in two places or twice in the idle list, and none is closed and decremented twice |
| PoolTheorems.SendNeverBlocks | internal/proxy/pool.go:297-301 | the channel of the oldest waiter is always empty and open, so the send under the lock cannot block or panic |
| PoolTheorems.FirstComeFirstServed | internal/proxy/pool.go:210-302 | over every run waiters are served in the order they queued: none is handed a connection past an older waiter |
| PoolTheorems.NoTwoHolders | internal/proxy/pool.go:145-308 | if callers give back only what they hold, no connection is held by two Acquire calls |
| PoolTheorems.RunPanicsIff | internal/proxy/pool.go:200-235 | a run has panicked if and only if some Acquire entered its connection after Close |
| PoolTheorems.CarefulCloseNeverPanics | internal/proxy/pool.go:325-346 | no run panics if Close is not taken while an Acquire is between its sections |
| PoolTheorems.CarelessCloseMayPanic | internal/proxy/pool.go:346-346 | from every closed state with an Acquire in flight two steps suffice to panic |
| PoolExhaustion.PanicIsReachable | internal/proxy/pool.go:180-202 | Acquire, Close and a late dial lead from the start to the panic |
| PoolBounds.SizeIsBounded | internal/proxy/pool.go:479-532 | in every reachable state the counter is between 0 and MaxPoolSize + 2 |
| PoolBounds.SlackIsReached | internal/proxy/pool.go:496-514 | with an idle minimum some run reaches MaxPoolSize + 2 |
| PoolBounds.SizeIsRespectedIff | internal/proxy/pool.go:180-182 | MaxPoolSize bounds every reachable state if and only if MinIdleConns <= 0 |
| PoolBounds.WaitersMeanNoIdleIff | internal/proxy/pool.go:297-306 | waiters imply an empty idle list in every reachable state if and only if MinIdleConns <= 0 |
| PoolBounds.WaiterBesideIdle | internal/proxy/pool.go:522-530 | a replenisher can stock a connection beside a queued waiter |
| PoolExhaustion.TimeoutsCanExhaustThePool | internal/proxy/pool.go:244-255 | whatever the size, some run strands every slot of an open pool |
| PoolExhaustion.ExhaustedForGood | internal/proxy/pool.go:180-213 | once every slot is stranded, over every further run the pool stays so and nobody is given a connection |
| PoolService.UsedUpIff | internal/proxy/pool.go:151-306 | in every reachable open state without a panic, no continuation gives anybody a connection if and only if every slot is stranded, nothing else is counted and no replenisher is dialling; otherwise three steps suffice |
| Fsm.ApplyKeepsKeys | internal/consensus/fsm.go:123-280 | nodes and directives stay stored under their own names |
| Fsm.PendingOnlyByPublish | internal/consensus/fsm.go:193-221 | only a PUBLISH of the same ID makes a directive pending |
| ClusterFsm.ClusterFSM.constructor | internal/consensus/fsm.go:113-120 | a new FSM is empty |
| ClusterFsm.ClusterFSM.Apply | internal/consensus/fsm.go:123-280 | the object updated in place equals the functional state, and the response is the command's |
| ClusterFsm.ClusterFSM.RemoveStale | internal/consensus/fsm.go:223-241 | deleting while iterating removes exactly the stale directives and counts them |
| ClusterFsm.ClusterFSM.Merge | internal/consensus/fsm.go:252-275 | a patch gives the same parameters for every iteration order |
| ClusterFsm.ClusterFSM.GetReplicas | internal/consensus/fsm.go:331-342 | lists every replica exactly once |
| ClusterFsm.ClusterFSM.GetDirectivesForNode | internal/consensus/fsm.go:364-375 | lists every pending directive of the node exactly once |
| ClusterFsm.ClusterFSM.GetStaleDirectiveIDs | internal/consensus/fsm.go:417-429 | reports exactly what a cleanup with the same cutoff would remove |
| ReplicatedLog.ConformsStep | internal/consensus/fsm.go:123-280 | applying a command keeps a replica among the states the log allows, whatever its clock reads |
| ReplicatedLog.RunConforms | internal/consensus/fsm.go:123-280 | a replica that applied a log conforms to it, for all clock readings |
| ReplicatedLog.RestoreOfSnapshot | internal/consensus/fsm.go:283-313 | restoring a snapshot gives back the state, including the omitted empty directive map |
| ReplicatedLog.StepKeepsInv | internal/consensus/fsm.go:123-313 | commit, apply, snapshot and restore keep every replica and snapshot conforming to its prefix |
| ReplicatedLog.ReplicasAgree | internal/consensus/fsm.go:123-313 | in every reachable cluster two replicas at the same index agree on all but local times, and a directive only one still has is finished, whatever was restored from which snapshot |
| ReplicatedLog.BookPendingIffOpen | internal/consensus/fsm.go:193-221 | a directive is unfinished exactly when its latest publication is pending and nothing touched its ID since |
| ReplicatedLog.PendingQueueIsTheOpenDirectives | internal/consensus/fsm.go:364-375 | the pending queue of a node is exactly the set of directives the log leaves open for it, wherever cleanups fall |
| ReplicatedLog.IsPendingIffOpen | internal/consensus/fsm.go:378-387 | an ID reads as pending exactly when the log leaves it open |
| LogLaws.ParameterByLog | internal/consensus/fsm.go:243-271 | a parameter has a value if and only if the last SET, or PATCH naming it, gives it that value; an empty value in a PATCH removes it |
| LogLaws.VersionByLog | internal/consensus/fsm.go:243-275 | the version is that of the last SET, or zero, plus the PATCHes since |
| LogLaws.AuthorByLog | internal/consensus/fsm.go:243-275 | the author is that of the last SET or PATCH |
| LogLaws.NodeByLog | internal/consensus/fsm.go:131-185 | a node is on record if and only if it was registered and not removed since; its identity is that of the last registration, its state, lag and time those of the last entry that concerns it |
| LogLaws.ReplicaByLog | internal/consensus/fsm.go:331-342 | the replicas are the nodes whose last registration said so |
| LogLaws.PrimaryByLog | internal/consensus/fsm.go:316-328 | the primary is the node of the last SET_PRIMARY, unless it was removed since |
| LogLaws.FlagByLog | internal/consensus/fsm.go:186-192 | the split-brain flag is that of the last SET_CLUSTER_CONFIG |
| LogLaws.DirectiveByLog | internal/consensus/fsm.go:193-221 | a directive still on record is the one last published, as published, or completed or failed with the error of the last COMPLETE |
| LogLaws.ForgottenIff | internal/consensus/fsm.go:223-241 | a replica forgets a finished directive at the first cleanup more than its age, by default a day, after the completion, and nothing else |
| LogLaws.StampedByClock | internal/consensus/fsm.go:213-273 | completions and patches are stamped with the replica's clock |
| Store.ProposeValid | internal/consensus/store.go:35-53 | a write, committed or not, leaves the FSM in step with the log |
| Store.ProposeOwn | internal/consensus/store.go:35-53 | a committed write adds exactly its command to what this node committed, a failed one adds nothing |
| Failover.SelectBest | internal/cluster/failover.go:526-551 | a replica of least lag other than the excluded one; none only if there is no other |
| Failover.FailoverCommits | internal/cluster/failover.go:163-268 | exactly FENCE (if enabled) and PROMOTE are committed and tracked from the start time, or an error is returned with the controller cleared |
| Failover.FailoverDirectives | internal/cluster/failover.go:202-243 | the two directives, field by field |
| Failover.TimedOutIff | internal/cluster/failover.go:385-388 | a failover in flight has timed out if and only if more than 60 seconds have passed since it started |
| Failover.IdsDiffer | internal/cluster/failover.go:205-231 | IDs of one kind tell nodes and times apart, whatever the node is called |
| Failover.FailoverLeavesBothPending | internal/cluster/failover.go:202-255 | after a successful failover both directives are pending for their targets under different IDs |
| Failover.FailedPromoteLeavesFencePending | internal/cluster/failover.go:202-255 | an error return leaves FENCE pending and unmonitored if and only if fencing is on and FENCE committed |
| Timeouts.TimeoutOverwritesCompletion | internal/cluster/failover.go:385-404 | past the timeout, a completion that lands between the read of its directive and the write survives the pass if and only if the write does not commit; else the directive ends as failed |
| Timeouts.NoTimeoutNoWrite | internal/cluster/failover.go:385-404 | before the timeout a pass writes nothing |
| Timeouts.CompletionCanBeLost | internal/cluster/failover.go:393-398 | for any pending directive, a concrete completion that is lost |
| Timeouts.PendingEndsByTimeout | internal/cluster/failover.go:370-450 | while a tracked directive stays pending, a pass ends the operation if and only if it timed out, and fails the directive if and only if its write also commits |
| Failover.MonitorEndsFailover | internal/cluster/failover.go:370-460 | past the timeout the controller is always cleared; a true return with successful writes leaves no tracked directive pending; a false return changes nothing |
| Timeouts.EndsWhenAllResolved | internal/cluster/failover.go:389-449 | before its timeout an operation ends at exactly the pass that finds no tracked directive open in the log it has heard; until then the controller is untouched |
| Switchover.SwitchoverCommits | internal/cluster/failover.go:275-366 | commits a prefix of CHECKPOINT, DEMOTE, PROMOTE: all three exactly on success, and an error never commits PROMOTE and leaves nothing in flight |
| Switchover.SwitchoverSucceedsIff | internal/cluster/failover.go:275-366 | a switchover succeeds if and only if its three writes commit, some poll finds the checkpoint completed while all earlier ones found it unresolved, and a later poll finds the target's lag at most zero; it then tracks its three directives |
| Switchover.SwitchoverDirectives | internal/cluster/failover.go:287-345 | the three directives, field by field |
| Switchover.SwitchoverOrder | internal/cluster/failover.go:275-366 | the log shows CHECKPOINT, its clean COMPLETE, a prefix with the target's lag <= 0, DEMOTE, PROMOTE, in this order |
| Switchover.FailedSwitchoverLeavesDemotePending | internal/cluster/failover.go:323-353 | an error return leaves DEMOTE pending and unmonitored if and only if CHECKPOINT completed, the target was seen in sync and DEMOTE committed |
| Switchover.CompletedAfterPublish | internal/cluster/failover.go:463-485 | a directive seen completed was completed without error after its publication |
| Switchover.AwaitDirectiveIff | internal/cluster/failover.go:463-485 | the wait succeeds if and only if some poll finds the directive completed and every earlier one found it there, neither completed nor failed |
| Switchover.AwaitSyncIff | internal/cluster/failover.go:488-524 | the wait succeeds if and only if some poll finds the target on record with a lag of at most zero |
| FailoverController.FailoverController.constructor | internal/cluster/failover.go:100-107 | a new controller is clear |
| FailoverController.FailoverController.ClearFailover | internal/cluster/failover.go:453-460 | clears all four fields and touches nothing else |
| FailoverController.FailoverController.ShouldFailover | internal/cluster/failover.go:127-160 | in flight: no; first detection: recorded, no; otherwise whether the period has passed |
| FailoverController.FailoverController.SelectBestReplica | internal/cluster/failover.go:526-551 | the argmin loop computes SelectBest |
| FailoverController.FailoverController.PublishFailoverDirectives | internal/cluster/failover.go:193-268 | publishes as specified and tracks the IDs, or clears on a failed write |
| FailoverController.FailoverController.ExecuteFailoverTo | internal/cluster/failover.go:183-190 | a failover to a given target refines FailoverTo |
| FailoverController.FailoverController.ExecuteFailover | internal/cluster/failover.go:163-180 | a failover to the best replica refines its specification, clearing when there is none |
| FailoverController.FailoverController.WaitForDirective | internal/cluster/failover.go:463-485 | the polling loop refines AwaitDirective |
| FailoverController.FailoverController.WaitForReplicaSync | internal/cluster/failover.go:488-524 | the polling loop refines AwaitSync |
| FailoverController.FailoverController.ExecuteSwitchover | internal/cluster/failover.go:275-366 | the whole switchover refines RunSwitchover, in every outcome |
| FailoverController.FailoverController.MonitorDirectives | internal/cluster/failover.go:370-450 | the monitoring pass refines Monitor |
| NodeManager.BackoffSchedule | internal/cluster/manager.go:139-175 | n consecutive errors back off 1, 2, 4, 8, 16, then 32 seconds from the last one |
| NodeManager.StateNameReadsBack | internal/cluster/manager.go:18-28 | the published name of a state stands for that state |
| NodeRuns.NextValid | internal/cluster/manager.go:234-403 | every tick, manual operation and replication keeps the FSM in step with the log |
| NodeRuns.NextExtends | internal/cluster/manager.go:234-403 | every step only appends to the log |
| NodeRuns.ProcessQuiet | internal/cluster/manager.go:337-501 | executing and completing directives publishes none |
| NodeStates.ProcessLands | internal/cluster/manager.go:405-455 | the last FENCE, PROMOTE or DEMOTE of a tick decides the state, with its outcome; without one it is unchanged |
| NodeStates.PromotionIsRecorded | internal/cluster/manager.go:417-436 | a reported promotion makes the FSM name this node as primary, with its address, before the directive is completed |
| NodeStates.ReportIsRecorded | internal/cluster/manager.go:551-577 | a committed health report leaves the node's state, its lag and the time on record, and changes nothing else |
| NodeStates.ChangeIsRecorded | internal/cluster/manager.go:177-200 | so does a committed change of state, with a lag of zero; a repeated state writes nothing |
| NodeStates.HealthDrives | internal/cluster/manager.go:255-333 | where each health report leads from each state: the whole table |
| NodeStates.UnhealthyRecovers | internal/cluster/manager.go:266-311 | an unhealthy report takes every node that is not stuck to RECOVERING, or leaves it INITIALIZING |
| NodeStates.LeaderTickEndsOperation | internal/cluster/manager.go:238-244 | a leader's tick past the timeout of its operation clears the controller |
| NodeStates.OnlyInterventionsLeave | internal/cluster/manager.go:326-333 | a stuck state is left only by a moving directive or an effective manual operation |
| NodeStates.StuckUntilIntervention | internal/cluster/manager.go:234-334 | FENCED, FAILOVER_IN_PROGRESS, PROMOTING and DEMOTING outlast every run without such a step |
| NodeStates.ManualFailoverLands | internal/cluster/manager.go:625-651 | FAILOVER_IN_PROGRESS exactly if the publication committed, else RUNNING_REPLICA, from any state |
| NodeStates.FailedSwitchoverStrands | internal/cluster/manager.go:734-755 | after a switchover the node stays in FAILOVER_IN_PROGRESS, on an error with a cleared controller |
| NodeStates.SteadyTick | internal/cluster/manager.go:255-324 | where one steady tick leads from every state that is not stuck |
| NodeStates.SteadyReportsSettle | internal/cluster/manager.go:234-324 | steady healthy reports reach the reported role within two ticks and stay; one tick suffices exactly unless a lagging node was promoted |
| ReplicaChoice.SelectsLeastLag | internal/cluster/failover.go:526-551 | over every listing order the choice has least lag among the FSM's replicas other than the failed primary |
| ReplicaChoice.LeastLagCanBeChosen | internal/cluster/failover.go:526-551 | every replica of least lag is the choice for some listing order |
| FailoverGuard.FailoverPublishes | internal/cluster/failover.go:193-268 | the directives a failover adds to those published, FENCE before PROMOTE, in every outcome |
| FailoverGuard.SilentTick | internal/cluster/manager.go:234-334 | a tick that starts no failover publishes no directive |
| FailoverGuard.StartedTick | internal/cluster/manager.go:611-620 | a started failover promotes a least-lag replica other than the failed primary, or there is none |
| FailoverGuard.TickPublishesIff | internal/cluster/manager.go:281-306 | a tick publishes if and only if its guard holds, a candidate exists and the first write commits |
| FailoverGuard.ConfirmationWasDetected | internal/cluster/failover.go:127-160 | a recorded confirmation start is the time of an earlier tick that detected a stale primary |
| FailoverGuard.AutomaticFailoversAreGuarded | internal/cluster/manager.go:580-622 | in every run a publishing tick is an unpaused leader, healthy replica, outside back-off, with a stale primary and a first detection at least the period earlier, and publishes as specified |
| FailoverGuard.OneFailoverPerIntervention | internal/cluster/manager.go:611-620 | between an automatic failover whose writes all commit and the next publication of that node lies an intervention; a failover with a failed write returns the node to RUNNING_REPLICA instead (StartedTick) |
| FailoverGuard.ManualFailoverPublishes | internal/cluster/manager.go:625-651 | on the leader, FENCE of the primary on record and PROMOTE of the given node; elsewhere nothing |
| FailoverGuard.ManualSwitchoverPublishes | internal/cluster/manager.go:734-755 | on the leader, a prefix of CHECKPOINT and DEMOTE of the primary on record and PROMOTE of the given node, complete exactly if in flight afterwards |
| FailoverGuard.ReportingPrimaryIsFresh | internal/cluster/manager.go:551-577 | on every replica that applied a primary's report, the primary is stale exactly once the period has passed since the report |
| FailoverGuard.UnreportedPrimaryGoesStale | internal/cluster/manager.go:596-604 | without commands naming it the primary is stale exactly once the period has passed since its last record |
| FailoverGuard.OldDetectionStillCounts | internal/cluster/failover.go:127-160 | after any calm spell a stale sighting starts a failover exactly if the period has passed since the old detection |
| FailoverExample.RecoveredPrimaryIsFailedOver | internal/cluster/manager.go:596-620 | a concrete run: detected stale, found fresh again, and failed over at the next stale sighting, where the leader publishes FENCE and PROMOTE of itself 1000 bytes behind, beside a replica one byte behind |
| LeaderLag.OwnLagIsErased | internal/cluster/manager.go:177-199 | the reports of REPLICA_LAGGING and FAILOVER_IN_PROGRESS zero the node's own recorded lag, exactly if the latter commits, or the former does and nobody rewrites the record; no other lag changes |
| LeaderLag.LeaderPromotesItself | internal/cluster/manager.go:615-616 | once its lag is erased, every choice is the leader if and only if every other candidate's recorded lag is positive |
| LeaderLag.ChoiceIsOfLeastLagIff | internal/cluster/manager.go:293-306 | every listing order promotes a replica of least lag, by the records had the tick's two state reports kept the leader's lag, if and only if neither erases it, the leader is no replica on record, or erasing its lag is harmless; whatever lands in between |
| LeaderLag.ChoiceIsOfLeastReportedLagIff | internal/cluster/manager.go:293-306 | when nothing lands in between, the same by the records the tick's health report left |
| ReplicaChoice.HarmlessIffOwnLagIsLeast | internal/cluster/manager.go:615-616 | for non-negative lags, harmless means that no other candidate lags less than the leader |
| LeaderLag.ErasedLagExample | internal/cluster/manager.go:615-616 | a leader 1000 bytes behind is preferred to a replica one byte behind |
| FailoverGuard.FencePrecedesPromote | internal/cluster/failover.go:202-255 | with fencing on, the log holds FENCE of the failed primary before PROMOTE |
| SelfFencing.LostSinceRunStart | internal/cluster/manager.go:675-695 | the recorded loss time is that of the first check of the unbroken run without quorum |
| SelfFencing.FencesIffLongLost | internal/cluster/manager.go:697-713 | over any check history: fence if and only if no quorum and an earlier check of the unbroken run is a timeout back |
| SelfFencing.TickChecks | internal/cluster/manager.go:266-279 | which ticks make a check, and that only a check self-fences |
| SelfFencing.SelfFencingIsExact | internal/cluster/manager.go:655-731 | the same equivalence for every tick of every run |
| DirectiveRuns.ExecutedIffOpen | internal/cluster/manager.go:337-356 | a tick executes exactly the directives the log leaves open for the node when it starts |
| DirectiveRuns.CompletionCommits | internal/cluster/manager.go:360-403 | at most five attempts commit one COMPLETE exactly when one succeeds before the retries end, else none |
| DirectiveRuns.CompletionTracksErrors | internal/cluster/manager.go:364-402 | a committed completion ends every back-off; otherwise every refused attempt counts as one error |
| DirectiveRuns.OutcomeIsRecorded | internal/cluster/manager.go:405-501 | if its completion commits, a directive on record ends as completed if and only if all its programs succeeded with the parameter it needs, and else as failed |
| DirectiveRuns.NotExecutedAfterComplete | internal/cluster/manager.go:337-356 | no tick that starts after the COMPLETE was applied executes the directive |
| DirectiveRuns.ExecutedExactlyOnce | internal/cluster/manager.go:337-403 | if a completion commits in the first executing tick, no other tick of the run executes the directive |
| DirectiveRuns.ExecutedUntilTouched | internal/cluster/manager.go:337-356 | over a run, every tick executes an opened directive until an entry publishes or completes its ID |
| Followers.FollowersCommitNothing | internal/consensus/store.go:35-38 | however long it runs, a node that does not lead commits nothing |
| Followers.FollowingPrimaryGoesStale | internal/cluster/manager.go:551-604 | a primary that does not lead is stale on every replica exactly once the period has passed since the record it had when it stopped leading |
| Followers.FollowersRepeatDirectives | internal/cluster/manager.go:337-403 | a directive for a node that does not lead is executed by every tick until another node touches its ID |
| Followers.FailoverToFollowerTimesOut | internal/cluster/manager.go:417-436 | a failover to a target that does not lead: the target promotes itself on every tick, no replica records it as primary, and the leader's operation ends exactly by its timeout, with PROMOTE failed |
| ClusterManager.Manager.constructor | internal/cluster/manager.go:64-83 | a new manager is INITIALIZING with nothing recorded |
| ClusterManager.Manager.Pause | internal/cluster/manager.go:123-128 | only the pause flag is set |
| ClusterManager.Manager.Resume | internal/cluster/manager.go:131-136 | only the pause flag is cleared |
| ClusterManager.Manager.SetState | internal/cluster/manager.go:177-200 | a real change is reported, a repeated state is not |
| ClusterManager.Manager.RecordRaftError | internal/cluster/manager.go:139-165 | counts the error, notes the time, doubles the back-off |
| ClusterManager.Manager.ClearRaftError | internal/cluster/manager.go:140-146 | clears count and back-off and nothing else |
| ClusterManager.Manager.ExecuteDirective | internal/cluster/manager.go:405-501 | refines Execute for all kinds and outcomes |
| ClusterManager.Manager.CompleteDirectiveWithRetry | internal/cluster/manager.go:360-403 | the retry loop refines Complete |
| ClusterManager.Manager.ProcessDirectives | internal/cluster/manager.go:337-356 | the loop over the pending directives refines Process |
| ClusterManager.Manager.CheckPrimaryHealth | internal/cluster/manager.go:580-622 | refines CheckPrimary |
| ClusterManager.Manager.CheckQuorumAndSelfFence | internal/cluster/manager.go:655-731 | refines CheckQuorum |
| ClusterManager.Manager.Evaluate | internal/cluster/manager.go:234-253 | one evaluation refines Tick |
| ClusterManager.Manager.EvaluateState | internal/cluster/manager.go:255-333 | the switch refines Settle |
| ClusterManager.Manager.EvaluateReplica | internal/cluster/manager.go:281-306 | the replica's case refines SettleReplica |
| ClusterManager.Manager.ManualFailover | internal/cluster/manager.go:625-651 | refines ManualFailover; true exactly if the publication committed |
| ClusterManager.Manager.ManualSwitchover | internal/cluster/manager.go:734-755 | refines ManualSwitchover; true exactly if a switchover is in flight afterwards |
| ManagedBlock.PgHbaMarkersAreValid | internal/cluster/replication.go:100-104 | the two markers of the source meet the conditions of the laws |
| ManagedBlock.Index | internal/cluster/replication.go:182-183 | the first occurrence, or -1 |
| ManagedBlock.WriteKeepsOutside | internal/cluster/replication.go:178-210 | a write keeps the file well-formed and the text outside the block, and the block reads back |
| ManagedBlock.UnmarkedTextIsKept | internal/cluster/replication.go:195-210 | a file without markers survives in front of the block, byte for byte, with exactly one blank line between |
| ManagedBlock.WritesCollapse | internal/cluster/replication.go:178-210 | any non-empty sequence of writes equals one write of the last block |
| ManagedBlock.WriteOfReadIsIdentity | internal/cluster/replication.go:185-190 | writing back the block that is there changes nothing |
| ManagedBlock.ReadsBackIffEndFree | internal/cluster/replication.go:178-210 | on a well-formed file a block reads back if and only if it does not contain END |
| ManagedBlock.StrayEndStays | internal/cluster/replication.go:191-194 | after a stray END every write appends another block |
| ManagedBlock.StrayBeginSwallows | internal/cluster/replication.go:191-194 | after a stray BEGIN the next write swallows the text up to the appended block |
| ManagedBlock.LastWriteWinsIffWellFormed | internal/cluster/replication.go:178-210 | for END-free blocks the last-write law holds if and only if the file was well-formed |
| AlterSystem.IsValidParameterName | internal/cluster/pgconfig.go:305-315 | accepts exactly the names of 1 to 64 lower-case letters, digits and underscores |
| AlterSystem.ValidNameIs | internal/cluster/pgconfig.go:305-315 | the valid names, by length and character codes |
| AlterSystem.LiteralReadsBack | internal/cluster/pgconfig.go:318-322 | a quoted value is read back exactly, up to its closing quote |
| AlterSystem.PrintReadsBack | internal/cluster/pgconfig.go:160-171 | the reader consumes the whole statement and returns exactly name and value |
| AlterSystem.OnlyPrintedStatementsRead | internal/cluster/pgconfig.go:160-171 | a text reads as a setting if and only if it is the printed form of that setting |
| AlterSystem.PrintIsInjective | internal/cluster/pgconfig.go:160-171 | distinct settings print distinctly |
| ConfigApplier.ConfigApplier.constructor | internal/cluster/pgconfig.go:55-61 | a new applier has applied nothing |
| ConfigApplier.ConfigApplier.ApplyConfig | internal/cluster/pgconfig.go:85-157 | version, restart flag, restart list in the order visited, and server settings after every outcome |
| ConfigApplier.ConfigApplier.ApplyParameters | internal/cluster/pgconfig.go:120-137 | for every map order, writes exactly the accepted parameters and lists those that need a restart in that order |
| ConfigApplier.AppliesExactly | internal/cluster/pgconfig.go:120-127 | an apply writes exactly the valid names that the server accepts, with their values |
| ConfigApplier.AppliedIff | internal/cluster/pgconfig.go:85-111 | only a connection failure is an error, and changes nothing; otherwise the version counts as applied |
| ConfigApplier.RestartPendingIff | internal/cluster/pgconfig.go:129-146 | a restart is pending if and only if some apply so far wrote a parameter that needs one |
| ConfigApplier.RestartStep | internal/cluster/pgconfig.go:129-146 | the list names exactly what the last such apply wrote |
| ConfigApplier.VersionsDetectChanges | internal/cluster/pgconfig.go:85-157 | in runs of PATCHes and SETs that raise the version or repeat the configuration, the applied version never exceeds the current one, and equality means the last apply saw the current parameters |
| ConfigApplier.SetKeepsDetectionIff | internal/consensus/fsm.go:243-250 | a full SET leaves detection working for every applier, whatever it has applied, if and only if it raises the current version or repeats it with the same parameters |
| ConfigApplier.SetMayGoUnnoticed | internal/consensus/fsm.go:243-250 | a SET that reuses the version is never applied |
| ConfigApplier.ServerMatchesIff | internal/cluster/pgconfig.go:120-157 | after applying a new version the server's settings equal the map if and only if no setting was dropped from it and every parameter was written or already had its value |
| ConfigApplier.RefusedIsNotRetried | internal/cluster/pgconfig.go:95-127 | a refused parameter counts as applied: no number of applies before the next version writes it |
| ConfigApplier.DeletedParameterStaysOnServer | internal/cluster/pgconfig.go:98-103 | deleting the only parameter is counted as applied and leaves it on the server |
| RateLimiter.Limiter.constructor | internal/api/server.go:29-36 | a new bucket is full |
| RateLimiter.Limiter.Allow | internal/api/server.go:38-55 | one call refines Take |
| RateLimiter.LevelIsLeastHeadroom | internal/api/server.go:38-55 | the level is the least headroom over all windows ending now |
| RateLimiter.AllowedIffEveryWindowFits | internal/api/server.go:38-55 | a call is allowed if and only if every window ending with it stays within maxTokens + refillRate * length |
| RateLimiter.WindowBound | internal/api/server.go:38-55 | any consecutive calls allow at most maxTokens + refillRate * length |
| RateLimiter.TokensStayInRange | internal/api/server.go:38-55 | the tokens stay between zero and maxTokens |
| RateLimiter.PatientCallerIsServed | internal/api/server.go:38-55 | a caller that waits 1 / refillRate is never refused if maxTokens >= 1 |
| HealthHistory.History.constructor | internal/cluster/health.go:132-137 | a new history is empty |
| HealthHistory.History.Add | internal/cluster/health.go:140-148 | the retained log is the old one with the entry appended, bounded by the capacity |
| HealthHistory.History.GetAll | internal/cluster/health.go:151-169 | the last min(n, capacity) entries, oldest first |
| HealthHistory.History.GetRecent | internal/cluster/health.go:173-190 | the newest entries first |
| HealthHistory.History.Stats | internal/cluster/health.go:194-228 | the figures of the retained log, although slots are scanned in physical order |
| HealthHistory.KeptIs | internal/cluster/health.go:151-190 | the retained entries and the newest ones, entry by entry of the log |
| HealthHistory.SummaryMeans | internal/cluster/health.go:194-228 | what the figures of the summary mean |
| HealthHistory.MillisecondsTruncates | internal/cluster/health.go:194-228 | durations are truncated toward zero |
| HealthHistory.SummaryOfRotation | internal/cluster/health.go:194-228 | counts and durations do not depend on where the buffer starts |

## Left out

- Raft itself, BoltDB, TLS and JSON bytes: consensus is an ordered log with writes that commit or fail; a write that
  returns an error is taken as not committed.
- HasQuorum and IsLeader: their answers are inputs of each check.
- pg_ctl, psql, pg_rewind, pg_basebackup and SQL queries: only whether they succeed; the text of a directive's error
  is one constant.
- At most one running primary in the cluster: PROMOTE is published without waiting for FENCE or DEMOTE to complete, so
  the code does not establish it.
- Overlapping manual operations and ticks on one node: a tick or a manual operation runs to its end before the next
  one starts, while other nodes' commands may land around every write and poll.
- Two reads of the FSM within one look at the primary are one read in the model.
- HealthHistory.History.Add: needs a positive capacity, since the source indexes an empty slice otherwise.
- HealthHistory.History.GetRecent: takes no negative count, which the source does not survive either.
- BackendPool.BackendPool.Acquire: is the first section only; dialling, waiting and the second section are steps of
  PoolProtocol, and the in-use map is there exactly until Close, as Shape keeps.
- Failover.FailedPromoteLeavesFencePending and Switchover.FailedSwitchoverLeavesDemotePending: the directive's ID is
  new and no other node publishes or completes it meanwhile.
- Timeouts.TimeoutOverwritesCompletion: no other node touches or cleans up the directive during the rest of the pass.
- Switchover.SwitchoverOrder: needs that nobody else publishes the checkpoint's ID during the wait.
- RateLimiter.Limiter.Allow: real numbers instead of floating point, and a clock that does not go back.
- SelfFencing.SelfFencingIsExact: check times are positive and do not go back; the zero time means "unset" in the
  source.
- Integer wrap-around of versions and counters.
- Replication slots, slot cleanup, pg_hba rendering and file I/O around the splice.
- Router, connection tracker, proxy plumbing, VIP and ARP handling, REST handlers, authentication, user interface,
  metrics, tracing, command line, configuration loading, rewind progress parsing.
