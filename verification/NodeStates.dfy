/** The node state machine over all runs: which states health checks cannot leave, and where they settle otherwise. */
module NodeStates {
  import opened Base
  import opened Fsm
  import opened Store
  import opened Failover
  import opened Switchover
  import opened NodeManager
  import opened NodeRuns
  import HealthHistory

  /** States that the health-driven part of a tick does not leave. */
  predicate Stuck(s: NodeState) {
    s.Fenced? || s.FailoverInProgress? || s.Promoting? || s.Demoting?
  }

  predicate Moves(e: Execution) {
    e.d.kind.Fence? || e.d.kind.Promote? || e.d.kind.Demote?
  }

  /** The state in which a FENCE, PROMOTE or DEMOTE leaves the node. */
  function Landing(e: Execution): NodeState
    requires Moves(e)
  {
    match e.d.kind
    case Fence => Fenced
    case Promote => if e.run1 then RunningPrimary else Promoting
    case Demote => if e.run1 && e.run2 && e.run3 then RunningReplica else Demoting
  }

  // ---------------------------------------------------------------- directives decide the state

  /** All of the node that completions do not touch. */
  predicate SameRole(a: Node, b: Node) {
    a.state == b.state && a.paused == b.paused && a.quorumLostAt == b.quorumLostAt
  }

  lemma {:induction false} CompleteKeepsRole(w: World, id: string, error: string, attempt: nat -> Attempt, k: nat)
    requires k < MAX_ATTEMPTS
    ensures SameRole(Complete(w, id, error, attempt, k).node, w.node)
            && Complete(w, id, error, attempt, k).ctrl == w.ctrl
    decreases MAX_ATTEMPTS - k
  {
    var a := attempt(k);
    if !a.turn.Commits() && k + 1 < MAX_ATTEMPTS {
      CompleteKeepsRole(Retrying(w, id, error, a), id, error, attempt, k + 1);
    }
  }

  lemma ProcessOneLands(cfg: ManagerConfig, w: World, e: Execution)
    ensures var w' := ProcessOne(cfg, w, e);
            && w'.ctrl == w.ctrl
            && SameRole(w'.node, w.node.(state := if Moves(e) then Landing(e) else w.node.state))
  {
    var (w1, error) := Execute(cfg, w, e);
    CompleteKeepsRole(w1, e.d.id, error, e.attempt, 0);
  }

  /** m is the last of the directives that moves the node. */
  predicate LastMove(execs: seq<Execution>, m: nat) {
    m < |execs| && Moves(execs[m]) && forall i :: m < i < |execs| ==> !Moves(execs[i])
  }

  predicate NoMove(execs: seq<Execution>) {
    forall i :: 0 <= i < |execs| ==> !Moves(execs[i])
  }

  /** The last FENCE, PROMOTE or DEMOTE of a tick decides the state; without one it is unchanged. */
  lemma {:induction false} ProcessLands(cfg: ManagerConfig, w: World, execs: seq<Execution>)
    ensures var w' := Process(cfg, w, execs);
            && w'.ctrl == w.ctrl && SameRole(w'.node, w.node.(state := w'.node.state))
            && (NoMove(execs) ==> w'.node.state == w.node.state)
            && forall m: nat :: LastMove(execs, m) ==> w'.node.state == Landing(execs[m])
  {
    if execs != [] {
      var n := |execs| - 1;
      ProcessLands(cfg, w, execs[..n]);
      ProcessOneLands(cfg, Process(cfg, w, execs[..n]), execs[n]);
      forall m: nat | LastMove(execs, m) ensures Process(cfg, w, execs).node.state == Landing(execs[m]) {
        if m < n {
          assert LastMove(execs[..n], m);
        }
      }
    }
  }

  lemma OpeningLands(cfg: ManagerConfig, w: World, x: TickIn)
    ensures var w' := Opening(cfg, w, x);
            && SameRole(w'.node, w.node.(state := w'.node.state))
            && (NoMove(x.execs) ==> w'.node.state == w.node.state)
            && (w'.ctrl == w.ctrl || w'.ctrl == CLEARED)
            && forall m: nat :: LastMove(x.execs, m) ==> w'.node.state == Landing(x.execs[m])
  {
    ProcessLands(cfg, w, x.execs);
  }

  /** Commands that leave the name of the primary alone. */
  predicate KeepsPrimary(c: Command) {
    !c.SetPrimary? && !c.RemoveNode?
  }

  lemma {:induction false} HearKeepsPrimary(st: Store, others: seq<Fsm.Entry>)
    requires forall i :: 0 <= i < |others| ==> KeepsPrimary(others[i].cmd)
    ensures Hear(st, others).fsm.primaryName == st.fsm.primaryName
  {
    if others != [] {
      HearKeepsPrimary(st, others[..|others| - 1]);
    }
  }

  /** A promotion that succeeds and is reported makes the FSM name this node as primary, before it is completed. */
  lemma PromotionIsRecorded(cfg: ManagerConfig, w: World, e: Execution)
    requires e.d.kind == Promote && e.run1 && e.t2.Commits()
    requires forall i :: 0 <= i < |e.t3.others| ==> KeepsPrimary(e.t3.others[i].cmd)
    ensures var (w', error) := Execute(cfg, w, e); error == "" && w'.store.fsm.primaryName == cfg.name
    ensures var s := Execute(cfg, w, e).0.store.fsm;
            e.t3.others == [] ==> cfg.name in s.nodes && s.nodes[cfg.name].role == Primary
                                  && s.nodes[cfg.name].host == cfg.address && s.nodes[cfg.name].port == cfg.port
  {
    var w1 := SetState(cfg, w, Promoting, e.t1);
    var st := Propose(w1.store, e.t2, NewPrimary(cfg, e.t2.at));
    HearKeepsPrimary(st, e.t3.others);
    assert Hear(st, []) == st;
  }

  // ---------------------------------------------------------------- what a node reports

  /** Its record after a report of its own: state, lag and time are new, all else is as before, as for other nodes. */
  predicate Recorded(before: State, after: State, name: string, state: NodeState, lag: int, at: Time) {
    && after.nodes.Keys == before.nodes.Keys
    && (forall k :: k in before.nodes && k != name ==> after.nodes[k] == before.nodes[k])
    && (name in before.nodes ==>
          after.nodes[name] == before.nodes[name].(state := after.nodes[name].state, lag := lag, lastSeen := at)
          && NamedState(after.nodes[name].state) == Some(state))
  }

  /** A committed health report leaves the node's state, the lag PostgreSQL reports and the time on record. */
  lemma ReportIsRecorded(cfg: ManagerConfig, w: World, x: TickIn)
    requires x.report.Commits()
    ensures Recorded(Hear(w.store, x.report.others).fsm, Report(cfg, w, x).store.fsm, cfg.name, w.node.state,
                     x.status.replicationLag, x.report.at)
  {
    StateNameReadsBack(w.node.state);
  }

  /** So does a committed change of state, with a lag of zero; a repeated state writes nothing. */
  lemma ChangeIsRecorded(cfg: ManagerConfig, w: World, s: NodeState, turn: Turn)
    ensures SetState(cfg, w, s, turn).node == w.node.(state := s)
    ensures w.node.state == s ==> SetState(cfg, w, s, turn).store == w.store
    ensures w.node.state != s && turn.Commits() ==>
              Recorded(Hear(w.store, turn.others).fsm, SetState(cfg, w, s, turn).store.fsm, cfg.name, s, 0, turn.at)
  {
    StateNameReadsBack(s);
  }

  // ---------------------------------------------------------------- stuck states

  /** A step that is not health-driven: a directive that moves the node, or a manual operation that gets to act. */
  predicate Intervenes(w: World, step: Step) {
    match step
    case DoTick(x) => !NoMove(x.execs)
    case DoFailover(_, leader, _, _, _) => leader && GetPrimary(w.store.fsm).Some?
    case DoSwitchover(_, leader, _, _) => leader && GetPrimary(w.store.fsm).Some?
    case _ => false
  }

  lemma OnlyInterventionsLeave(cfg: ManagerConfig, w: World, step: Step)
    requires Stuck(w.node.state) && !Intervenes(w, step)
    ensures Next(cfg, w, step).node.state == w.node.state
  {
    if step.DoTick? {
      OpeningLands(cfg, w, step.x);
    }
  }

  /**
   * FENCED, FAILOVER_IN_PROGRESS, PROMOTING and DEMOTING outlast every run of health reports, pauses and replication:
   * without a FENCE, PROMOTE or DEMOTE for this node and without a manual operation the state never changes.
   */
  lemma {:induction false} StuckUntilIntervention(cfg: ManagerConfig, run: seq<World>, steps: seq<Step>, i: nat, j: nat)
    requires Follows(cfg, run, steps) && i <= j < |run| && Stuck(run[i].node.state)
    requires forall k :: i <= k < j ==> !Intervenes(run[k], steps[k])
    ensures run[j].node.state == run[i].node.state
  {
    if i < j {
      StuckUntilIntervention(cfg, run, steps, i, j - 1);
      OnlyInterventionsLeave(cfg, run[j - 1], steps[j - 1]);
    }
  }

  /** Where a manual failover leaves the node, stuck or not: one that fails lands in RUNNING_REPLICA, even if fenced. */
  lemma ManualFailoverLands(cfg: ManagerConfig, w: World, target: string, enter: Turn, x: FailoverIn, leave: Turn)
    requires GetPrimary(w.store.fsm).Some?
    ensures var ok := Succeeds(cfg.failover, x);
            var w' := ManualFailover(cfg, w, target, true, enter, x, leave);
            && w'.node.state == (if ok then FailoverInProgress else RunningReplica)
            && (w'.ctrl.inFlight <==> ok)
  {
  }

  /** A switchover leaves FAILOVER_IN_PROGRESS, successful or not; on an error nothing in flight could end it. */
  lemma FailedSwitchoverStrands(cfg: ManagerConfig, run: seq<World>, steps: seq<Step>, i: nat, j: nat)
    requires Follows(cfg, run, steps) && i < j < |run|
    requires steps[i].DoSwitchover? && Intervenes(run[i], steps[i])
    requires forall k :: i < k < j ==> !Intervenes(run[k], steps[k])
    ensures run[j].node.state == FailoverInProgress
    ensures !run[i + 1].ctrl.inFlight ==> run[i + 1].ctrl == CLEARED
  {
    var step := steps[i];
    assert run[i + 1] == Next(cfg, run[i], step);
    var w1 := SetState(cfg, run[i], FailoverInProgress, step.enter);
    var _ := SwitchoverCommits(w1.ctrl, w1.store, GetPrimary(run[i].store.fsm).value.name, step.target, step.s);
    StuckUntilIntervention(cfg, run, steps, i + 1, j);
  }

  // ---------------------------------------------------------------- the health-driven moves

  /** Where a health report leads from a state, for a paused node that keeps its quorum: the whole table. */
  ghost predicate LeadsTo(cfg: ManagerConfig, s: NodeState, h: HealthHistory.HealthStatus, t: NodeState) {
    var beyond := cfg.maxLagThreshold != 0 && h.replicationLag > cfg.maxLagThreshold;
    && (Stuck(s) ==> t == s)
    && (s == Initializing && !h.healthy ==> t == Initializing)
    && (s in {RunningPrimary, RunningReplica, ReplicaLagging, Recovering} && !h.healthy ==> t == Recovering)
    && (s in {Initializing, RunningPrimary, Recovering} && h.healthy && h.isInRecovery ==> t == RunningReplica)
    && (s in {Initializing, RunningPrimary, RunningReplica, Recovering} && h.healthy && !h.isInRecovery ==>
          t == RunningPrimary)
    && (s == RunningReplica && h.healthy && h.isInRecovery ==>
          t == if beyond && cfg.maxLagThreshold > 0 then ReplicaLagging else RunningReplica)
    && (s == ReplicaLagging && h.healthy ==> t == if beyond then ReplicaLagging else RunningReplica)
  }

  lemma HealthDrives(cfg: ManagerConfig, w: World, x: TickIn)
    requires NoMove(x.execs) && w.node.paused && (x.hasQuorum || !cfg.splitBrainProtection)
    ensures LeadsTo(cfg, w.node.state, x.status, Tick(cfg, w, x).node.state)
  {
    OpeningLands(cfg, w, x);
    var w1 := Reported(cfg, w, x);
    assert w1.node.paused && w1.node.state == w.node.state;
  }

  /** An unhealthy report takes every node that is not stuck out of service, paused or not, quorum or not. */
  lemma UnhealthyRecovers(cfg: ManagerConfig, w: World, x: TickIn)
    requires NoMove(x.execs) && !x.status.healthy && !Stuck(w.node.state)
    ensures Tick(cfg, w, x).node.state == if w.node.state.Initializing? then Initializing else Recovering
  {
    OpeningLands(cfg, w, x);
  }

  /** A leader's tick past the timeout of its operation clears the controller before anything else is decided. */
  lemma LeaderTickEndsOperation(cfg: ManagerConfig, w: World, x: TickIn)
    requires x.monitorLeader && w.ctrl.inFlight && w.ctrl.ids != [] && TimedOut(w.ctrl, x.monitor.now)
    ensures Opening(cfg, w, x).ctrl == CLEARED
  {
    ProcessLands(cfg, w, x.execs);
    var w1 := Process(cfg, w, x.execs);
    MonitorEndsFailover(w1.ctrl, w1.store, x.monitor);
  }

  // ---------------------------------------------------------------- steady reports

  predicate WithinLag(cfg: ManagerConfig, status: HealthHistory.HealthStatus) {
    cfg.maxLagThreshold == 0 || (cfg.maxLagThreshold > 0 && status.replicationLag <= cfg.maxLagThreshold)
  }

  /** A tick with no directives, quorum held where it is checked, and a healthy report of the given role. */
  predicate Steady(cfg: ManagerConfig, x: TickIn, inRecovery: bool) {
    && x.execs == [] && x.status.healthy && x.status.isInRecovery == inRecovery && WithinLag(cfg, x.status)
    && (x.hasQuorum || !cfg.splitBrainProtection)
  }

  function RunningAs(inRecovery: bool): NodeState {
    if inRecovery then RunningReplica else RunningPrimary
  }

  /** One steady tick: the role PostgreSQL reports, but a lagging node that was promoted first becomes a replica. */
  lemma SteadyTick(cfg: ManagerConfig, w: World, x: TickIn, inRecovery: bool)
    requires Steady(cfg, x, inRecovery) && w.node.paused && !Stuck(w.node.state)
    ensures var w' := Tick(cfg, w, x);
            && w'.node.paused
            && w'.node.state == (if w.node.state.ReplicaLagging? then RunningReplica else RunningAs(inRecovery))
  {
  }

  predicate SteadyStep(cfg: ManagerConfig, step: Step, inRecovery: bool) {
    match step
    case DoTick(x) => Steady(cfg, x, inRecovery)
    case Replicate(_) => true
    case _ => false
  }

  function Ticks(steps: seq<Step>): nat {
    if steps == [] then 0 else Ticks(steps[..|steps| - 1]) + if steps[|steps| - 1].DoTick? then 1 else 0
  }

  lemma {:induction false} SteadyProgress(cfg: ManagerConfig, run: seq<World>, steps: seq<Step>, i: nat, j: nat,
                                          inRecovery: bool)
    requires Follows(cfg, run, steps) && i <= j < |run| && run[i].node.paused && !Stuck(run[i].node.state)
    requires forall k :: i <= k < j ==> SteadyStep(cfg, steps[k], inRecovery)
    ensures run[j].node.paused && !Stuck(run[j].node.state)
    ensures Ticks(steps[i..j]) == 0 ==> run[j].node == run[i].node
    ensures Ticks(steps[i..j]) == 1 ==>
              run[j].node.state == if run[i].node.state.ReplicaLagging? then RunningReplica else RunningAs(inRecovery)
    ensures Ticks(steps[i..j]) >= 2 ==> run[j].node.state == RunningAs(inRecovery)
  {
    if i < j {
      SteadyProgress(cfg, run, steps, i, j - 1, inRecovery);
      assert steps[i..j][..j - i - 1] == steps[i..j - 1];
      if steps[j - 1].DoTick? {
        SteadyTick(cfg, run[j - 1], steps[j - 1].x, inRecovery);
      }
    }
  }

  /**
   * From every state that is not stuck, a paused node with steady healthy reports is in the role PostgreSQL reports
   * after two ticks and at every later point, whatever is replicated meanwhile.
   */
  lemma SteadyReportsSettle(cfg: ManagerConfig, run: seq<World>, steps: seq<Step>, i: nat, j: nat, inRecovery: bool)
    requires Follows(cfg, run, steps) && i <= j < |run| && run[i].node.paused && !Stuck(run[i].node.state)
    requires forall k :: i <= k < j ==> SteadyStep(cfg, steps[k], inRecovery)
    ensures Ticks(steps[i..j]) >= 2 ==> run[j].node.state == RunningAs(inRecovery)
    ensures Ticks(steps[i..j]) == 1 ==>
              (run[j].node.state == RunningAs(inRecovery) <==> !(run[i].node.state.ReplicaLagging? && !inRecovery))
  {
    SteadyProgress(cfg, run, steps, i, j, inRecovery);
  }
}
