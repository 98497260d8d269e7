/** The cluster manager of one node (internal/cluster/manager.go): its state machine, as functions of each tick. */
module NodeManager {
  import opened Base
  import opened Fsm
  import opened Store
  import opened Failover
  import opened Switchover
  import HealthHistory

  datatype NodeState =
    | Initializing | RunningPrimary | RunningReplica | FailoverInProgress | Demoting | Promoting
    | ReplicaLagging | Recovering | Fenced

  function StateName(s: NodeState): string {
    match s
    case Initializing => "INITIALIZING"
    case RunningPrimary => "RUNNING_PRIMARY"
    case RunningReplica => "RUNNING_REPLICA"
    case FailoverInProgress => "FAILOVER_IN_PROGRESS"
    case Demoting => "DEMOTING"
    case Promoting => "PROMOTING"
    case ReplicaLagging => "REPLICA_LAGGING"
    case Recovering => "RECOVERING"
    case Fenced => "FENCED"
  }

  /** The manager keeps its own configuration; the controller's can be reloaded separately. */
  datatype ManagerConfig = ManagerConfig(name: string, address: string, port: int, confirmationPeriod: Time,
                                         maxLagThreshold: int, splitBrainProtection: bool, quorumLossTimeout: Time,
                                         failover: Config)

  datatype Node = Node(state: NodeState, paused: bool, raftErrors: nat, backoff: Time, lastRaftError: Time,
                       quorumLostAt: Time)

  const NEW_NODE := Node(Initializing, false, 0, 0, ZERO_TIME, ZERO_TIME)

  /** A node with its failover controller and its view of the consensus store. */
  datatype World = World(node: Node, ctrl: Ctrl, store: Store)

  /** The state a published name stands for. */
  function NamedState(name: string): Option<NodeState> {
    if name == "INITIALIZING" then Some(Initializing)
    else if name == "RUNNING_PRIMARY" then Some(RunningPrimary)
    else if name == "RUNNING_REPLICA" then Some(RunningReplica)
    else if name == "FAILOVER_IN_PROGRESS" then Some(FailoverInProgress)
    else if name == "DEMOTING" then Some(Demoting)
    else if name == "PROMOTING" then Some(Promoting)
    else if name == "REPLICA_LAGGING" then Some(ReplicaLagging)
    else if name == "RECOVERING" then Some(Recovering)
    else if name == "FENCED" then Some(Fenced)
    else None
  }

  lemma StateNameReadsBack(s: NodeState)
    ensures NamedState(StateName(s)) == Some(s)
  {
  }

  // ---------------------------------------------------------------- Raft back-off

  function RecordRaftError(n: Node, now: Time): Node {
    n.(raftErrors := n.raftErrors + 1, lastRaftError := now,
       backoff := if n.backoff == 0 then SECOND else if n.backoff < 30 * SECOND then 2 * n.backoff else n.backoff)
  }

  function ClearRaftError(n: Node): Node {
    n.(raftErrors := 0, backoff := 0)
  }

  predicate InBackoff(n: Node, now: Time) {
    n.raftErrors != 0 && now - n.lastRaftError < n.backoff
  }

  function AfterErrors(n: Node, times: seq<Time>): Node {
    if times == [] then n else RecordRaftError(AfterErrors(n, times[..|times| - 1]), times[|times| - 1])
  }

  function Doubled(k: nat): nat {
    if k == 0 then 1 else 2 * Doubled(k - 1)
  }

  /** Consecutive errors back off for 1, 2, 4, 8, 16 and then 32 seconds: the last doubling passes 30 seconds. */
  lemma {:induction false} BackoffSchedule(n: Node, times: seq<Time>)
    requires n.raftErrors == 0 && n.backoff == 0 && times != []
    ensures var n' := AfterErrors(n, times);
            && n'.raftErrors == |times| && n'.lastRaftError == times[|times| - 1]
            && n'.backoff == Doubled(Min(|times| - 1, 5)) * SECOND <= 32 * SECOND
            && forall now :: InBackoff(n', now) <==> now < times[|times| - 1] + Doubled(Min(|times| - 1, 5)) * SECOND
  {
    assert Doubled(1) == 2 && Doubled(2) == 4 && Doubled(3) == 8 && Doubled(4) == 16 && Doubled(5) == 32;
    if |times| > 1 {
      BackoffSchedule(n, times[..|times| - 1]);
    }
  }

  // ---------------------------------------------------------------- state changes

  /** What setState reports: a health record whose lag is zero. */
  function StateReport(cfg: ManagerConfig, s: NodeState, now: Time): Command {
    UpdateNodeHealth(NodeInfo(cfg.name, "", 0, OtherRole(""), StateName(s), 0, 0, now))
  }

  function SetState(cfg: ManagerConfig, w: World, s: NodeState, turn: Turn): World {
    var node := w.node.(state := s);
    if w.node.state == s then w.(node := node)
    else w.(node := node, store := Propose(w.store, turn, StateReport(cfg, s, turn.at)))
  }

  function HealthReport(cfg: ManagerConfig, n: Node, status: HealthHistory.HealthStatus, now: Time): Command {
    var role := if status.isInRecovery then Replica else if status.healthy then Primary else OtherRole("unknown");
    UpdateNodeHealth(NodeInfo(cfg.name, cfg.address, cfg.port, role, StateName(n.state), status.replicationLag, 0, now))
  }

  // ---------------------------------------------------------------- directives

  /** One attempt to report a completion: what happens around the write, and whether the context ends after it. */
  datatype Attempt = Attempt(turn: Turn, cancelled: bool)

  /** A directive with the results of the (up to three) programs it runs, of its writes, and of its completion. */
  datatype Execution = Execution(d: Directive, run1: bool, run2: bool, run3: bool, t1: Turn, t2: Turn, t3: Turn,
                                 attempt: nat -> Attempt)

  const MAX_ATTEMPTS := 5
  const EXEC_ERROR := "execution failed"

  function NewPrimary(cfg: ManagerConfig, now: Time): Command {
    SetPrimary(NodeInfo(cfg.name, cfg.address, cfg.port, OtherRole(""), "running", 0, 0, now))
  }

  predicate HasParam(d: Directive, name: string) {
    name in d.params && d.params[name] != ""
  }

  /** executeDirective: the world after it, and the error text ("" for success). */
  function Execute(cfg: ManagerConfig, w: World, e: Execution): (World, string) {
    match e.d.kind
    case Fence =>
      (SetState(cfg, w, Fenced, e.t1), if e.run1 then "" else EXEC_ERROR)
    case Promote =>
      var w1 := SetState(cfg, w, Promoting, e.t1);
      if !e.run1 then (w1, EXEC_ERROR)
      else (SetState(cfg, w1.(store := Propose(w1.store, e.t2, NewPrimary(cfg, e.t2.at))), RunningPrimary, e.t3), "")
    case Demote =>
      var w1 := SetState(cfg, w, Demoting, e.t1);
      if !e.run1 || !e.run2 || !e.run3 then (w1, EXEC_ERROR) else (SetState(cfg, w1, RunningReplica, e.t3), "")
    case Checkpoint => (w, if e.run1 then "" else EXEC_ERROR)
    case Rewind => (w, if HasParam(e.d, "target_primary") && e.run1 then "" else EXEC_ERROR)
    case Basebackup => (w, if HasParam(e.d, "primary_host") && e.run1 then "" else EXEC_ERROR)
    case OtherKind(_) => (w, EXEC_ERROR)
  }

  /** After one failed attempt: what others committed has arrived, and a lost leadership is counted. */
  function Retrying(w: World, id: string, error: string, a: Attempt): World {
    w.(store := Propose(w.store, a.turn, CompleteDirective(id, error)),
       node := if !a.turn.leads then RecordRaftError(w.node, a.turn.at) else w.node)
  }

  /** completeDirectiveWithRetry from its k-th attempt on. */
  function Complete(w: World, id: string, error: string, attempt: nat -> Attempt, k: nat): World
    requires k < MAX_ATTEMPTS
    decreases MAX_ATTEMPTS - k
  {
    var a := attempt(k);
    if a.turn.Commits() then
      w.(store := Propose(w.store, a.turn, CompleteDirective(id, error)), node := ClearRaftError(w.node))
    else if k + 1 == MAX_ATTEMPTS || a.cancelled then Retrying(w, id, error, a)
    else Complete(Retrying(w, id, error, a), id, error, attempt, k + 1)
  }

  function ProcessOne(cfg: ManagerConfig, w: World, e: Execution): World {
    var (w1, error) := Execute(cfg, w, e);
    Complete(w1, e.d.id, error, e.attempt, 0)
  }

  /** processDirectives, for the pending directives in the order the FSM returned them. */
  function Process(cfg: ManagerConfig, w: World, execs: seq<Execution>): World {
    if execs == [] then w else ProcessOne(cfg, Process(cfg, w, execs[..|execs| - 1]), execs[|execs| - 1])
  }

  // ---------------------------------------------------------------- watching the primary

  /** list is the (arbitrary) order in which GetReplicas returns the replicas of a state. */
  datatype PrimaryIn = PrimaryIn(leader: bool, backoffAt: Time, staleAt: Time, confirmAt: Time, enter: Turn,
                                 list: State -> seq<NodeInfo>, failover: FailoverIn, leave: Turn)

  /** The node the FSM knows as primary, if it is another node and its health data is stale. */
  function StalePrimary(cfg: ManagerConfig, s: State, now: Time): Option<NodeInfo> {
    var p := GetPrimary(s);
    if p.None? || p.value.name == cfg.name || p.value.name !in s.nodes then None
    else
      var node := s.nodes[p.value.name];
      if now - node.lastSeen > cfg.confirmationPeriod then Some(node) else None
  }

  function CheckPrimary(cfg: ManagerConfig, w: World, x: PrimaryIn): World {
    match StalePrimary(cfg, w.store.fsm, x.staleAt)
    case None => w
    case Some(p) =>
      var (c, yes) := ShouldFailover(cfg.failover, w.ctrl, x.confirmAt);
      if !yes then w.(ctrl := c) else StartFailover(cfg, w.(ctrl := c), p.name, x)
  }

  function StartFailover(cfg: ManagerConfig, w: World, failed: string, x: PrimaryIn): World {
    var w1 := SetState(cfg, w, FailoverInProgress, x.enter);
    var (c, st, ok) := ExecuteFailover(cfg.failover, w1.ctrl, w1.store, failed, x.list(w1.store.fsm), x.failover);
    var w2 := w1.(ctrl := c, store := st);
    if ok then w2 else SetState(cfg, w2, RunningReplica, x.leave)
  }

  // ---------------------------------------------------------------- quorum and self-fencing

  const DEFAULT_QUORUM_TIMEOUT := 30 * SECOND

  function QuorumTimeout(cfg: ManagerConfig): Time {
    if cfg.quorumLossTimeout == 0 then DEFAULT_QUORUM_TIMEOUT else cfg.quorumLossTimeout
  }

  /** What a quorum check makes of the recorded loss time. */
  function LostAt(lostAt: Time, hasQuorum: bool, now: Time): Time {
    if hasQuorum then ZERO_TIME else if lostAt == ZERO_TIME then now else lostAt
  }

  predicate SelfFences(lostAt: Time, hasQuorum: bool, now: Time, timeout: Time) {
    !hasQuorum && lostAt != ZERO_TIME && now - lostAt >= timeout
  }

  function CheckQuorum(cfg: ManagerConfig, w: World, hasQuorum: bool, now: Time, turn: Turn): World {
    if !cfg.splitBrainProtection then w
    else
      var w1 := w.(node := w.node.(quorumLostAt := LostAt(w.node.quorumLostAt, hasQuorum, now)));
      if SelfFences(w.node.quorumLostAt, hasQuorum, now, QuorumTimeout(cfg)) then SetState(cfg, w1, Fenced, turn)
      else w1
  }

  // ---------------------------------------------------------------- one evaluation

  datatype TickIn = TickIn(execs: seq<Execution>, monitorLeader: bool, monitor: MonitorIn,
                           status: HealthHistory.HealthStatus,
                           report: Turn, move: Turn, primary: PrimaryIn, hasQuorum: bool, quorumAt: Time, fence: Turn)

  predicate Lagging(cfg: ManagerConfig, status: HealthHistory.HealthStatus) {
    cfg.maxLagThreshold > 0 && status.replicationLag > cfg.maxLagThreshold
  }

  /** The directives and the monitoring pass that precede the health-driven part of a tick. */
  function Opening(cfg: ManagerConfig, w: World, x: TickIn): World {
    var w1 := Process(cfg, w, x.execs);
    if x.monitorLeader then
      var (c, st, _) := Monitor(w1.ctrl, w1.store, x.monitor);
      w1.(ctrl := c, store := st)
    else w1
  }

  function Report(cfg: ManagerConfig, w: World, x: TickIn): World {
    w.(store := Propose(w.store, x.report, HealthReport(cfg, w.node, x.status, x.report.at)))
  }

  /** A replica beyond the lag threshold is marked, and goes on watching the primary. */
  function Lagged(cfg: ManagerConfig, w: World, x: TickIn): World {
    if Lagging(cfg, x.status) then SetState(cfg, w, ReplicaLagging, x.move) else w
  }

  function SettleReplica(cfg: ManagerConfig, w: World, x: TickIn): World {
    if !x.status.healthy then SetState(cfg, w, Recovering, x.move)
    else if !x.status.isInRecovery then SetState(cfg, w, RunningPrimary, x.move)
    else
      var w1 := Lagged(cfg, w, x);
      if x.primary.leader && !w1.node.paused && !InBackoff(w1.node, x.primary.backoffAt)
      then CheckPrimary(cfg, w1, x.primary)
      else w1
  }

  function SettlePrimary(cfg: ManagerConfig, w: World, x: TickIn): World {
    if !x.status.healthy then SetState(cfg, w, Recovering, x.move)
    else if x.status.isInRecovery then SetState(cfg, w, RunningReplica, x.move)
    else CheckQuorum(cfg, w, x.hasQuorum, x.quorumAt, x.fence)
  }

  /** Where the health status alone takes a node that does not run in a role. */
  function Moved(cfg: ManagerConfig, s: NodeState, status: HealthHistory.HealthStatus): NodeState {
    match s
    case Initializing => if status.healthy then RoleOf(status) else Initializing
    case Recovering => if status.healthy then RoleOf(status) else Recovering
    case ReplicaLagging =>
      if !status.healthy then Recovering
      else if cfg.maxLagThreshold == 0 || status.replicationLag <= cfg.maxLagThreshold then RunningReplica
      else ReplicaLagging
    case _ => s
  }

  function RoleOf(status: HealthHistory.HealthStatus): NodeState {
    if status.isInRecovery then RunningReplica else RunningPrimary
  }

  /** The switch of evaluate, on the state read before the health report. */
  function Settle(cfg: ManagerConfig, w: World, x: TickIn): World {
    match w.node.state
    case RunningPrimary => SettlePrimary(cfg, w, x)
    case RunningReplica => SettleReplica(cfg, w, x)
    case s => SetState(cfg, w, Moved(cfg, s, x.status), x.move)
  }

  function Tick(cfg: ManagerConfig, w: World, x: TickIn): World {
    Settle(cfg, Report(cfg, Opening(cfg, w, x), x), x)
  }

  // ---------------------------------------------------------------- manual operations

  function ManualFailover(cfg: ManagerConfig, w: World, target: string, leader: bool, enter: Turn, x: FailoverIn,
                          leave: Turn): World {
    var p := GetPrimary(w.store.fsm);
    if !leader || p.None? then w
    else
      var w1 := SetState(cfg, w, FailoverInProgress, enter);
      var (c, st, ok) := FailoverTo(cfg.failover, w1.ctrl, w1.store, p.value.name, target, x);
      var w2 := w1.(ctrl := c, store := st);
      if ok then w2 else SetState(cfg, w2, RunningReplica, leave)
  }

  /** Unlike ManualFailover, an error leaves the node in FAILOVER_IN_PROGRESS. */
  function ManualSwitchover(cfg: ManagerConfig, w: World, target: string, leader: bool, enter: Turn,
                            x: SwitchIn): World {
    var p := GetPrimary(w.store.fsm);
    if !leader || p.None? then w
    else
      var w1 := SetState(cfg, w, FailoverInProgress, enter);
      var (c, st, _) := RunSwitchover(w1.ctrl, w1.store, p.value.name, target, x);
      w1.(ctrl := c, store := st)
  }

  datatype Step =
    | DoTick(x: TickIn)
    | SetPaused(paused: bool)
    | DoFailover(target: string, leader: bool, enter: Turn, f: FailoverIn, leave: Turn)
    | DoSwitchover(target: string, leader: bool, enter: Turn, s: SwitchIn)
    | Replicate(others: seq<Entry>)

  function Next(cfg: ManagerConfig, w: World, step: Step): World {
    match step
    case DoTick(x) => Tick(cfg, w, x)
    case SetPaused(p) => w.(node := w.node.(paused := p))
    case DoFailover(target, leader, enter, f, leave) => ManualFailover(cfg, w, target, leader, enter, f, leave)
    case DoSwitchover(target, leader, enter, s) => ManualSwitchover(cfg, w, target, leader, enter, s)
    case Replicate(others) => w.(store := Hear(w.store, others))
  }
}
