/** Runs of one node, and what each step does to the log: it appends, keeps the FSM in step, and rarely publishes. */
module NodeRuns {
  import opened Fsm
  import opened Store
  import opened Failover
  import opened Switchover
  import opened NodeManager

  // ---------------------------------------------------------------- the directives a node published

  function Directives(cmds: seq<Command>): seq<Directive> {
    if cmds == [] then []
    else
      var init, last := Directives(cmds[..|cmds| - 1]), cmds[|cmds| - 1];
      if last.PublishDirective? then init + [last.d] else init
  }

  /** The directives this node got committed, in log order. */
  function Orders(st: Store): seq<Directive> {
    Directives(Own(st.log))
  }

  lemma {:induction false} DirectivesAppend(a: seq<Command>, b: seq<Command>)
    ensures Directives(a + b) == Directives(a) + Directives(b)
  {
    if b == [] {
      assert a + b == a;
    } else {
      var init := b[..|b| - 1];
      assert (a + b)[..|a + b| - 1] == a + init;
      DirectivesAppend(a, init);
    }
  }

  // ---------------------------------------------------------------- steps that publish nothing

  predicate Quiet(s: Store, t: Store) {
    Extends(s, t) && Orders(t) == Orders(s)
  }

  lemma {:induction false} DirectivesOfPublications(ds: seq<Directive>)
    ensures Directives(Publications(ds)) == ds
  {
    if ds != [] {
      DirectivesOfPublications(ds[..|ds| - 1]);
      assert Publications(ds)[..|ds| - 1] == Publications(ds[..|ds| - 1]);
    }
  }

  lemma ProposeQuiet(st: Store, turn: Turn, cmd: Command)
    requires !cmd.PublishDirective?
    ensures Quiet(st, Propose(st, turn, cmd))
  {
    ProposeOwn(st, turn, cmd);
    DirectivesAppend(Own(st.log), if turn.Commits() then [cmd] else []);
  }

  lemma HearQuiet(st: Store, others: seq<Fsm.Entry>)
    ensures Quiet(st, Hear(st, others))
  {
  }

  lemma SetStateQuiet(cfg: ManagerConfig, w: World, s: NodeState, turn: Turn)
    ensures Quiet(w.store, SetState(cfg, w, s, turn).store)
  {
    ProposeQuiet(w.store, turn, StateReport(cfg, s, turn.at));
  }

  lemma ExecuteQuiet(cfg: ManagerConfig, w: World, e: Execution)
    ensures Quiet(w.store, Execute(cfg, w, e).0.store)
  {
    var d := e.d.kind;
    if d == Fence {
      SetStateQuiet(cfg, w, Fenced, e.t1);
    } else if d == Promote {
      var w1 := SetState(cfg, w, Promoting, e.t1);
      var w2 := w1.(store := Propose(w1.store, e.t2, NewPrimary(cfg, e.t2.at)));
      SetStateQuiet(cfg, w, Promoting, e.t1);
      ProposeQuiet(w1.store, e.t2, NewPrimary(cfg, e.t2.at));
      SetStateQuiet(cfg, w2, RunningPrimary, e.t3);
    } else if d == Demote {
      SetStateQuiet(cfg, w, Demoting, e.t1);
      SetStateQuiet(cfg, SetState(cfg, w, Demoting, e.t1), RunningReplica, e.t3);
    }
  }

  lemma {:induction false} CompleteQuiet(w: World, id: string, error: string, attempt: nat -> Attempt, k: nat)
    requires k < MAX_ATTEMPTS
    ensures Quiet(w.store, Complete(w, id, error, attempt, k).store)
    decreases MAX_ATTEMPTS - k
  {
    var a := attempt(k);
    ProposeQuiet(w.store, a.turn, CompleteDirective(id, error));
    if !a.turn.Commits() && k + 1 < MAX_ATTEMPTS {
      CompleteQuiet(Retrying(w, id, error, a), id, error, attempt, k + 1);
    }
  }

  lemma {:induction false} ProcessQuiet(cfg: ManagerConfig, w: World, execs: seq<Execution>)
    ensures Quiet(w.store, Process(cfg, w, execs).store)
  {
    if execs != [] {
      var init, e := execs[..|execs| - 1], execs[|execs| - 1];
      ProcessQuiet(cfg, w, init);
      var w1 := Process(cfg, w, init);
      ExecuteQuiet(cfg, w1, e);
      var (w2, error) := Execute(cfg, w1, e);
      CompleteQuiet(w2, e.d.id, error, e.attempt, 0);
    }
  }

  lemma MonitorOneQuiet(st: Store, id: string, timedOut: bool, others: seq<Fsm.Entry>, write: Turn)
    ensures Quiet(st, MonitorOne(st, id, timedOut, others, write).0)
  {
    HearQuiet(st, others);
    ProposeQuiet(Hear(st, others), write, CompleteDirective(id, TIMEOUT_MESSAGE));
  }

  lemma {:induction false} MonitorAllQuiet(st: Store, ids: seq<string>, timedOut: bool, x: MonitorIn)
    ensures Quiet(st, MonitorAll(st, ids, timedOut, x).0)
  {
    if ids != [] {
      var n := |ids| - 1;
      MonitorAllQuiet(st, ids[..n], timedOut, x);
      MonitorOneQuiet(MonitorAll(st, ids[..n], timedOut, x).0, ids[n], timedOut, x.heard(n), x.write(n));
    }
  }

  lemma OpeningQuiet(cfg: ManagerConfig, w: World, x: TickIn)
    ensures Quiet(w.store, Opening(cfg, w, x).store)
  {
    ProcessQuiet(cfg, w, x.execs);
    var w1 := Process(cfg, w, x.execs);
    MonitorAllQuiet(w1.store, w1.ctrl.ids, TimedOut(w1.ctrl, x.monitor.now), x.monitor);
  }

  /** Where a tick's own switch starts: the directives are done and the health report is sent. */
  function Reported(cfg: ManagerConfig, w: World, x: TickIn): World {
    Report(cfg, Opening(cfg, w, x), x)
  }

  lemma ReportedQuiet(cfg: ManagerConfig, w: World, x: TickIn)
    ensures Quiet(w.store, Reported(cfg, w, x).store)
  {
    var w1 := Opening(cfg, w, x);
    OpeningQuiet(cfg, w, x);
    ProposeQuiet(w1.store, x.report, HealthReport(cfg, w1.node, x.status, x.report.at));
  }

  // ---------------------------------------------------------------- the FSM follows the log

  lemma SetStateValid(cfg: ManagerConfig, w: World, s: NodeState, turn: Turn)
    requires Valid(w.store)
    ensures Valid(SetState(cfg, w, s, turn).store)
  {
    ProposeValid(w.store, turn, StateReport(cfg, s, turn.at));
  }

  lemma ExecuteValid(cfg: ManagerConfig, w: World, e: Execution)
    requires Valid(w.store)
    ensures Valid(Execute(cfg, w, e).0.store)
  {
    var d := e.d.kind;
    if d == Fence {
      SetStateValid(cfg, w, Fenced, e.t1);
    } else if d == Promote {
      var w1 := SetState(cfg, w, Promoting, e.t1);
      SetStateValid(cfg, w, Promoting, e.t1);
      ProposeValid(w1.store, e.t2, NewPrimary(cfg, e.t2.at));
      SetStateValid(cfg, w1.(store := Propose(w1.store, e.t2, NewPrimary(cfg, e.t2.at))), RunningPrimary, e.t3);
    } else if d == Demote {
      SetStateValid(cfg, w, Demoting, e.t1);
      SetStateValid(cfg, SetState(cfg, w, Demoting, e.t1), RunningReplica, e.t3);
    }
  }

  lemma {:induction false} CompleteValid(w: World, id: string, error: string, attempt: nat -> Attempt, k: nat)
    requires k < MAX_ATTEMPTS && Valid(w.store)
    ensures Valid(Complete(w, id, error, attempt, k).store)
    decreases MAX_ATTEMPTS - k
  {
    var a := attempt(k);
    ProposeValid(w.store, a.turn, CompleteDirective(id, error));
    if !a.turn.Commits() && k + 1 < MAX_ATTEMPTS {
      CompleteValid(Retrying(w, id, error, a), id, error, attempt, k + 1);
    }
  }

  lemma {:induction false} ProcessValid(cfg: ManagerConfig, w: World, execs: seq<Execution>)
    requires Valid(w.store)
    ensures Valid(Process(cfg, w, execs).store)
  {
    if execs != [] {
      var init, e := execs[..|execs| - 1], execs[|execs| - 1];
      ProcessValid(cfg, w, init);
      var w1 := Process(cfg, w, init);
      ExecuteValid(cfg, w1, e);
      var (w2, error) := Execute(cfg, w1, e);
      CompleteValid(w2, e.d.id, error, e.attempt, 0);
    }
  }

  lemma MonitorOneValid(st: Store, id: string, timedOut: bool, others: seq<Fsm.Entry>, write: Turn)
    requires Valid(st)
    ensures Valid(MonitorOne(st, id, timedOut, others, write).0)
  {
    HearValid(st, others);
    ProposeValid(Hear(st, others), write, CompleteDirective(id, TIMEOUT_MESSAGE));
  }

  lemma {:induction false} MonitorAllValid(st: Store, ids: seq<string>, timedOut: bool, x: MonitorIn)
    requires Valid(st)
    ensures Valid(MonitorAll(st, ids, timedOut, x).0)
  {
    if ids != [] {
      var n := |ids| - 1;
      MonitorAllValid(st, ids[..n], timedOut, x);
      MonitorOneValid(MonitorAll(st, ids[..n], timedOut, x).0, ids[n], timedOut, x.heard(n), x.write(n));
    }
  }

  lemma ReportedValid(cfg: ManagerConfig, w: World, x: TickIn)
    requires Valid(w.store)
    ensures Valid(Reported(cfg, w, x).store)
  {
    ProcessValid(cfg, w, x.execs);
    var w1 := Process(cfg, w, x.execs);
    MonitorAllValid(w1.store, w1.ctrl.ids, TimedOut(w1.ctrl, x.monitor.now), x.monitor);
    var w2 := Opening(cfg, w, x);
    ProposeValid(w2.store, x.report, HealthReport(cfg, w2.node, x.status, x.report.at));
  }

  lemma FailoverValid(cfg: Config, c: Ctrl, st: Store, failed: string, target: string, x: FailoverIn)
    requires Valid(st)
    ensures Valid(FailoverTo(cfg, c, st, failed, target, x).1)
  {
    var fence, promote := FenceOrder(failed, x), PromoteOrder(target, x);
    ProposeValid(st, x.fence, fence);
    ProposeValid(Propose(st, x.fence, fence), x.promote, promote);
    ProposeValid(st, x.promote, promote);
  }

  lemma StartFailoverValid(cfg: ManagerConfig, w: World, failed: string, x: PrimaryIn)
    requires Valid(w.store)
    ensures Valid(StartFailover(cfg, w, failed, x).store)
  {
    var w1 := SetState(cfg, w, FailoverInProgress, x.enter);
    SetStateValid(cfg, w, FailoverInProgress, x.enter);
    var best := SelectBest(x.list(w1.store.fsm), failed);
    if best.Some? {
      FailoverValid(cfg.failover, w1.ctrl, w1.store, failed, best.value.name, x.failover);
    }
    var (c, st, ok) := ExecuteFailover(cfg.failover, w1.ctrl, w1.store, failed, x.list(w1.store.fsm), x.failover);
    SetStateValid(cfg, w1.(ctrl := c, store := st), RunningReplica, x.leave);
  }

  lemma CheckPrimaryValid(cfg: ManagerConfig, w: World, x: PrimaryIn)
    requires Valid(w.store)
    ensures Valid(CheckPrimary(cfg, w, x).store)
  {
    var p := StalePrimary(cfg, w.store.fsm, x.staleAt);
    if p.Some? {
      var c := ShouldFailover(cfg.failover, w.ctrl, x.confirmAt).0;
      StartFailoverValid(cfg, w.(ctrl := c), p.value.name, x);
    }
  }

  lemma SwitchoverValid(c: Ctrl, st: Store, primary: string, target: string, x: SwitchIn)
    requires Valid(st)
    ensures Valid(RunSwitchover(c, st, primary, target, x).1)
  {
    var o1, o2, o3 := PublishDirective(CheckpointOrder(primary, x)), PublishDirective(DemoteOrder(primary, target, x)),
                      PublishDirective(PromoteTarget(target, x));
    var id := CheckpointOrder(primary, x).id;
    var st1 := Propose(st, x.checkpoint, o1);
    ProposeValid(st, x.checkpoint, o1);
    AwaitDirectiveValid(st1, id, x.polls);
    var st2 := AwaitDirective(st1, id, x.polls).0;
    AwaitSyncValid(st2, target, x.syncPolls);
    var st3 := AwaitSync(st2, target, x.syncPolls).0;
    ProposeValid(st3, x.demote, o2);
    ProposeValid(Propose(st3, x.demote, o2), x.promote, o3);
  }

  lemma SettleReplicaValid(cfg: ManagerConfig, w: World, x: TickIn)
    requires Valid(w.store)
    ensures Valid(SettleReplica(cfg, w, x).store)
  {
    if !x.status.healthy {
      SetStateValid(cfg, w, Recovering, x.move);
    } else if !x.status.isInRecovery {
      SetStateValid(cfg, w, RunningPrimary, x.move);
    } else {
      SetStateValid(cfg, w, ReplicaLagging, x.move);
      CheckPrimaryValid(cfg, Lagged(cfg, w, x), x.primary);
    }
  }

  lemma SettlePrimaryValid(cfg: ManagerConfig, w: World, x: TickIn)
    requires Valid(w.store)
    ensures Valid(SettlePrimary(cfg, w, x).store)
  {
    var lost := LostAt(w.node.quorumLostAt, x.hasQuorum, x.quorumAt);
    SetStateValid(cfg, w, Recovering, x.move);
    SetStateValid(cfg, w, RunningReplica, x.move);
    SetStateValid(cfg, w.(node := w.node.(quorumLostAt := lost)), Fenced, x.fence);
  }

  lemma SettleValid(cfg: ManagerConfig, w: World, x: TickIn)
    requires Valid(w.store)
    ensures Valid(Settle(cfg, w, x).store)
  {
    match w.node.state {
      case RunningReplica => SettleReplicaValid(cfg, w, x);
      case RunningPrimary => SettlePrimaryValid(cfg, w, x);
      case s => SetStateValid(cfg, w, Moved(cfg, s, x.status), x.move);
    }
  }

  lemma ManualFailoverValid(cfg: ManagerConfig, w: World, target: string, leader: bool, enter: Turn, x: FailoverIn,
                            leave: Turn)
    requires Valid(w.store)
    ensures Valid(ManualFailover(cfg, w, target, leader, enter, x, leave).store)
  {
    var p := GetPrimary(w.store.fsm);
    if leader && p.Some? {
      var w1 := SetState(cfg, w, FailoverInProgress, enter);
      SetStateValid(cfg, w, FailoverInProgress, enter);
      FailoverValid(cfg.failover, w1.ctrl, w1.store, p.value.name, target, x);
      var (c, st, ok) := FailoverTo(cfg.failover, w1.ctrl, w1.store, p.value.name, target, x);
      SetStateValid(cfg, w1.(ctrl := c, store := st), RunningReplica, leave);
    }
  }

  lemma NextValid(cfg: ManagerConfig, w: World, step: Step)
    requires Valid(w.store)
    ensures Valid(Next(cfg, w, step).store)
  {
    match step {
      case DoTick(x) =>
        ReportedValid(cfg, w, x);
        SettleValid(cfg, Reported(cfg, w, x), x);
      case SetPaused(_) =>
      case DoFailover(target, leader, enter, f, leave) =>
        ManualFailoverValid(cfg, w, target, leader, enter, f, leave);
      case DoSwitchover(target, leader, enter, s) =>
        var w1 := SetState(cfg, w, FailoverInProgress, enter);
        var p := GetPrimary(w.store.fsm);
        SetStateValid(cfg, w, FailoverInProgress, enter);
        if p.Some? {
          SwitchoverValid(w1.ctrl, w1.store, p.value.name, target, s);
        }
      case Replicate(others) =>
        HearValid(w.store, others);
    }
  }

  // ---------------------------------------------------------------- the log only grows

  lemma StartFailoverExtends(cfg: ManagerConfig, w: World, failed: string, x: PrimaryIn)
    ensures Extends(w.store, StartFailover(cfg, w, failed, x).store)
  {
    var w1 := SetState(cfg, w, FailoverInProgress, x.enter);
    SetStateQuiet(cfg, w, FailoverInProgress, x.enter);
    var best := SelectBest(x.list(w1.store.fsm), failed);
    if best.Some? {
      FailoverCommits(cfg.failover, w1.ctrl, w1.store, failed, best.value.name, x.failover);
    }
    var (c, st, ok) := ExecuteFailover(cfg.failover, w1.ctrl, w1.store, failed, x.list(w1.store.fsm), x.failover);
    SetStateQuiet(cfg, w1.(ctrl := c, store := st), RunningReplica, x.leave);
  }

  lemma SettleExtends(cfg: ManagerConfig, w: World, x: TickIn)
    ensures Extends(w.store, Settle(cfg, w, x).store)
  {
    forall s: NodeState, turn: Turn ensures Extends(w.store, SetState(cfg, w, s, turn).store) {
      SetStateQuiet(cfg, w, s, turn);
    }
    if w.node.state == RunningReplica {
      var w1 := Lagged(cfg, w, x);
      var p := StalePrimary(cfg, w1.store.fsm, x.primary.staleAt);
      if p.Some? {
        var c := ShouldFailover(cfg.failover, w1.ctrl, x.primary.confirmAt).0;
        StartFailoverExtends(cfg, w1.(ctrl := c), p.value.name, x.primary);
      }
    } else if w.node.state == RunningPrimary {
      var lost := LostAt(w.node.quorumLostAt, x.hasQuorum, x.quorumAt);
      SetStateQuiet(cfg, w.(node := w.node.(quorumLostAt := lost)), Fenced, x.fence);
    }
  }

  lemma ManualFailoverExtends(cfg: ManagerConfig, w: World, target: string, leader: bool, enter: Turn, x: FailoverIn,
                              leave: Turn)
    ensures Extends(w.store, ManualFailover(cfg, w, target, leader, enter, x, leave).store)
  {
    var p := GetPrimary(w.store.fsm);
    if leader && p.Some? {
      var w1 := SetState(cfg, w, FailoverInProgress, enter);
      SetStateQuiet(cfg, w, FailoverInProgress, enter);
      FailoverCommits(cfg.failover, w1.ctrl, w1.store, p.value.name, target, x);
      var (c, st, ok) := FailoverTo(cfg.failover, w1.ctrl, w1.store, p.value.name, target, x);
      SetStateQuiet(cfg, w1.(ctrl := c, store := st), RunningReplica, leave);
    }
  }

  lemma NextExtends(cfg: ManagerConfig, w: World, step: Step)
    ensures Extends(w.store, Next(cfg, w, step).store)
  {
    match step {
      case DoTick(x) =>
        ReportedQuiet(cfg, w, x);
        SettleExtends(cfg, Reported(cfg, w, x), x);
      case SetPaused(_) =>
      case DoFailover(target, leader, enter, f, leave) =>
        ManualFailoverExtends(cfg, w, target, leader, enter, f, leave);
      case DoSwitchover(target, leader, enter, s) =>
        var w1 := SetState(cfg, w, FailoverInProgress, enter);
        var p := GetPrimary(w.store.fsm);
        SetStateQuiet(cfg, w, FailoverInProgress, enter);
        if p.Some? {
          var _ := SwitchoverCommits(w1.ctrl, w1.store, p.value.name, target, s);
        }
      case Replicate(others) =>
        HearOwn(w.store, others);
    }
  }

  // ---------------------------------------------------------------- runs

  /** A run of one node from anywhere. */
  predicate Follows(cfg: ManagerConfig, run: seq<World>, steps: seq<Step>) {
    && |run| == |steps| + 1
    && forall i :: 0 <= i < |steps| ==> run[i + 1] == Next(cfg, run[i], steps[i])
  }

  /** A run of one node from its start: its store may already hold a log, its controller is clear. */
  ghost predicate IsRun(cfg: ManagerConfig, run: seq<World>, steps: seq<Step>) {
    && Follows(cfg, run, steps)
    && run[0].node == NEW_NODE && run[0].ctrl == CLEARED && Valid(run[0].store)
  }

  /** At every point of every run the FSM is what the log says, whatever the other nodes commit in between. */
  lemma {:induction false} RunValid(cfg: ManagerConfig, run: seq<World>, steps: seq<Step>, i: nat)
    requires IsRun(cfg, run, steps) && i < |run|
    ensures Valid(run[i].store)
  {
    if i > 0 {
      RunValid(cfg, run, steps, i - 1);
      NextValid(cfg, run[i - 1], steps[i - 1]);
    }
  }

  lemma {:induction false} RunExtends(cfg: ManagerConfig, run: seq<World>, steps: seq<Step>, i: nat, j: nat)
    requires Follows(cfg, run, steps) && i <= j < |run|
    ensures Extends(run[i].store, run[j].store)
  {
    if i < j {
      RunExtends(cfg, run, steps, i, j - 1);
      NextExtends(cfg, run[j - 1], steps[j - 1]);
    }
  }
}
