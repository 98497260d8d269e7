/** The manager object: the fields that evaluate updates step by step, proved against the functions of NodeManager. */
module ClusterManager {
  import opened Base
  import opened Fsm
  import opened Store
  import opened Failover
  import opened Switchover
  import opened NodeManager
  import opened FailoverController

  class Manager {
    const cfg: ManagerConfig
    var state: NodeState
    var paused: bool
    var raftErrorCount: nat
    var raftErrorBackoff: Time
    var lastRaftError: Time
    var quorumLostAt: Time
    /** The failover controller; manager and controller share its store. */
    const failover: FailoverController

    function Self(): Node
      reads this
    {
      Node(state, paused, raftErrorCount, raftErrorBackoff, lastRaftError, quorumLostAt)
    }

    function View(): World
      reads this, failover
    {
      World(Self(), failover.View(), failover.store)
    }

    /** The controller runs with the failover part of this manager's configuration. */
    predicate Valid()
    {
      failover.cfg == cfg.failover
    }

    constructor (cfg: ManagerConfig, failover: FailoverController)
      requires failover.cfg == cfg.failover
      ensures Valid() && this.cfg == cfg && this.failover == failover
      ensures View() == World(NEW_NODE, failover.View(), failover.store)
    {
      this.cfg, this.failover := cfg, failover;
      state, paused := Initializing, false;
      raftErrorCount, raftErrorBackoff, lastRaftError, quorumLostAt := 0, 0, ZERO_TIME, ZERO_TIME;
    }

    method Pause()
      modifies this`paused
      ensures Self() == old(Self()).(paused := true)
    {
      paused := true;
    }

    method Resume()
      modifies this`paused
      ensures Self() == old(Self()).(paused := false)
    {
      paused := false;
    }

    method RecordRaftError(now: Time)
      modifies this
      ensures Self() == NodeManager.RecordRaftError(old(Self()), now)
    {
      raftErrorCount := raftErrorCount + 1;
      lastRaftError := now;
      if raftErrorBackoff == 0 {
        raftErrorBackoff := SECOND;
      } else if raftErrorBackoff < 30 * SECOND {
        raftErrorBackoff := raftErrorBackoff * 2;
      }
    }

    method ClearRaftError()
      modifies this
      ensures Self() == NodeManager.ClearRaftError(old(Self()))
    {
      raftErrorCount, raftErrorBackoff := 0, 0;
    }

    method SetState(newState: NodeState, turn: Turn)
      modifies this`state, failover`store
      ensures View() == NodeManager.SetState(cfg, old(View()), newState, turn)
    {
      var oldState := state;
      state := newState;
      if oldState != newState {
        failover.store := Propose(failover.store, turn, StateReport(cfg, newState, turn.at));
      }
    }

    method ExecuteDirective(e: Execution) returns (error: string)
      modifies this`state, failover`store
      ensures (View(), error) == Execute(cfg, old(View()), e)
    {
      error := "";
      match e.d.kind {
        case Fence =>
          SetState(Fenced, e.t1);
          if !e.run1 {
            error := EXEC_ERROR;
          }
        case Promote =>
          SetState(Promoting, e.t1);
          if !e.run1 {
            error := EXEC_ERROR;
          } else {
            failover.store := Propose(failover.store, e.t2, NewPrimary(cfg, e.t2.at));
            SetState(RunningPrimary, e.t3);
          }
        case Demote =>
          SetState(Demoting, e.t1);
          if !e.run1 || !e.run2 || !e.run3 {
            error := EXEC_ERROR;
          } else {
            SetState(RunningReplica, e.t3);
          }
        case Checkpoint =>
          if !e.run1 {
            error := EXEC_ERROR;
          }
        case Rewind =>
          if !HasParam(e.d, "target_primary") || !e.run1 {
            error := EXEC_ERROR;
          }
        case Basebackup =>
          if !HasParam(e.d, "primary_host") || !e.run1 {
            error := EXEC_ERROR;
          }
        case OtherKind(_) =>
          error := EXEC_ERROR;
      }
    }

    method CompleteDirectiveWithRetry(id: string, error: string, attempt: nat -> Attempt)
      modifies this, failover`store
      ensures View() == Complete(old(View()), id, error, attempt, 0)
    {
      for k := 0 to MAX_ATTEMPTS
        invariant k < MAX_ATTEMPTS ==>
                    Complete(View(), id, error, attempt, k) == Complete(old(View()), id, error, attempt, 0)
        invariant k == MAX_ATTEMPTS ==> View() == Complete(old(View()), id, error, attempt, 0)
      {
        var a := attempt(k);
        failover.store := Propose(failover.store, a.turn, CompleteDirective(id, error));
        if a.turn.Commits() {
          ClearRaftError();
          return;
        }
        if !a.turn.leads {
          RecordRaftError(a.turn.at);
        }
        if k + 1 == MAX_ATTEMPTS || a.cancelled {
          return;
        }
      }
    }

    method ProcessDirectives(execs: seq<Execution>)
      modifies this, failover`store
      ensures View() == Process(cfg, old(View()), execs)
    {
      for i := 0 to |execs|
        invariant View() == Process(cfg, old(View()), execs[..i])
      {
        assert execs[..i + 1][..i] == execs[..i];
        var error := ExecuteDirective(execs[i]);
        CompleteDirectiveWithRetry(execs[i].d.id, error, execs[i].attempt);
      }
      assert execs[..|execs|] == execs;
    }

    method CheckPrimaryHealth(x: PrimaryIn)
      requires Valid()
      modifies this, failover
      ensures View() == CheckPrimary(cfg, old(View()), x)
    {
      var primary := GetPrimary(failover.store.fsm);
      if primary.None? || primary.value.name == cfg.name || primary.value.name !in failover.store.fsm.nodes {
        return;
      }
      var node := failover.store.fsm.nodes[primary.value.name];
      var staleness := x.staleAt - node.lastSeen;
      if staleness > cfg.confirmationPeriod {
        var yes := failover.ShouldFailover(x.confirmAt);
        if yes {
          SetState(FailoverInProgress, x.enter);
          var ok := failover.ExecuteFailover(node.name, x.list(failover.store.fsm), x.failover);
          if !ok {
            SetState(RunningReplica, x.leave);
          }
        }
      }
    }

    method CheckQuorumAndSelfFence(hasQuorum: bool, now: Time, turn: Turn)
      modifies this, failover`store
      ensures View() == CheckQuorum(cfg, old(View()), hasQuorum, now, turn)
    {
      if !cfg.splitBrainProtection {
        return;
      }
      if hasQuorum {
        quorumLostAt := ZERO_TIME;
        return;
      }
      if quorumLostAt == ZERO_TIME {
        quorumLostAt := now;
        return;
      }
      var lostDuration := now - quorumLostAt;
      if lostDuration >= QuorumTimeout(cfg) {
        SetState(Fenced, turn);
      }
    }

    method Evaluate(x: TickIn)
      requires Valid()
      modifies this, failover
      ensures View() == Tick(cfg, old(View()), x)
    {
      ProcessDirectives(x.execs);
      if x.monitorLeader {
        var _ := failover.MonitorDirectives(x.monitor);
      }
      failover.store := Propose(failover.store, x.report, HealthReport(cfg, Self(), x.status, x.report.at));
      EvaluateState(x);
    }

    /** The switch over the node's state. */
    method EvaluateState(x: TickIn)
      requires Valid()
      modifies this, failover
      ensures View() == Settle(cfg, old(View()), x)
    {
      var status := x.status;
      match state {
        case Initializing =>
          if !status.healthy {
            return;
          }
          SetState(RoleOf(status), x.move);
        case RunningPrimary =>
          if !status.healthy {
            SetState(Recovering, x.move);
            return;
          }
          if status.isInRecovery {
            SetState(RunningReplica, x.move);
            return;
          }
          CheckQuorumAndSelfFence(x.hasQuorum, x.quorumAt, x.fence);
        case RunningReplica =>
          EvaluateReplica(x);
        case ReplicaLagging =>
          if !status.healthy {
            SetState(Recovering, x.move);
            return;
          }
          if cfg.maxLagThreshold == 0 || status.replicationLag <= cfg.maxLagThreshold {
            SetState(RunningReplica, x.move);
          }
        case Recovering =>
          if status.healthy {
            SetState(RoleOf(status), x.move);
          }
        case _ =>
      }
    }

    method EvaluateReplica(x: TickIn)
      requires Valid()
      modifies this, failover
      ensures View() == SettleReplica(cfg, old(View()), x)
    {
      if !x.status.healthy {
        SetState(Recovering, x.move);
        return;
      }
      if !x.status.isInRecovery {
        SetState(RunningPrimary, x.move);
        return;
      }
      if cfg.maxLagThreshold > 0 && x.status.replicationLag > cfg.maxLagThreshold {
        SetState(ReplicaLagging, x.move);
      }
      if x.primary.leader && !paused && !InBackoff(Self(), x.primary.backoffAt) {
        CheckPrimaryHealth(x.primary);
      }
    }

    method ManualFailover(target: string, leader: bool, enter: Turn, x: FailoverIn, leave: Turn) returns (ok: bool)
      requires Valid()
      modifies this, failover
      ensures View() == NodeManager.ManualFailover(cfg, old(View()), target, leader, enter, x, leave)
      ensures ok <==> leader && GetPrimary(old(View()).store.fsm).Some?
                      && Succeeds(cfg.failover, x)
    {
      var primary := GetPrimary(failover.store.fsm);
      if !leader || primary.None? {
        return false;
      }
      SetState(FailoverInProgress, enter);
      ok := failover.ExecuteFailoverTo(primary.value.name, target, x);
      if !ok {
        SetState(RunningReplica, leave);
      }
    }

    method ManualSwitchover(target: string, leader: bool, enter: Turn, x: SwitchIn) returns (ok: bool)
      requires Valid()
      modifies this, failover
      ensures View() == NodeManager.ManualSwitchover(cfg, old(View()), target, leader, enter, x)
      ensures ok <==> leader && GetPrimary(old(View()).store.fsm).Some? && View().ctrl.inFlight
    {
      var primary := GetPrimary(failover.store.fsm);
      if !leader || primary.None? {
        return false;
      }
      SetState(FailoverInProgress, enter);
      ok := failover.ExecuteSwitchover(primary.value.name, target, x);
    }
  }
}
