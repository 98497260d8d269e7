/** A node that does not lead Raft (internal/consensus/store.go refuses its writes), over whole runs. */
module Followers {
  import opened Base
  import opened Fsm
  import opened Store
  import opened NodeManager
  import opened NodeRuns
  import opened DirectiveRuns
  import opened FailoverGuard
  import ReplicatedLog
  import opened Failover
  import opened Timeouts
  import opened NodeStates

  /** The node is not the leader at any write of an execution. */
  ghost predicate Powerless(e: Execution) {
    !e.t1.leads && !e.t2.leads && !e.t3.leads && forall k :: !e.attempt(k).turn.leads
  }

  /** The node is not the leader whenever the step asks or writes. */
  ghost predicate NeverLeads(step: NodeManager.Step) {
    match step
    case DoTick(x) =>
      && !x.monitorLeader && !x.primary.leader && !x.report.leads && !x.move.leads && !x.fence.leads
      && forall i :: 0 <= i < |x.execs| ==> Powerless(x.execs[i])
    case SetPaused(_) => true
    case DoFailover(_, leader, _, _, _) => !leader
    case DoSwitchover(_, leader, _, _) => !leader
    case Replicate(_) => true
  }

  predicate Silent(s: Store, t: Store) {
    Own(t.log) == Own(s.log)
  }

  lemma RefusedIsSilent(st: Store, turn: Turn, cmd: Command)
    requires !turn.leads
    ensures Silent(st, Propose(st, turn, cmd))
  {
    ProposeOwn(st, turn, cmd);
  }

  lemma SetStateSilent(cfg: ManagerConfig, w: World, s: NodeState, turn: Turn)
    requires !turn.leads
    ensures Silent(w.store, SetState(cfg, w, s, turn).store)
  {
    RefusedIsSilent(w.store, turn, StateReport(cfg, s, turn.at));
  }

  lemma ExecuteSilent(cfg: ManagerConfig, w: World, e: Execution)
    requires Powerless(e)
    ensures Silent(w.store, Execute(cfg, w, e).0.store)
  {
    var d := e.d.kind;
    if d == Fence {
      SetStateSilent(cfg, w, Fenced, e.t1);
    } else if d == Promote {
      var w1 := SetState(cfg, w, Promoting, e.t1);
      SetStateSilent(cfg, w, Promoting, e.t1);
      RefusedIsSilent(w1.store, e.t2, NewPrimary(cfg, e.t2.at));
      SetStateSilent(cfg, w1.(store := Propose(w1.store, e.t2, NewPrimary(cfg, e.t2.at))), RunningPrimary, e.t3);
    } else if d == Demote {
      SetStateSilent(cfg, w, Demoting, e.t1);
      SetStateSilent(cfg, SetState(cfg, w, Demoting, e.t1), RunningReplica, e.t3);
    }
  }

  lemma ProcessOneSilent(cfg: ManagerConfig, w: World, e: Execution)
    requires Powerless(e)
    ensures Silent(w.store, ProcessOne(cfg, w, e).store)
  {
    ExecuteSilent(cfg, w, e);
    var (w1, error) := Execute(cfg, w, e);
    CompletionCommits(w1, e.d.id, error, e.attempt, 0);
    assert !DirectiveRuns.Commits(e.attempt, 0);
  }

  lemma {:induction false} ProcessSilent(cfg: ManagerConfig, w: World, execs: seq<Execution>)
    requires forall i :: 0 <= i < |execs| ==> Powerless(execs[i])
    ensures Silent(w.store, Process(cfg, w, execs).store)
  {
    if execs != [] {
      var n := |execs| - 1;
      ProcessSilent(cfg, w, execs[..n]);
      ProcessOneSilent(cfg, Process(cfg, w, execs[..n]), execs[n]);
    }
  }

  lemma SettleSilent(cfg: ManagerConfig, w: World, x: TickIn)
    requires !x.move.leads && !x.fence.leads && !x.primary.leader
    ensures Silent(w.store, Settle(cfg, w, x).store)
  {
    forall s ensures Silent(w.store, SetState(cfg, w, s, x.move).store) {
      SetStateSilent(cfg, w, s, x.move);
    }
    var lost := LostAt(w.node.quorumLostAt, x.hasQuorum, x.quorumAt);
    SetStateSilent(cfg, w.(node := w.node.(quorumLostAt := lost)), Fenced, x.fence);
  }

  lemma NextSilent(cfg: ManagerConfig, w: World, step: NodeManager.Step)
    requires NeverLeads(step)
    ensures Silent(w.store, Next(cfg, w, step).store)
  {
    match step {
      case DoTick(x) =>
        ProcessSilent(cfg, w, x.execs);
        var w1 := Opening(cfg, w, x);
        RefusedIsSilent(w1.store, x.report, HealthReport(cfg, w1.node, x.status, x.report.at));
        SettleSilent(cfg, Reported(cfg, w, x), x);
      case Replicate(others) => HearOwn(w.store, others);
      case _ =>
    }
  }

  /** A node that does not lead commits nothing of its own, however long it runs. */
  lemma {:induction false} FollowersCommitNothing(cfg: ManagerConfig, run: seq<World>, steps: seq<NodeManager.Step>,
                                                  i: nat, j: nat)
    requires Follows(cfg, run, steps) && i <= j < |run| && forall k :: i <= k < j ==> NeverLeads(steps[k])
    ensures Silent(run[i].store, run[j].store)
  {
    if i < j {
      FollowersCommitNothing(cfg, run, steps, i, j - 1);
      NextSilent(cfg, run[j - 1], steps[j - 1]);
    }
  }

  lemma {:induction false} OwnGrows(log: seq<Logged>, n: nat)
    requires n <= |log|
    ensures Own(log[..n]) <= Own(log)
  {
    if n == |log| {
      assert log[..n] == log;
    } else {
      var init := log[..|log| - 1];
      OwnGrows(init, n);
      assert init[..n] == log[..n];
    }
  }

  /** Entry p is not this node's own. */
  lemma {:induction false} OthersOnly(log: seq<Logged>, n: nat, p: nat)
    requires n <= p < |log| && Own(log) == Own(log[..n])
    ensures !log[p].own
  {
    var init := log[..|log| - 1];
    assert init[..n] == log[..n];
    OwnGrows(init, n);
    if p < |log| - 1 {
      OthersOnly(init, n, p);
    }
  }

  /** What the node's log gained in the meantime is the work of others. */
  lemma GainsAreForeign(cfg: ManagerConfig, run: seq<World>, steps: seq<NodeManager.Step>, i: nat, j: nat)
    requires Follows(cfg, run, steps) && i <= j < |run| && forall k :: i <= k < j ==> NeverLeads(steps[k])
    ensures run[i].store.log <= run[j].store.log
    ensures forall p :: |run[i].store.log| <= p < |run[j].store.log| ==> !run[j].store.log[p].own
  {
    RunExtends(cfg, run, steps, i, j);
    FollowersCommitNothing(cfg, run, steps, i, j);
    var n, log := |run[i].store.log|, run[j].store.log;
    assert log[..n] == run[i].store.log;
    forall p | n <= p < |log| ensures !log[p].own {
      OthersOnly(log, n, p);
    }
  }

  // ---------------------------------------------------------------- what follows from it

  /** No other node writes the record of this one. */
  predicate OthersSpare(log: seq<Logged>, from: nat, node: string) {
    forall p :: from <= p < |log| && !log[p].own ==> !Names(log[p].cmd, node)
  }

  /**
   * A primary that does not lead turns stale on every replica that keeps up with it, exactly when the confirmation
   * period has passed since the record it had when it last led, however healthy it reports itself to be.
   */
  lemma FollowingPrimaryGoesStale(cfg: ManagerConfig, run: seq<World>, steps: seq<NodeManager.Step>, i: nat, j: nat,
                                  other: ManagerConfig, s: State, now: Time)
    requires IsRun(cfg, run, steps) && i <= j < |run| && forall k :: i <= k < j ==> NeverLeads(steps[k])
    requires OthersSpare(run[j].store.log, |run[i].store.log|, cfg.name)
    requires ReplicatedLog.Conforms(s, Cmds(run[j].store.log)) && s.primaryName == cfg.name
    requires cfg.name != "" && cfg.name != other.name
    ensures var was := run[i].store.fsm.nodes;
            PrimaryStale(other, s, now) <==>
              cfg.name in was && now - was[cfg.name].lastSeen > other.confirmationPeriod
  {
    GainsAreForeign(cfg, run, steps, i, j);
    RunValid(cfg, run, steps, i);
    RunValid(cfg, run, steps, j);
    SameNodes(s, run[j].store.fsm, Cmds(run[j].store.log));
    RecordIsKept(run[i].store, run[j].store, cfg.name);
  }

  lemma RecordIsKept(st: Store, st': Store, node: string)
    requires ReplicatedLog.Core(Cmds(st.log)).nodes == st.fsm.nodes && Extends(st, st')
    requires ReplicatedLog.Core(Cmds(st'.log)).nodes == st'.fsm.nodes
    requires forall p :: |st.log| <= p < |st'.log| ==> !Names(st'.log[p].cmd, node)
    ensures node in st'.fsm.nodes <==> node in st.fsm.nodes
    ensures node in st.fsm.nodes ==> st'.fsm.nodes[node] == st.fsm.nodes[node]
  {
    CmdsGrow(st.log, st'.log);
    PrefixOf(Cmds(st.log), Cmds(st'.log));
    RecordOnlyByName(Cmds(st'.log), |st.log|, node);
  }

  /** A directive for a node that does not lead is executed again by every tick, until another node touches its ID. */
  lemma FollowersRepeatDirectives(cfg: ManagerConfig, run: seq<World>, steps: seq<NodeManager.Step>, i: nat, j: nat,
                                  d: Directive, k: nat)
    requires Faithful(cfg, run, steps) && i <= j < |steps| && forall t :: i <= t < j ==> NeverLeads(steps[t])
    requires k < |run[i].store.log| && ReplicatedLog.OpenedAt(Cmds(run[i].store.log), k, d) && d.target == cfg.name
    requires forall p :: |run[i].store.log| <= p < |run[j].store.log| && !run[j].store.log[p].own
                         ==> !ReplicatedLog.Touches(run[j].store.log[p].cmd, d.id)
    ensures forall t :: i <= t <= j && steps[t].DoTick? ==> Executes(steps[t].x, d)
  {
    GainsAreForeign(cfg, run, steps, i, j);
    ExecutedUntilTouched(cfg, run, steps, i, j, d, k);
  }

  // ---------------------------------------------------------------- a failover to a follower

  lemma {:induction false} PrimaryOnlyByName(log: seq<Command>, k: nat, node: string)
    requires k <= |log| && node != "" && ReplicatedLog.Core(log[..k]).primaryName != node
    requires forall i :: k <= i < |log| ==> !Names(log[i], node)
    ensures ReplicatedLog.Core(log).primaryName != node
  {
    if k == |log| {
      assert log[..k] == log;
    } else {
      var init := log[..|log| - 1];
      assert init[..k] == log[..k];
      PrimaryOnlyByName(init, k, node);
    }
  }

  /** No other node writes the record of this one, or publishes or completes the directive. */
  ghost predicate OthersStayOut(log: seq<Logged>, from: nat, node: string, id: string) {
    forall p :: from <= p < |log| && !log[p].own ==> !Names(log[p].cmd, node) && !ReplicatedLog.Touches(log[p].cmd, id)
  }

  /** Wherever the log of the target has been applied, the target is not the primary and its directive is pending. */
  lemma PromotionGoesUnrecorded(cfg: ManagerConfig, run: seq<World>, steps: seq<NodeManager.Step>, i: nat, j: nat,
                                d: Directive, k: nat, s: State)
    requires IsRun(cfg, run, steps) && i <= j < |run| && forall t :: i <= t < j ==> NeverLeads(steps[t])
    requires k < |run[i].store.log| && ReplicatedLog.OpenedAt(Cmds(run[i].store.log), k, d)
    requires cfg.name != "" && run[i].store.fsm.primaryName != cfg.name
    requires OthersStayOut(run[j].store.log, |run[i].store.log|, cfg.name, d.id)
    requires ReplicatedLog.Conforms(s, Cmds(run[j].store.log))
    ensures s.primaryName != cfg.name && IsPending(s, d.id)
  {
    GainsAreForeign(cfg, run, steps, i, j);
    RunValid(cfg, run, steps, i);
    var early, late := run[i].store.log, run[j].store.log;
    CmdsGrow(early, late);
    StillPending(Cmds(early), Cmds(late), d, k, s);
    OtherPrimaryStays(Cmds(early), Cmds(late), cfg.name);
  }

  lemma StillPending(early: seq<Command>, late: seq<Command>, d: Directive, k: nat, s: State)
    requires early <= late && k < |early| && ReplicatedLog.OpenedAt(early, k, d)
    requires (forall p :: |early| <= p < |late| ==> !ReplicatedLog.Touches(late[p], d.id))
    requires ReplicatedLog.Conforms(s, late)
    ensures IsPending(s, d.id)
  {
    StillOpen(early, late, d, k);
    ReplicatedLog.IsPendingIffOpen(s, late, d.id);
  }

  lemma OtherPrimaryStays(early: seq<Command>, late: seq<Command>, node: string)
    requires early <= late && node != "" && ReplicatedLog.Core(early).primaryName != node
    requires forall p :: |early| <= p < |late| ==> !Names(late[p], node)
    ensures ReplicatedLog.Core(late).primaryName != node
  {
    PrefixOf(early, late);
    PrimaryOnlyByName(late, |early|, node);
  }

  lemma PrefixOf(early: seq<Command>, late: seq<Command>)
    requires early <= late
    ensures late[..|early|] == early
  {
  }

  /**
   * A failover to a target that does not lead cannot succeed. The target executes PROMOTE on every tick, and runs as
   * primary once PostgreSQL is promoted; but no replica records it as primary, and at the leader, once it has applied
   * what the target has, every pass finds PROMOTE pending: the operation ends exactly by its timeout, as failed.
   */
  lemma FailoverToFollowerTimesOut(cfg: ManagerConfig, run: seq<World>, steps: seq<NodeManager.Step>, i: nat, j: nat,
                                   d: Directive, k: nat, c: Ctrl, st: Store, x: MonitorIn, m: nat)
    requires Faithful(cfg, run, steps) && i <= j < |steps| && forall t :: i <= t < j ==> NeverLeads(steps[t])
    requires k < |run[i].store.log| && ReplicatedLog.OpenedAt(Cmds(run[i].store.log), k, d)
    requires d.kind == Promote && d.target == cfg.name != "" && run[i].store.fsm.primaryName != cfg.name
    requires OthersStayOut(run[j].store.log, |run[i].store.log|, cfg.name, d.id)
    requires Valid(st) && Cmds(st.log) == Cmds(run[j].store.log)
    requires c.inFlight && m < |c.ids| && c.ids[m] == d.id && Timeouts.NoRepeats(c.ids)
    requires LeftAlone(x, 0, |c.ids|, d.id)
    ensures forall t :: i <= t <= j && steps[t].DoTick? ==> Executes(steps[t].x, d)
    ensures forall t, n: nat :: i <= t <= j && steps[t].DoTick? && LastMove(steps[t].x.execs, n)
                                && steps[t].x.execs[n].d == d && steps[t].x.execs[n].run1
                                ==> Opening(cfg, run[t], steps[t].x).node.state == RunningPrimary
    ensures st.fsm.primaryName != cfg.name
    ensures Monitor(c, st, x).2 <==> TimedOut(c, x.now)
    ensures ShowsAs(Monitor(c, st, x).1.fsm, d.id, Failed) <==> TimedOut(c, x.now) && x.write(m).Commits()
  {
    FollowersRepeatDirectives(cfg, run, steps, i, j, d, k);
    forall t | i <= t <= j && steps[t].DoTick?
      ensures forall n: nat :: LastMove(steps[t].x.execs, n) ==>
                Opening(cfg, run[t], steps[t].x).node.state == Landing(steps[t].x.execs[n])
    {
      OpeningLands(cfg, run[t], steps[t].x);
    }
    PromotionGoesUnrecorded(cfg, run, steps, i, j, d, k, st.fsm);
    PendingEndsByTimeout(c, st, x, m);
  }
}
