/** When a node starts an automatic failover, and what it then publishes: over one tick and over whole runs. */
module FailoverGuard {
  import opened Base
  import opened Fsm
  import opened Store
  import ReplicatedLog
  import opened Failover
  import opened Switchover
  import opened ReplicaChoice
  import opened NodeManager
  import opened NodeRuns
  import opened NodeStates
  import ClusterFsm

  /** GetReplicas lists the replicas of the state it reads, in whatever order. */
  ghost predicate ReadsReplicas(x: PrimaryIn) {
    forall s: State :: WellKeyed(s) ==> ClusterFsm.ListsNodes(x.list(s), Replicas(s))
  }

  // ---------------------------------------------------------------- the guard

  /** The world in which a tick looks at the primary. */
  function Looking(cfg: ManagerConfig, w: World, x: TickIn): World {
    Lagged(cfg, Reported(cfg, w, x), x)
  }

  /** The FSM names another node as primary, and that node was not seen for longer than the confirmation period. */
  predicate PrimaryStale(cfg: ManagerConfig, s: State, now: Time) {
    && s.primaryName != "" && s.primaryName in s.nodes && s.primaryName != cfg.name
    && now - s.nodes[s.primaryName].lastSeen > cfg.confirmationPeriod
  }

  /** The tick looks at the primary: an unpaused leader that is a healthy replica outside Raft back-off. */
  predicate Looks(cfg: ManagerConfig, w: World, x: TickIn) {
    var node := Opening(cfg, w, x).node;
    && node.state == RunningReplica && x.status.healthy && x.status.isInRecovery
    && x.primary.leader && !w.node.paused && !InBackoff(node, x.primary.backoffAt)
  }

  predicate SeesStale(cfg: ManagerConfig, w: World, x: TickIn) {
    Looks(cfg, w, x) && PrimaryStale(cfg, Looking(cfg, w, x).store.fsm, x.primary.staleAt)
  }

  /** The first detection: nothing is in flight and no confirmation is running yet. */
  predicate Detects(cfg: ManagerConfig, w: World, x: TickIn) {
    var c := Opening(cfg, w, x).ctrl;
    SeesStale(cfg, w, x) && !c.inFlight && c.confirmationStart == ZERO_TIME
  }

  /** A failover starts: the first detection was recorded at least the controller's confirmation period before. */
  predicate Starts(cfg: ManagerConfig, w: World, x: TickIn) {
    var c := Opening(cfg, w, x).ctrl;
    && SeesStale(cfg, w, x) && !c.inFlight && c.confirmationStart != ZERO_TIME
    && x.primary.confirmAt - c.confirmationStart >= cfg.failover.confirmationPeriod
  }

  // ---------------------------------------------------------------- the choice

  /** The state the target is chosen from: after FAILOVER_IN_PROGRESS was reported. */
  function ChosenFrom(cfg: ManagerConfig, w: World, x: TickIn): State {
    SetState(cfg, Looking(cfg, w, x), FailoverInProgress, x.primary.enter).store.fsm
  }

  lemma FailoverPublishes(cfg: Config, c: Ctrl, st: Store, failed: string, target: string, x: FailoverIn)
    ensures Orders(FailoverTo(cfg, c, st, failed, target, x).1) == Orders(st) + Published(cfg, failed, target, x)
  {
    var ds := Published(cfg, failed, target, x);
    FailoverCommits(cfg, c, st, failed, target, x);
    DirectivesAppend(Own(st.log), Publications(ds));
    DirectivesOfPublications(ds);
  }

  /** What starting a failover publishes, and for whom; None if there is no replica to promote. */
  lemma StartPublishes(cfg: ManagerConfig, w: World, failed: string, x: PrimaryIn) returns (target: Option<string>)
    requires ReadsReplicas(x) && Valid(w.store)
    ensures var s := SetState(cfg, w, FailoverInProgress, x.enter).store.fsm;
            var w' := StartFailover(cfg, w, failed, x);
            && (target.None? ==>
                  (forall k :: k in Replicas(s) ==> k == failed) && Orders(w'.store) == Orders(w.store)
                  && w'.node.state == RunningReplica && w'.ctrl == CLEARED)
            && (target.Some? ==>
                  LeastLag(s, failed, target.value)
                  && Orders(w'.store) == Orders(w.store) + Published(cfg.failover, failed, target.value, x.failover)
                  && w'.node.state
                     == (if Succeeds(cfg.failover, x.failover) then FailoverInProgress else RunningReplica)
                  && w'.ctrl.inFlight == Succeeds(cfg.failover, x.failover)
                  && (w'.ctrl.inFlight ==> w'.ctrl.startTime == x.failover.startAt))
  {
    var w1 := SetState(cfg, w, FailoverInProgress, x.enter);
    SetStateQuiet(cfg, w, FailoverInProgress, x.enter);
    ChosenIsKeyed(cfg, w, x);
    var list := x.list(w1.store.fsm);
    SelectsLeastLag(w1.store.fsm, list, failed);
    var best := SelectBest(list, failed);
    var (c, st, ok) := ExecuteFailover(cfg.failover, w1.ctrl, w1.store, failed, list, x.failover);
    SetStateQuiet(cfg, w1.(ctrl := c, store := st), RunningReplica, x.leave);
    if best.None? {
      target := None;
    } else {
      target := Some(best.value.name);
      FailoverPublishes(cfg.failover, w1.ctrl, w1.store, failed, best.value.name, x.failover);
    }
  }

  lemma ChosenIsKeyed(cfg: ManagerConfig, w: World, x: PrimaryIn)
    requires Valid(w.store)
    ensures WellKeyed(SetState(cfg, w, FailoverInProgress, x.enter).store.fsm)
  {
    SetStateValid(cfg, w, FailoverInProgress, x.enter);
  }

  // ---------------------------------------------------------------- one tick

  /** Only a replica's look at the primary can publish. */
  lemma SettleQuiet(cfg: ManagerConfig, w: World, x: TickIn)
    requires w.node.state == RunningReplica ==> !x.status.healthy || !x.status.isInRecovery
    ensures Orders(Settle(cfg, w, x).store) == Orders(w.store)
  {
    match w.node.state {
      case RunningReplica =>
        SetStateQuiet(cfg, w, Recovering, x.move);
        SetStateQuiet(cfg, w, RunningPrimary, x.move);
      case RunningPrimary =>
        var lost := LostAt(w.node.quorumLostAt, x.hasQuorum, x.quorumAt);
        SetStateQuiet(cfg, w, Recovering, x.move);
        SetStateQuiet(cfg, w, RunningReplica, x.move);
        SetStateQuiet(cfg, w.(node := w.node.(quorumLostAt := lost)), Fenced, x.fence);
      case s => SetStateQuiet(cfg, w, Moved(cfg, s, x.status), x.move);
    }
  }

  lemma StaleIsNamed(cfg: ManagerConfig, s: State, now: Time)
    requires WellKeyed(s)
    ensures var p := StalePrimary(cfg, s, now);
            (p.Some? <==> PrimaryStale(cfg, s, now)) && (p.Some? ==> p.value.name == s.primaryName)
  {
  }

  /** Up to the look at the primary a tick publishes nothing, and its FSM stays in step with the log. */
  lemma LookingIsQuiet(cfg: ManagerConfig, w: World, x: TickIn)
    requires Valid(w.store)
    ensures Orders(Looking(cfg, w, x).store) == Orders(w.store) && Valid(Looking(cfg, w, x).store)
    ensures WellKeyed(Looking(cfg, w, x).store.fsm)
  {
    ReportedQuiet(cfg, w, x);
    ReportedValid(cfg, w, x);
    SetStateQuiet(cfg, Reported(cfg, w, x), ReplicaLagging, x.move);
    SetStateValid(cfg, Reported(cfg, w, x), ReplicaLagging, x.move);
  }

  lemma TickLooks(cfg: ManagerConfig, w: World, x: TickIn)
    ensures var o := Opening(cfg, w, x);
            var replica := o.node.state == RunningReplica && x.status.healthy && x.status.isInRecovery;
            && (Looks(cfg, w, x) ==> Tick(cfg, w, x) == CheckPrimary(cfg, Looking(cfg, w, x), x.primary))
            && (replica && !Looks(cfg, w, x) ==> Tick(cfg, w, x) == Looking(cfg, w, x))
            && Looking(cfg, w, x).ctrl == o.ctrl
  {
    OpeningLands(cfg, w, x);
    var w1 := Lagged(cfg, Reported(cfg, w, x), x);
    assert w1.node == Opening(cfg, w, x).node.(state := w1.node.state);
  }

  lemma SilentTick(cfg: ManagerConfig, w: World, x: TickIn)
    requires Valid(w.store) && !Starts(cfg, w, x)
    ensures Orders(Tick(cfg, w, x).store) == Orders(w.store)
  {
    TickLooks(cfg, w, x);
    LookingIsQuiet(cfg, w, x);
    if Looks(cfg, w, x) {
      StaleIsNamed(cfg, Looking(cfg, w, x).store.fsm, x.primary.staleAt);
    } else if Opening(cfg, w, x).node.state != RunningReplica || !x.status.healthy || !x.status.isInRecovery {
      ReportedQuiet(cfg, w, x);
      SettleQuiet(cfg, Reported(cfg, w, x), x);
    }
  }

  /** The outcome of a failover a tick started. */
  ghost predicate FailsOver(cfg: ManagerConfig, w: World, x: TickIn, target: string) {
    var failed := Looking(cfg, w, x).store.fsm.primaryName;
    var w' := Tick(cfg, w, x);
    && LeastLag(ChosenFrom(cfg, w, x), failed, target)
    && Orders(w'.store) == Orders(w.store) + Published(cfg.failover, failed, target, x.primary.failover)
    && w'.node.state == (if Succeeds(cfg.failover, x.primary.failover) then FailoverInProgress else RunningReplica)
    && w'.ctrl.inFlight == Succeeds(cfg.failover, x.primary.failover)
    && (w'.ctrl.inFlight ==> w'.ctrl.startTime == x.primary.failover.startAt)
  }

  ghost predicate NoTarget(cfg: ManagerConfig, w: World, x: TickIn) {
    forall k :: k in Replicas(ChosenFrom(cfg, w, x)) ==> k == Looking(cfg, w, x).store.fsm.primaryName
  }

  /**
   * A tick publishes a directive only if it starts a failover; then it promotes a replica of least recorded lag other
   * than the failed primary, after a FENCE of that primary if fencing is on, or finds no such replica.
   */
  lemma StartedTick(cfg: ManagerConfig, w: World, x: TickIn) returns (target: Option<string>)
    requires Valid(w.store) && ReadsReplicas(x.primary) && Starts(cfg, w, x)
    ensures target.Some? ==> FailsOver(cfg, w, x, target.value)
    ensures target.None? ==>
              NoTarget(cfg, w, x) && Orders(Tick(cfg, w, x).store) == Orders(w.store)
              && Tick(cfg, w, x).node.state == RunningReplica && Tick(cfg, w, x).ctrl == CLEARED
  {
    TickLooks(cfg, w, x);
    LookingIsQuiet(cfg, w, x);
    var w1 := Looking(cfg, w, x);
    StaleIsNamed(cfg, w1.store.fsm, x.primary.staleAt);
    assert ShouldFailover(cfg.failover, w1.ctrl, x.primary.confirmAt) == (w1.ctrl, true);
    assert w1.(ctrl := w1.ctrl) == w1;
    assert Tick(cfg, w, x) == StartFailover(cfg, w1, w1.store.fsm.primaryName, x.primary);
    target := StartPublishes(cfg, w1, w1.store.fsm.primaryName, x.primary);
  }

  /** Exactly when an evaluation publishes directives, and which. */
  lemma TickPublishesIff(cfg: ManagerConfig, w: World, x: TickIn)
    requires Valid(w.store) && ReadsReplicas(x.primary)
    ensures var f := x.primary.failover;
            Orders(Tick(cfg, w, x).store) != Orders(w.store)
            <==> Starts(cfg, w, x) && !NoTarget(cfg, w, x)
                 && if cfg.failover.fencing then f.fence.Commits() else f.promote.Commits()
    ensures Orders(Tick(cfg, w, x).store) != Orders(w.store) ==> exists target :: FailsOver(cfg, w, x, target)
  {
    if !Starts(cfg, w, x) {
      SilentTick(cfg, w, x);
    } else {
      var target := StartedTick(cfg, w, x);
      if target.Some? {
        assert FailsOver(cfg, w, x, target.value);
        assert !NoTarget(cfg, w, x);
        assert |Orders(Tick(cfg, w, x).store)| == |Orders(w.store)|
               + |Published(cfg.failover, Looking(cfg, w, x).store.fsm.primaryName, target.value, x.primary.failover)|;
      }
    }
  }

  // ---------------------------------------------------------------- manual operations

  /** A manual failover on the leader fences the primary on record and promotes the given node; elsewhere nothing. */
  lemma ManualFailoverPublishes(cfg: ManagerConfig, w: World, target: string, leader: bool, enter: Turn, x: FailoverIn,
                                leave: Turn)
    ensures var p := GetPrimary(w.store.fsm);
            var w' := ManualFailover(cfg, w, target, leader, enter, x, leave);
            if !leader || p.None? then w' == w
            else Orders(w'.store) == Orders(w.store) + Published(cfg.failover, p.value.name, target, x)
  {
    var p := GetPrimary(w.store.fsm);
    if leader && p.Some? {
      var w1 := SetState(cfg, w, FailoverInProgress, enter);
      SetStateQuiet(cfg, w, FailoverInProgress, enter);
      FailoverPublishes(cfg.failover, w1.ctrl, w1.store, p.value.name, target, x);
      var (c, st, _) := FailoverTo(cfg.failover, w1.ctrl, w1.store, p.value.name, target, x);
      SetStateQuiet(cfg, w1.(ctrl := c, store := st), RunningReplica, leave);
    }
  }

  /** A manual switchover on the leader swaps the primary on record with the given node, as far as its writes commit. */
  lemma ManualSwitchoverPublishes(cfg: ManagerConfig, w: World, target: string, leader: bool, enter: Turn, x: SwitchIn)
    returns (n: nat)
    ensures var p := GetPrimary(w.store.fsm);
            var w' := ManualSwitchover(cfg, w, target, leader, enter, x);
            if !leader || p.None? then w' == w
            else n <= 3 && (w'.ctrl.inFlight <==> n == 3)
                 && Orders(w'.store) == Orders(w.store) + Directives(SwitchoverOrders(p.value.name, target, x)[..n])
  {
    n := 0;
    var p := GetPrimary(w.store.fsm);
    if leader && p.Some? {
      var w1 := SetState(cfg, w, FailoverInProgress, enter);
      SetStateQuiet(cfg, w, FailoverInProgress, enter);
      n := SwitchoverCommits(w1.ctrl, w1.store, p.value.name, target, x);
      DirectivesAppend(Own(w1.store.log), SwitchoverOrders(p.value.name, target, x)[..n]);
    }
  }

  // ---------------------------------------------------------------- whole runs

  lemma CheckPrimaryConfirms(cfg: ManagerConfig, w: World, x: PrimaryIn)
    ensures var c := CheckPrimary(cfg, w, x).ctrl.confirmationStart;
            || c == ZERO_TIME || c == w.ctrl.confirmationStart
            || (StalePrimary(cfg, w.store.fsm, x.staleAt).Some? && !w.ctrl.inFlight
                && w.ctrl.confirmationStart == ZERO_TIME && c == x.confirmAt)
  {
  }

  lemma UnseenKeepsCtrl(cfg: ManagerConfig, w: World, x: TickIn)
    requires Valid(w.store) && !SeesStale(cfg, w, x)
    ensures Tick(cfg, w, x).ctrl == Opening(cfg, w, x).ctrl
  {
    TickLooks(cfg, w, x);
    LookingIsQuiet(cfg, w, x);
    if Looks(cfg, w, x) {
      StaleIsNamed(cfg, Looking(cfg, w, x).store.fsm, x.primary.staleAt);
    }
  }

  /** A step keeps the recorded first detection, forgets it, or is itself a first detection. */
  lemma TickConfirms(cfg: ManagerConfig, w: World, x: TickIn)
    requires Valid(w.store)
    ensures var c := Tick(cfg, w, x).ctrl.confirmationStart;
            || c == ZERO_TIME || c == w.ctrl.confirmationStart
            || (Detects(cfg, w, x) && c == x.primary.confirmAt)
  {
    OpeningLands(cfg, w, x);
    if SeesStale(cfg, w, x) {
      TickLooks(cfg, w, x);
      CheckPrimaryConfirms(cfg, Looking(cfg, w, x), x.primary);
    } else {
      UnseenKeepsCtrl(cfg, w, x);
    }
  }

  lemma StepConfirms(cfg: ManagerConfig, w: World, step: Step)
    requires Valid(w.store)
    ensures var c := Next(cfg, w, step).ctrl.confirmationStart;
            || c == ZERO_TIME || c == w.ctrl.confirmationStart
            || (step.DoTick? && Detects(cfg, w, step.x) && c == step.x.primary.confirmAt)
  {
    if step.DoTick? {
      TickConfirms(cfg, w, step.x);
    }
  }

  ghost predicate DetectedAt(cfg: ManagerConfig, run: seq<World>, steps: seq<Step>, j: nat, t: Time)
    requires |steps| < |run|
  {
    j < |steps| && steps[j].DoTick? && Detects(cfg, run[j], steps[j].x) && steps[j].x.primary.confirmAt == t
  }

  lemma RunConfirms(cfg: ManagerConfig, run: seq<World>, steps: seq<Step>, i: nat)
    requires IsRun(cfg, run, steps) && i < |steps|
    ensures var c := run[i + 1].ctrl.confirmationStart;
            c == ZERO_TIME || c == run[i].ctrl.confirmationStart || DetectedAt(cfg, run, steps, i, c)
  {
    RunValid(cfg, run, steps, i);
    StepConfirms(cfg, run[i], steps[i]);
  }

  lemma {:induction false} ConfirmationWasDetected(cfg: ManagerConfig, run: seq<World>, steps: seq<Step>, i: nat)
    returns (j: nat)
    requires IsRun(cfg, run, steps) && i < |run| && run[i].ctrl.confirmationStart != ZERO_TIME
    ensures j < i && DetectedAt(cfg, run, steps, j, run[i].ctrl.confirmationStart)
  {
    RunConfirms(cfg, run, steps, i - 1);
    j := i - 1;
    if !DetectedAt(cfg, run, steps, j, run[i].ctrl.confirmationStart) {
      j := ConfirmationWasDetected(cfg, run, steps, i - 1);
    }
  }

  /**
   * In every run, a tick that publishes is guarded: it is a healthy replica, leader, unpaused, outside back-off and
   * with nothing in flight; the primary was last seen longer than the confirmation period ago; and an earlier tick j
   * made the first detection at least the confirmation period before. What it publishes is described by FailsOver.
   */
  lemma AutomaticFailoversAreGuarded(cfg: ManagerConfig, run: seq<World>, steps: seq<Step>, i: nat)
    returns (j: nat, target: string)
    requires IsRun(cfg, run, steps) && i < |steps| && steps[i].DoTick? && ReadsReplicas(steps[i].x.primary)
    requires Orders(run[i + 1].store) != Orders(run[i].store)
    ensures SeesStale(cfg, run[i], steps[i].x) && !run[i].ctrl.inFlight
    ensures j < i && steps[j].DoTick? && Detects(cfg, run[j], steps[j].x)
    ensures steps[i].x.primary.confirmAt - steps[j].x.primary.confirmAt >= cfg.failover.confirmationPeriod
    ensures FailsOver(cfg, run[i], steps[i].x, target)
  {
    var x := steps[i].x;
    RunValid(cfg, run, steps, i);
    TickPublishesIff(cfg, run[i], x);
    OpeningLands(cfg, run[i], x);
    target :| FailsOver(cfg, run[i], x, target);
    j := ConfirmationWasDetected(cfg, run, steps, i);
  }

  /** After a failover the leader stays in FAILOVER_IN_PROGRESS: it starts no other one before an intervention. */
  lemma OneFailoverPerIntervention(cfg: ManagerConfig, run: seq<World>, steps: seq<Step>, i: nat, j: nat)
    requires IsRun(cfg, run, steps) && i < j < |steps| && steps[i].DoTick? && steps[j].DoTick?
    requires ReadsReplicas(steps[i].x.primary) && ReadsReplicas(steps[j].x.primary)
    requires Orders(run[i + 1].store) != Orders(run[i].store) && Succeeds(cfg.failover, steps[i].x.primary.failover)
    requires Orders(run[j + 1].store) != Orders(run[j].store)
    ensures exists k :: i < k <= j && Intervenes(run[k], steps[k])
  {
    if forall k :: i < k <= j ==> !Intervenes(run[k], steps[k]) {
      var _, _ := AutomaticFailoversAreGuarded(cfg, run, steps, i);
      StuckUntilIntervention(cfg, run, steps, i + 1, j);
      OpeningLands(cfg, run[j], steps[j].x);
      var _, _ := AutomaticFailoversAreGuarded(cfg, run, steps, j);
      assert false;
    }
  }

  // ---------------------------------------------------------------- a primary that reports is not failed over

  /**
   * Once the primary's health report at some time commits, no replica that has applied it finds that primary stale
   * before the confirmation period has passed since, whatever the replica's own clock did to its copy.
   */
  lemma ReportingPrimaryIsFresh(cfg: ManagerConfig, w: World, x: TickIn, other: ManagerConfig, s: State, now: Time)
    requires Valid(w.store) && x.report.Commits() && cfg.name in Hear(w.store, x.report.others).fsm.nodes
    requires ReplicatedLog.Conforms(s, Cmds(Report(cfg, w, x).store.log)) && s.primaryName == cfg.name
    ensures PrimaryStale(other, s, now) <==> cfg.name != "" && cfg.name != other.name
                                             && now - x.report.at > other.confirmationPeriod
  {
    var report := HealthReport(cfg, w.node, x.status, x.report.at);
    var st := Report(cfg, w, x).store;
    ProposeValid(w.store, x.report, report);
    SameNodes(s, st.fsm, Cmds(st.log));
  }

  lemma SameNodes(s: State, t: State, log: seq<Command>)
    requires ReplicatedLog.Conforms(s, log) && ReplicatedLog.Conforms(t, log)
    ensures s.nodes == t.nodes
  {
    ReplicatedLog.ConformingStatesAgree(s, t, log);
  }

  /** The command sets or removes the record of a node. */
  predicate Names(c: Command, node: string) {
    match c
    case SetPrimary(n) => n.name == node
    case SetReplica(n) => n.name == node
    case AddNode(n) => n.name == node
    case UpdateNodeHealth(n) => n.name == node
    case RemoveNode(name) => name == node
    case _ => false
  }

  lemma {:induction false} RecordOnlyByName(log: seq<Command>, k: nat, node: string)
    requires k <= |log| && forall i :: k <= i < |log| ==> !Names(log[i], node)
    ensures var before, after := ReplicatedLog.Core(log[..k]).nodes, ReplicatedLog.Core(log).nodes;
            (node in after <==> node in before) && (node in before ==> after[node] == before[node])
  {
    if k == |log| {
      assert log[..k] == log;
    } else {
      var init := log[..|log| - 1];
      RecordOnlyByName(init, k, node);
      assert init[..k] == log[..k];
    }
  }

  /**
   * Staleness depends on reports alone: if nothing after entry k of the log names the primary, it turns stale once
   * the period has passed since its record of then. A primary that does not lead Raft cannot write reports.
   */
  lemma UnreportedPrimaryGoesStale(cfg: ManagerConfig, st: Store, k: nat, now: Time)
    requires Valid(st) && k <= |st.log| && st.fsm.primaryName != "" && st.fsm.primaryName != cfg.name
    requires forall i :: k <= i < |st.log| ==> !Names(Cmds(st.log)[i], st.fsm.primaryName)
    ensures var was := ReplicatedLog.Core(Cmds(st.log)[..k]).nodes;
            PrimaryStale(cfg, st.fsm, now) <==>
              st.fsm.primaryName in was && now - was[st.fsm.primaryName].lastSeen > cfg.confirmationPeriod
  {
    RecordOnlyByName(Cmds(st.log), k, st.fsm.primaryName);
  }

  // ---------------------------------------------------------------- a healthy spell does not reset the confirmation

  /** A step in which this node neither sees a stale primary nor is told to fail over. */
  predicate Calm(cfg: ManagerConfig, w: World, step: Step) {
    match step
    case DoTick(x) => !SeesStale(cfg, w, x)
    case SetPaused(_) => true
    case Replicate(_) => true
    case _ => false
  }

  lemma {:induction false} CalmKeepsController(cfg: ManagerConfig, run: seq<World>, steps: seq<Step>, i: nat, j: nat)
    requires IsRun(cfg, run, steps) && i <= j < |run| && !run[i].ctrl.inFlight
    requires forall k :: i <= k < j ==> Calm(cfg, run[k], steps[k])
    ensures run[j].ctrl == run[i].ctrl
  {
    if i < j {
      CalmKeepsController(cfg, run, steps, i, j - 1);
      RunValid(cfg, run, steps, j - 1);
      CalmStep(cfg, run[j - 1], steps[j - 1]);
    }
  }

  lemma IdleOpening(cfg: ManagerConfig, w: World, x: TickIn)
    requires !w.ctrl.inFlight
    ensures Opening(cfg, w, x).ctrl == w.ctrl
  {
    ProcessLands(cfg, w, x.execs);
  }

  lemma CalmStep(cfg: ManagerConfig, w: World, step: Step)
    requires Valid(w.store) && !w.ctrl.inFlight && Calm(cfg, w, step)
    ensures Next(cfg, w, step).ctrl == w.ctrl
  {
    if step.DoTick? {
      IdleOpening(cfg, w, step.x);
      UnseenKeepsCtrl(cfg, w, step.x);
    }
  }

  /**
   * The confirmation period does not mean that the primary was stale throughout: a detection at tick i still counts
   * after any number of ticks that found the primary fresh, so the next stale sighting j starts a failover at once,
   * exactly if the period has passed since i.
   */
  lemma OldDetectionStillCounts(cfg: ManagerConfig, run: seq<World>, steps: seq<Step>, i: nat, j: nat)
    requires IsRun(cfg, run, steps) && i < j < |steps| && steps[i].DoTick? && steps[j].DoTick?
    requires Detects(cfg, run[i], steps[i].x) && steps[i].x.primary.confirmAt != ZERO_TIME
    requires forall k :: i < k < j ==> Calm(cfg, run[k], steps[k])
    requires SeesStale(cfg, run[j], steps[j].x)
    ensures Starts(cfg, run[j], steps[j].x) <==>
              steps[j].x.primary.confirmAt - steps[i].x.primary.confirmAt >= cfg.failover.confirmationPeriod
  {
    RunValid(cfg, run, steps, i);
    DetectionArms(cfg, run[i], steps[i].x);
    CalmKeepsController(cfg, run, steps, i + 1, j);
    IdleOpening(cfg, run[j], steps[j].x);
  }

  lemma DetectionArms(cfg: ManagerConfig, w: World, x: TickIn)
    requires Valid(w.store) && Detects(cfg, w, x)
    ensures Tick(cfg, w, x).ctrl.confirmationStart == x.primary.confirmAt && !Tick(cfg, w, x).ctrl.inFlight
  {
    TickLooks(cfg, w, x);
    LookingIsQuiet(cfg, w, x);
    StaleIsNamed(cfg, Looking(cfg, w, x).store.fsm, x.primary.staleAt);
  }

  // ---------------------------------------------------------------- positions in the log

  /** Published directives stand in the log in the order of Orders. */
  lemma {:induction false} OrdersInLog(log: seq<Logged>, a: int, b: nat) returns (p: int, q: nat)
    requires -1 <= a < b < |Directives(Own(log))|
    ensures q < |log| && log[q] == Logged(PublishDirective(Directives(Own(log))[b]), true)
    ensures a >= 0 ==> 0 <= p < q && log[p] == Logged(PublishDirective(Directives(Own(log))[a]), true)
  {
    var n := |log| - 1;
    var before := Own(log[..n]);
    assert (before + [log[n].cmd])[..|before|] == before;
    if b < |Directives(before)| {
      p, q := OrdersInLog(log[..n], a, b);
    } else {
      p, q := a, n;
      if a >= 0 {
        var _, k := OrdersInLog(log[..n], -1, a);
        p := k;
      }
    }
  }

  /** With fencing on, the log shows the FENCE of the failed primary before the PROMOTE of the target. */
  lemma FencePrecedesPromote(cfg: ManagerConfig, w: World, x: TickIn, target: string) returns (p: int, q: nat)
    requires FailsOver(cfg, w, x, target) && cfg.failover.fencing && Succeeds(cfg.failover, x.primary.failover)
    ensures var log := Tick(cfg, w, x).store.log;
            var failed, f := Looking(cfg, w, x).store.fsm.primaryName, x.primary.failover;
            && 0 <= p < q < |log|
            && log[p] == Logged(FenceOrder(failed, f), true) && log[q] == Logged(PromoteOrder(target, f), true)
  {
    var n := |Orders(w.store)|;
    p, q := OrdersInLog(Tick(cfg, w, x).store.log, n, n + 1);
  }
}
