/**
 * Whom an automatic failover promotes, measured by the lags on record. A node that reports a change of state
 * (internal/cluster/manager.go) reports a lag of zero with it, and a leader that starts a failover may do so twice in
 * the same tick: on entering REPLICA_LAGGING and on entering FAILOVER_IN_PROGRESS.
 */
module LeaderLag {
  import opened Base
  import opened Fsm
  import opened Store
  import opened Failover
  import opened ReplicaChoice
  import opened NodeManager
  import opened NodeRuns
  import opened FailoverGuard
  import ClusterFsm

  // ---------------------------------------------------------------- the records without the erasure

  /** The report of a state change, had it kept the lag on record. */
  function KeptReport(cfg: ManagerConfig, st: Store, s: NodeState, turn: Turn): Store {
    var heard := Hear(st, turn.others);
    var report := StateReport(cfg, s, turn.at).node.(lag := OwnLag(heard.fsm, cfg.name));
    if turn.Commits() then Append(heard, UpdateNodeHealth(report), true, turn.at) else heard
  }

  /** The FSM the target would be chosen from, had the state reports of the tick kept the leader's lag. */
  function Unerased(cfg: ManagerConfig, w: World, x: TickIn): State {
    var r := Reported(cfg, w, x).store;
    var st := if Lagging(cfg, x.status) then KeptReport(cfg, r, ReplicaLagging, x.move) else r;
    KeptReport(cfg, st, FailoverInProgress, x.primary.enter).fsm
  }

  function OwnLag(s: State, self: string): int {
    if self in s.nodes then s.nodes[self].lag else 0
  }

  /** Equal records, but for the lag of one node. */
  predicate AlmostSame(s: State, t: State, self: string) {
    && s.nodes.Keys == t.nodes.Keys
    && forall k :: k in s.nodes ==> if k == self then s.nodes[k].(lag := 0) == t.nodes[k].(lag := 0)
                                    else s.nodes[k] == t.nodes[k]
  }

  lemma ApplyAlmost(s: State, t: State, c: Command, now: Time, self: string)
    requires AlmostSame(s, t, self)
    ensures AlmostSame(Apply(s, c, now), Apply(t, c, now), self)
  {
    match c {
      case SetPrimary(_) =>
      case SetReplica(_) =>
      case AddNode(_) =>
      case UpdateNodeHealth(node) => HealthAlmost(s, t, node, self);
      case RemoveNode(_) =>
      case _ =>
        assert Apply(s, c, now).nodes == s.nodes && Apply(t, c, now).nodes == t.nodes;
    }
  }

  lemma HealthAlmost(s: State, t: State, report: NodeInfo, self: string)
    requires AlmostSame(s, t, self)
    ensures AlmostSame(Apply(s, UpdateNodeHealth(report), 0), Apply(t, UpdateNodeHealth(report), 0), self)
  {
    if report.name in s.nodes {
      var a, b := s.nodes[report.name], t.nodes[report.name];
      assert UpdateHealth(a, report).(lag := 0) == UpdateHealth(b, report).(lag := 0);
    }
  }

  lemma ApplyOwnLag(s: State, t: State, c: Command, now: Time, self: string)
    requires AlmostSame(s, t, self)
    ensures Names(c, self) ==> OwnLag(Apply(s, c, now), self) == OwnLag(Apply(t, c, now), self)
    ensures !Names(c, self) ==> OwnLag(Apply(s, c, now), self) == OwnLag(s, self)
  {
  }

  predicate NamesAny(others: seq<Fsm.Entry>, self: string) {
    exists i :: 0 <= i < |others| && Names(others[i].cmd, self)
  }

  /** Others' commands keep two such states alike, and alike altogether once one of them writes the node's record. */
  lemma {:induction false} HearAlmost(st: Store, st': Store, others: seq<Fsm.Entry>, self: string)
    requires AlmostSame(st.fsm, st'.fsm, self)
    ensures var s, t := Hear(st, others).fsm, Hear(st', others).fsm;
            && AlmostSame(s, t, self)
            && (NamesAny(others, self) || OwnLag(st.fsm, self) == OwnLag(st'.fsm, self) ==>
                  OwnLag(s, self) == OwnLag(t, self))
            && (!NamesAny(others, self) ==>
                  OwnLag(s, self) == OwnLag(st.fsm, self) && OwnLag(t, self) == OwnLag(st'.fsm, self))
  {
    if others != [] {
      var init, last := others[..|others| - 1], others[|others| - 1];
      HearAlmost(st, st', init, self);
      var s, t := Hear(st, init).fsm, Hear(st', init).fsm;
      ApplyAlmost(s, t, last.cmd, last.now, self);
      ApplyOwnLag(s, t, last.cmd, last.now, self);
      ApplyOwnLag(t, s, last.cmd, last.now, self);
    }
  }

  lemma ReportAlmost(cfg: ManagerConfig, st: Store, kept: Store, s: NodeState, turn: Turn)
    requires AlmostSame(kept.fsm, st.fsm, cfg.name)
    ensures var actual := Propose(st, turn, StateReport(cfg, s, turn.at)).fsm;
            var ideal := KeptReport(cfg, kept, s, turn).fsm;
            && AlmostSame(ideal, actual, cfg.name)
            && OwnLag(ideal, cfg.name) == OwnLag(Hear(kept, turn.others).fsm, cfg.name)
            && OwnLag(actual, cfg.name) == (if turn.Commits() then 0 else OwnLag(Hear(st, turn.others).fsm, cfg.name))
  {
    HearAlmost(kept, st, turn.others, cfg.name);
  }

  /** A state report of this tick overwrites the leader's lag, and nobody writes its record after that. */
  predicate Erases(cfg: ManagerConfig, x: TickIn) {
    || x.primary.enter.Commits()
    || (Lagging(cfg, x.status) && x.move.Commits() && !NamesAny(x.primary.enter.others, cfg.name))
  }

  lemma LookingLags(cfg: ManagerConfig, w: World, x: TickIn)
    requires Starts(cfg, w, x)
    ensures var r := Reported(cfg, w, x).store;
            var actual := Looking(cfg, w, x).store;
            var ideal := if Lagging(cfg, x.status) then KeptReport(cfg, r, ReplicaLagging, x.move) else r;
            && AlmostSame(ideal.fsm, actual.fsm, cfg.name)
            && OwnLag(actual.fsm, cfg.name)
               == (if Lagging(cfg, x.status) && x.move.Commits() then 0 else OwnLag(ideal.fsm, cfg.name))
  {
    TickLooks(cfg, w, x);
    var r := Reported(cfg, w, x);
    assert r.node.state == RunningReplica;
    ReportAlmost(cfg, r.store, r.store, ReplicaLagging, x.move);
  }

  /** The state reports overwrite the node's own recorded lag with zero exactly if Erases holds, and no other lag. */
  lemma OwnLagIsErased(cfg: ManagerConfig, w: World, x: TickIn)
    requires Starts(cfg, w, x)
    ensures var s, t := Unerased(cfg, w, x), ChosenFrom(cfg, w, x);
            && AlmostSame(s, t, cfg.name)
            && OwnLag(t, cfg.name) == if Erases(cfg, x) then 0 else OwnLag(s, cfg.name)
  {
    var r, actual := Reported(cfg, w, x).store, Looking(cfg, w, x);
    var ideal := if Lagging(cfg, x.status) then KeptReport(cfg, r, ReplicaLagging, x.move) else r;
    LookingLags(cfg, w, x);
    LookingRuns(cfg, w, x);
    ReportAlmost(cfg, actual.store, ideal, FailoverInProgress, x.primary.enter);
    HearAlmost(ideal, actual.store, x.primary.enter.others, cfg.name);
  }

  lemma LookingRuns(cfg: ManagerConfig, w: World, x: TickIn)
    requires Starts(cfg, w, x)
    ensures Looking(cfg, w, x).node.state != FailoverInProgress
  {
    TickLooks(cfg, w, x);
  }

  lemma AlmostSameReplicas(s: State, t: State, self: string)
    requires AlmostSame(s, t, self)
    ensures Replicas(t).Keys == Replicas(s).Keys
    ensures forall k :: k in Replicas(s) ==>
              Replicas(t)[k].lag == if k == self then OwnLag(t, self) else Replicas(s)[k].lag
  {
  }

  // ---------------------------------------------------------------- the choice

  /** Every listing order of the replicas of t promotes one that has least lag in s. */
  ghost predicate EveryOrderChoosesLeast(s: State, t: State, failed: string) {
    forall list :: ClusterFsm.ListsNodes(list, Replicas(t)) && SelectBest(list, failed).Some?
                   ==> LeastLag(s, failed, SelectBest(list, failed).value.name)
  }

  lemma ChoiceIff(s: State, t: State, failed: string, self: string, erases: bool)
    requires WellKeyed(t) && self != failed && AlmostSame(s, t, self)
    requires OwnLag(t, self) == if erases then 0 else OwnLag(s, self)
    ensures EveryOrderChoosesLeast(s, t, failed) <==> !erases || self !in Replicas(s) || Harmless(s, failed, self)
  {
    AlmostSameReplicas(s, t, self);
    ListingsChoose(s, t, failed);
    if erases && self in Replicas(s) {
      assert Erased(s, t, self);
      if Harmless(s, failed, self) {
        ErasedChoiceIsLeastIf(s, t, failed, self);
      }
      if ChoosesLeast(s, t, failed) {
        ErasedChoiceIsLeastOnlyIf(s, t, failed, self);
      }
    } else {
      assert forall k :: k in Replicas(s) ==> Replicas(t)[k].lag == Replicas(s)[k].lag;
    }
  }

  lemma ChosenFacts(cfg: ManagerConfig, w: World, x: TickIn)
    requires Valid(w.store) && Starts(cfg, w, x)
    ensures WellKeyed(ChosenFrom(cfg, w, x)) && Looking(cfg, w, x).store.fsm.primaryName != cfg.name
  {
    LookingIsQuiet(cfg, w, x);
    ChosenIsKeyed(cfg, Looking(cfg, w, x), x.primary);
  }

  /**
   * For every order in which the replicas may be listed, the promoted one has least lag, by the records as they would
   * be had the state reports kept the leader's lag, if and only if no report erases it, or the leader is no replica on
   * record, or erasing its lag is harmless. Others' commands may land around every write.
   */
  lemma ChoiceIsOfLeastLagIff(cfg: ManagerConfig, w: World, x: TickIn)
    requires Valid(w.store) && Starts(cfg, w, x)
    ensures var s, failed := Unerased(cfg, w, x), Looking(cfg, w, x).store.fsm.primaryName;
            EveryOrderChoosesLeast(s, ChosenFrom(cfg, w, x), failed)
            <==> !Erases(cfg, x) || cfg.name !in Replicas(s) || Harmless(s, failed, cfg.name)
  {
    ChosenFacts(cfg, w, x);
    OwnLagIsErased(cfg, w, x);
    var failed := Looking(cfg, w, x).store.fsm.primaryName;
    ChoiceIff(Unerased(cfg, w, x), ChosenFrom(cfg, w, x), failed, cfg.name, Erases(cfg, x));
  }

  /** Nothing of other nodes lands between the health report and the choice. */
  predicate NothingLands(cfg: ManagerConfig, x: TickIn) {
    (Lagging(cfg, x.status) ==> x.move.others == []) && x.primary.enter.others == []
  }

  predicate SameLags(s: State, t: State) {
    && Replicas(s).Keys == Replicas(t).Keys
    && forall k :: k in Replicas(s) ==> Replicas(s)[k].lag == Replicas(t)[k].lag
  }

  lemma KeptReportKeepsLags(cfg: ManagerConfig, st: Store, s: NodeState, turn: Turn)
    requires turn.others == []
    ensures SameLags(st.fsm, KeptReport(cfg, st, s, turn).fsm)
  {
    assert Hear(st, []) == st;
  }

  lemma UnerasedIsReported(cfg: ManagerConfig, w: World, x: TickIn)
    requires NothingLands(cfg, x)
    ensures SameLags(Reported(cfg, w, x).store.fsm, Unerased(cfg, w, x))
  {
    var r := Reported(cfg, w, x).store;
    var st := if Lagging(cfg, x.status) then KeptReport(cfg, r, ReplicaLagging, x.move) else r;
    if Lagging(cfg, x.status) {
      KeptReportKeepsLags(cfg, r, ReplicaLagging, x.move);
    }
    KeptReportKeepsLags(cfg, st, FailoverInProgress, x.primary.enter);
  }

  lemma SameLagsSameLeast(s: State, t: State, failed: string, self: string)
    requires SameLags(s, t)
    ensures forall k :: LeastLag(s, failed, k) <==> LeastLag(t, failed, k)
    ensures self in Replicas(s) ==> (Harmless(s, failed, self) <==> Harmless(t, failed, self))
  {
    assert forall k :: Rival(s, failed, self, k) <==> Rival(t, failed, self, k);
  }

  /** Without such commands, by the records the tick's own health report left. */
  lemma ChoiceIsOfLeastReportedLagIff(cfg: ManagerConfig, w: World, x: TickIn)
    requires Valid(w.store) && Starts(cfg, w, x) && NothingLands(cfg, x)
    ensures var r, failed := Reported(cfg, w, x).store.fsm, Looking(cfg, w, x).store.fsm.primaryName;
            EveryOrderChoosesLeast(r, ChosenFrom(cfg, w, x), failed)
            <==> !((Lagging(cfg, x.status) && x.move.Commits()) || x.primary.enter.Commits())
                 || cfg.name !in Replicas(r) || Harmless(r, failed, cfg.name)
  {
    ChoiceIsOfLeastLagIff(cfg, w, x);
    UnerasedIsReported(cfg, w, x);
    var failed := Looking(cfg, w, x).store.fsm.primaryName;
    SameLagsSameLeast(Reported(cfg, w, x).store.fsm, Unerased(cfg, w, x), failed, cfg.name);
  }

  /** Once its lag is erased, a leader on record is certain to promote itself if and only if every rival lags. */
  lemma LeaderPromotesItself(cfg: ManagerConfig, w: World, x: TickIn)
    requires Valid(w.store) && Starts(cfg, w, x) && Erases(cfg, x) && cfg.name in Replicas(Unerased(cfg, w, x))
    ensures var s, t := Unerased(cfg, w, x), ChosenFrom(cfg, w, x);
            var failed := Looking(cfg, w, x).store.fsm.primaryName;
            (forall target :: LeastLag(t, failed, target) ==> target == cfg.name)
            <==> forall k :: Rival(s, failed, cfg.name, k) ==> Replicas(s)[k].lag > 0
  {
    ChosenFacts(cfg, w, x);
    OwnLagIsErased(cfg, w, x);
    AlmostSameReplicas(Unerased(cfg, w, x), ChosenFrom(cfg, w, x), cfg.name);
    SelfIsCertainIff(Unerased(cfg, w, x), ChosenFrom(cfg, w, x), Looking(cfg, w, x).store.fsm.primaryName, cfg.name);
  }

  /** Two replicas, 1000 and 1 byte behind: the first is the leader, reports its new state, and is chosen. */
  lemma ErasedLagExample(cfg: ManagerConfig, s: State, a: NodeInfo, b: NodeInfo, now: Time)
    requires cfg.name == "a" && s == INITIAL.(nodes := map["a" := a, "b" := b])
    requires a == NodeInfo("a", "", 0, Replica, "RUNNING_REPLICA", 1000, 0, now) && b == a.(name := "b", lag := 1)
    ensures var t := Apply(s, StateReport(cfg, FailoverInProgress, now), now);
            var best := SelectBest([t.nodes["b"], t.nodes["a"]], "old");
            best.Some? && best.value.name == "a" && !LeastLag(s, "old", "a")
  {
    assert "b" in Replicas(s) && "b" != "old";
    var a' := a.(state := "FAILOVER_IN_PROGRESS", lag := 0);
    assert [b, a'][..1] == [b] && [b][..0] == [];
    assert SelectBest([], "old") == None;
    assert SelectBest([b], "old") == Some(b);
  }
}
