/** A run in which the primary recovers between the detection and the failover, and the wrong replica is promoted. */
module FailoverExample {
  import opened Base
  import opened Fsm
  import opened Store
  import opened Failover
  import opened ReplicaChoice
  import opened NodeManager
  import opened NodeRuns
  import opened FailoverGuard
  import HealthHistory
  import ClusterFsm

  /** Node "a" leads Raft and follows primary "p" beside "b"; both confirmation periods are 5, the threshold is 500. */
  const CFG := ManagerConfig("a", "", 5432, 5, 500, false, 0, Config(5, true))

  function Seen(at: Time): NodeInfo {
    NodeInfo("p", "", 5432, Primary, "running", 0, 0, at)
  }

  const A := NodeInfo("a", "", 5432, Replica, "RUNNING_REPLICA", 0, 0, 1)
  const B := NodeInfo("b", "", 5432, Replica, "RUNNING_REPLICA", 1, 0, 1)

  function Written(at: Time): Turn {
    Turn([], true, true, at)
  }

  /** Some listing of the replicas. */
  ghost function Listing(s: State): (list: seq<NodeInfo>)
    ensures WellKeyed(s) ==> ClusterFsm.ListsNodes(list, Replicas(s))
  {
    if WellKeyed(s) then
      ListingExists(s);
      var list :| ClusterFsm.ListsNodes(list, Replicas(s));
      list
    else []
  }

  lemma ListingExists(s: State)
    requires WellKeyed(s)
    ensures exists list :: ClusterFsm.ListsNodes(list, Replicas(s))
  {
    var list := SomeListing(s, Replicas(s).Keys);
    assert Restricted(s, Replicas(s).Keys) == Replicas(s);
  }

  /** A tick of a healthy replica that leads Raft, with no directives, whose writes commit. */
  ghost function Look(at: Time, lag: int): TickIn {
    TickIn([], false, MonitorIn(at, _ => [], _ => Written(at)), HealthHistory.HealthStatus(true, true, lag),
           Written(at), Written(at),
           PrimaryIn(true, at, at, at, Written(at), Listing, FailoverIn(at, at, Written(at), Written(at)), Written(at)),
           true, at, Written(at))
  }

  /** The records: when the primary was seen, the leader's own lag, and the other replica one byte behind. */
  predicate Records(s: State, seen: Time, lag: int) {
    && s.primaryName == "p" && s.nodes.Keys == {"p", "a", "b"}
    && s.nodes["p"] == Seen(seen) && s.nodes["b"] == B
    && s.nodes["a"].name == "a" && s.nodes["a"].role == Replica && s.nodes["a"].lag == lag
  }

  /** The node knows that the primary was seen at some time, and nothing holds it back. */
  predicate Knows(w: World, seen: Time) {
    && Records(w.store.fsm, seen, 0)
    && !w.ctrl.inFlight && !w.node.paused && w.node.raftErrors == 0
  }

  /** A report of the leader changes its own record only. */
  lemma OwnReport(st: Store, info: NodeInfo, at: Time, seen: Time, lag: int)
    requires Records(st.fsm, seen, lag) && info.name == "a"
    ensures Records(Propose(st, Written(at), UpdateNodeHealth(info)).fsm, seen, info.lag)
  {
    assert Hear(st, []) == st;
  }

  lemma ReportKeeps(w: World, at: Time, seen: Time, lag: int)
    requires Knows(w, seen)
    ensures Opening(CFG, w, Look(at, lag)) == w && Reported(CFG, w, Look(at, lag)).node == w.node
    ensures Reported(CFG, w, Look(at, lag)).ctrl == w.ctrl
    ensures Records(Reported(CFG, w, Look(at, lag)).store.fsm, seen, lag)
    ensures lag == 0 ==> Looking(CFG, w, Look(at, lag)) == Reported(CFG, w, Look(at, lag))
  {
    OwnReport(w.store, HealthReport(CFG, w.node, Look(at, lag).status, at).node, at, seen, 0);
  }

  /** What a tick without lag sees and does, for a running replica. */
  lemma LookAt(w: World, at: Time, seen: Time)
    requires Knows(w, seen) && w.node.state == RunningReplica
    ensures Looks(CFG, w, Look(at, 0)) && (SeesStale(CFG, w, Look(at, 0)) <==> at - seen > 5)
    ensures var w' := Tick(CFG, w, Look(at, 0));
            && (at - seen <= 5 ==> Knows(w', seen) && w'.node == w.node && w'.ctrl == w.ctrl)
            && (at - seen > 5 && w.ctrl.confirmationStart == ZERO_TIME ==>
                  Detects(CFG, w, Look(at, 0)) && Knows(w', seen) && w'.node == w.node
                  && w'.ctrl.confirmationStart == at)
  {
    ReportKeeps(w, at, seen, 0);
    TickLooks(CFG, w, Look(at, 0));
    assert GetPrimary(Looking(CFG, w, Look(at, 0)).store.fsm) == Some(Seen(seen));
  }

  lemma FirstTick(w: World, at: Time, seen: Time)
    requires Knows(w, seen) && w.node.state == Initializing
    ensures var w' := Tick(CFG, w, Look(at, 0));
            Knows(w', seen) && w'.node.state == RunningReplica && w'.ctrl == w.ctrl
  {
    ReportKeeps(w, at, seen, 0);
    var w1 := Reported(CFG, w, Look(at, 0));
    OwnReport(w1.store, StateReport(CFG, RunningReplica, at).node, at, seen, 0);
  }

  lemma HearOne(w: World, e: Fsm.Entry)
    ensures Next(CFG, w, Replicate([e])) == w.(store := Append(w.store, e.cmd, false, e.now))
  {
    assert [e][..0] == [] && Hear(w.store, []) == w.store;
  }

  // ---------------------------------------------------------------- the last tick

  /** A leader that reports 1000 bytes of lag starts a failover: both its state reports erase the lag first. */
  lemma LastTick(w: World, at: Time, seen: Time)
    requires Knows(w, seen) && w.node.state == RunningReplica && at - seen > 5
    requires w.ctrl.confirmationStart != ZERO_TIME && at - w.ctrl.confirmationStart >= 5
    ensures Starts(CFG, w, Look(at, 1000)) && Looking(CFG, w, Look(at, 1000)).store.fsm.primaryName == "p"
    ensures Records(Reported(CFG, w, Look(at, 1000)).store.fsm, seen, 1000)
    ensures Records(ChosenFrom(CFG, w, Look(at, 1000)), seen, 0)
  {
    var x := Look(at, 1000);
    ReportKeeps(w, at, seen, 1000);
    var w1 := Reported(CFG, w, x);
    OwnReport(w1.store, StateReport(CFG, ReplicaLagging, at).node, at, seen, 1000);
    OwnReport(Looking(CFG, w, x).store, StateReport(CFG, FailoverInProgress, at).node, at, seen, 0);
  }

  /** Of "a" without lag and "b" with one byte of it, "a" is chosen. */
  lemma OnlyA(s: State, seen: Time, target: string)
    requires Records(s, seen, 0)
    ensures LeastLag(s, "p", target) ==> target == "a"
    ensures "a" in Replicas(s)
  {
    assert "a" in Replicas(s) && "a" != "p" && "a" != "b" && target in s.nodes ==> target in {"p", "a", "b"};
  }

  lemma BIsCloser(s: State, seen: Time)
    requires Records(s, seen, 1000)
    ensures !LeastLag(s, "p", "a")
  {
    assert "b" in Replicas(s) && "b" != "p";
  }

  lemma PromotesA(w: World, at: Time, seen: Time)
    requires Valid(w.store) && Knows(w, seen) && w.node.state == RunningReplica && at - seen > 5
    requires w.ctrl.confirmationStart != ZERO_TIME && at - w.ctrl.confirmationStart >= 5
    ensures FailsOver(CFG, w, Look(at, 1000), "a")
    ensures Orders(Tick(CFG, w, Look(at, 1000)).store)
            == Orders(w.store) + [Order(Fence, "p", map[], at), Order(Promote, "a", map[], at)]
    ensures !LeastLag(Reported(CFG, w, Look(at, 1000)).store.fsm, "p", "a")
  {
    var x := Look(at, 1000);
    LastTick(w, at, seen);
    assert ReadsReplicas(x.primary);
    OnlyA(ChosenFrom(CFG, w, x), seen, "a");
    var target := StartedTick(CFG, w, x);
    assert target.Some?;
    OnlyA(ChosenFrom(CFG, w, x), seen, target.value);
    BIsCloser(Reported(CFG, w, x).store.fsm, seen);
  }

  // ---------------------------------------------------------------- the run

  function RunFrom(cfg: ManagerConfig, w: World, steps: seq<Step>): (run: seq<World>)
    ensures |run| == |steps| + 1
  {
    if steps == [] then [w]
    else
      var run := RunFrom(cfg, w, steps[..|steps| - 1]);
      run + [Next(cfg, run[|run| - 1], steps[|steps| - 1])]
  }

  lemma {:induction false} RunFromFollows(cfg: ManagerConfig, w: World, steps: seq<Step>)
    ensures Follows(cfg, RunFrom(cfg, w, steps), steps) && RunFrom(cfg, w, steps)[0] == w
  {
    if steps != [] {
      var init, last := steps[..|steps| - 1], steps[|steps| - 1];
      RunFromFollows(cfg, w, init);
      var run := RunFrom(cfg, w, init);
      FollowsOn(cfg, run, init, last, Next(cfg, run[|run| - 1], last));
      assert steps == init + [last];
    }
  }

  lemma FollowsOn(cfg: ManagerConfig, run: seq<World>, steps: seq<Step>, step: Step, w: World)
    requires Follows(cfg, run, steps) && w == Next(cfg, run[|run| - 1], step)
    ensures Follows(cfg, run + [w], steps + [step])
  {
    forall i | 0 <= i < |steps + [step]| ensures (run + [w])[i + 1] == Next(cfg, (run + [w])[i], (steps + [step])[i]) {
      if i < |steps| {
        assert run[i + 1] == Next(cfg, run[i], steps[i]);
      }
    }
  }

  const BARE := Store([], INITIAL)
  const KNOWN := Append(Append(Append(BARE, SetPrimary(Seen(1)), false, 1), AddNode(A), false, 1), AddNode(B), false, 1)
  const W0 := World(NEW_NODE, CLEARED, KNOWN)
  const E := Fsm.Entry(UpdateNodeHealth(Seen(11)), 11)

  lemma StartIsValid()
    ensures Valid(KNOWN) && Knows(W0, 1)
  {
    AppendValid(BARE, SetPrimary(Seen(1)), false, 1);
    AppendValid(Append(BARE, SetPrimary(Seen(1)), false, 1), AddNode(A), false, 1);
    AppendValid(Append(Append(BARE, SetPrimary(Seen(1)), false, 1), AddNode(A), false, 1), AddNode(B), false, 1);
  }

  lemma Detection(w1: World, w2: World)
    requires Knows(W0, 1) && w1 == Tick(CFG, W0, Look(2, 0)) && w2 == Tick(CFG, w1, Look(10, 0))
    ensures Detects(CFG, w1, Look(10, 0)) && Knows(w2, 1)
    ensures w2.node.state == RunningReplica && w2.ctrl.confirmationStart == 10
  {
    FirstTick(W0, 2, 1);
    LookAt(w1, 10, 1);
  }

  lemma Recovery(w2: World, w3: World, w4: World)
    requires Knows(w2, 1) && w2.node.state == RunningReplica && w2.ctrl.confirmationStart == 10
    requires w3 == Next(CFG, w2, Replicate([E])) && w4 == Tick(CFG, w3, Look(12, 0))
    ensures Looks(CFG, w3, Look(12, 0)) && !SeesStale(CFG, w3, Look(12, 0))
    ensures Knows(w4, 11) && w4.node.state == RunningReplica && w4.ctrl.confirmationStart == 10
  {
    HearOne(w2, E);
    LookAt(w3, 12, 11);
  }

  /**
   * The primary is last seen at 1 and found stale at 10; it reports again at 11 and is found fresh at 12; when it is
   * found stale again at 20 it is failed over at once, although it was not stale for the confirmation period. The
   * leader reports 1000 bytes of lag in that very tick and promotes itself, not the replica that is one byte behind.
   */
  lemma RecoveredPrimaryIsFailedOver() returns (run: seq<World>, steps: seq<Step>)
    ensures steps == [DoTick(Look(2, 0)), DoTick(Look(10, 0)), Replicate([E]), DoTick(Look(12, 0)),
                      DoTick(Look(20, 1000))]
    ensures IsRun(CFG, run, steps)
    ensures Detects(CFG, run[1], Look(10, 0))
    ensures Looks(CFG, run[3], Look(12, 0)) && !SeesStale(CFG, run[3], Look(12, 0))
    ensures FailsOver(CFG, run[4], Look(20, 1000), "a")
    ensures Orders(run[5].store)
            == Orders(run[4].store) + [Order(Fence, "p", map[], 20), Order(Promote, "a", map[], 20)]
    ensures !LeastLag(Reported(CFG, run[4], Look(20, 1000)).store.fsm, "p", "a")
  {
    steps := [DoTick(Look(2, 0)), DoTick(Look(10, 0)), Replicate([E]), DoTick(Look(12, 0)), DoTick(Look(20, 1000))];
    run := RunFrom(CFG, W0, steps);
    RunFromFollows(CFG, W0, steps);
    StartIsValid();
    StepsOf(CFG, run, steps);
    Detection(run[1], run[2]);
    Recovery(run[2], run[3], run[4]);
    RunValid(CFG, run, steps, 4);
    PromotesA(run[4], 20, 11);
  }

  lemma StepsOf(cfg: ManagerConfig, run: seq<World>, steps: seq<Step>)
    requires Follows(cfg, run, steps) && |steps| == 5
    ensures run[1] == Next(cfg, run[0], steps[0]) && run[2] == Next(cfg, run[1], steps[1])
    ensures run[3] == Next(cfg, run[2], steps[2]) && run[4] == Next(cfg, run[3], steps[3])
    ensures run[5] == Next(cfg, run[4], steps[4])
  {
  }
}
