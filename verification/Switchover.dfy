/** The graceful switchover (internal/cluster/failover.go): CHECKPOINT, replica sync, DEMOTE, PROMOTE. */
module Switchover {
  import opened Base
  import opened Fsm
  import opened ReplicatedLog
  import opened Store
  import opened Failover

  const MAX_LAG := 0

  /**
   * Outside events of one switchover: clock readings, what happens around its three writes, and others' commands that
   * land before each poll. A wait whose polls run out has hit its deadline.
   */
  datatype SwitchIn = SwitchIn(startAt: Time, now: Time, checkpoint: Turn, polls: seq<seq<Entry>>,
                               syncPolls: seq<seq<Entry>>, later: Time, demote: Turn, promote: Turn)

  function AwaitDirective(st: Store, id: string, polls: seq<seq<Entry>>): (Store, bool)
    decreases |polls|
  {
    if polls == [] then (st, false)
    else
      var heard := Hear(st, polls[0]);
      if id !in heard.fsm.directives then (heard, false)
      else if heard.fsm.directives[id].status == Completed then (heard, true)
      else if heard.fsm.directives[id].status == Failed then (heard, false)
      else AwaitDirective(heard, id, polls[1..])
  }

  predicate Synced(s: State, target: string) {
    target in s.nodes && s.nodes[target].lag <= MAX_LAG
  }

  function AwaitSync(st: Store, target: string, polls: seq<seq<Entry>>): (Store, bool)
    decreases |polls|
  {
    if polls == [] then (st, false)
    else
      var heard := Hear(st, polls[0]);
      if Synced(heard.fsm, target) then (heard, true) else AwaitSync(heard, target, polls[1..])
  }

  function CheckpointOrder(primary: string, x: SwitchIn): Directive {
    Order(Checkpoint, primary, map[], x.now)
  }

  function DemoteOrder(primary: string, target: string, x: SwitchIn): Directive {
    Order(Demote, primary, map["target_primary" := target], x.later)
  }

  function PromoteTarget(target: string, x: SwitchIn): Directive {
    Order(Promote, target, map[], x.later)
  }

  /** ExecuteSwitchover; the last result is false for an error return. */
  function RunSwitchover(c: Ctrl, st: Store, primary: string, target: string, x: SwitchIn): (Ctrl, Store, bool) {
    var checkpoint := CheckpointOrder(primary, x);
    var st1 := Propose(st, x.checkpoint, PublishDirective(checkpoint));
    if !x.checkpoint.Commits() then (CLEARED, st1, false)
    else
      var (st2, done) := AwaitDirective(st1, checkpoint.id, x.polls);
      if !done then (CLEARED, st2, false)
      else
        var (st3, synced) := AwaitSync(st2, target, x.syncPolls);
        if !synced then (CLEARED, st3, false) else SwapRoles(c, st3, primary, target, x)
  }

  /** The second half: DEMOTE the old primary, then PROMOTE the target. */
  function SwapRoles(c: Ctrl, st: Store, primary: string, target: string, x: SwitchIn): (Ctrl, Store, bool) {
    var demote, promote := DemoteOrder(primary, target, x), PromoteTarget(target, x);
    var st1 := Propose(st, x.demote, PublishDirective(demote));
    if !x.demote.Commits() then (CLEARED, st1, false)
    else
      var st2 := Propose(st1, x.promote, PublishDirective(promote));
      if !x.promote.Commits() then (CLEARED, st2, false)
      else
        var ids := [CheckpointOrder(primary, x).id, demote.id, promote.id];
        (Ctrl(true, ids, x.startAt, c.confirmationStart), st2, true)
  }

  // ---------------------------------------------------------------- when a wait succeeds

  /** The store after poll j. */
  function AfterPoll(st: Store, polls: seq<seq<Entry>>, j: nat): Store
    requires j < |polls|
  {
    Hear(if j == 0 then st else AfterPoll(st, polls, j - 1), polls[j])
  }

  lemma {:induction false} AfterFirstPoll(st: Store, polls: seq<seq<Entry>>, j: nat)
    requires j + 1 < |polls|
    ensures AfterPoll(Hear(st, polls[0]), polls[1..], j) == AfterPoll(st, polls, j + 1)
  {
    if j > 0 {
      AfterFirstPoll(st, polls, j - 1);
    } else {
      assert AfterPoll(st, polls, 0) == Hear(st, polls[0]);
    }
  }

  /** The directive is there, and neither completed nor failed. */
  predicate Unresolved(s: State, id: string) {
    id in s.directives && s.directives[id].status != Completed && s.directives[id].status != Failed
  }

  /** Poll j is the first to find the directive resolved or gone, and finds it completed. */
  predicate FirstCompleted(st: Store, id: string, polls: seq<seq<Entry>>, j: nat) {
    && j < |polls| && ShowsAs(AfterPoll(st, polls, j).fsm, id, Completed)
    && forall i: nat :: i < j ==> Unresolved(AfterPoll(st, polls, i).fsm, id)
  }

  lemma {:induction false} AwaitDirectiveIff(st: Store, id: string, polls: seq<seq<Entry>>)
    ensures AwaitDirective(st, id, polls).1 <==> exists j: nat :: FirstCompleted(st, id, polls, j)
    ensures forall j: nat :: FirstCompleted(st, id, polls, j) ==>
              AwaitDirective(st, id, polls).0 == AfterPoll(st, polls, j)
    decreases |polls|
  {
    if polls != [] {
      var heard, rest := Hear(st, polls[0]), polls[1..];
      AwaitDirectiveIff(heard, id, rest);
      ShiftCompleted(st, id, polls, 0);
      forall j: nat | FirstCompleted(st, id, polls, j)
        ensures AwaitDirective(st, id, polls).1 && AwaitDirective(st, id, polls).0 == AfterPoll(st, polls, j)
      {
        ShiftCompleted(st, id, polls, j);
      }
      if j: nat :| Unresolved(heard.fsm, id) && FirstCompleted(heard, id, rest, j) {
        ShiftCompleted(st, id, polls, j + 1);
        assert FirstCompleted(st, id, polls, j + 1);
      }
    }
  }

  /** How the first poll and the others share the work. */
  lemma ShiftCompleted(st: Store, id: string, polls: seq<seq<Entry>>, j: nat)
    requires polls != []
    ensures AfterPoll(st, polls, 0) == Hear(st, polls[0])
    ensures j == 0 ==> (FirstCompleted(st, id, polls, 0) <==> ShowsAs(Hear(st, polls[0]).fsm, id, Completed))
    ensures 0 < j < |polls| ==> AfterPoll(st, polls, j) == AfterPoll(Hear(st, polls[0]), polls[1..], j - 1)
    ensures j > 0 ==>
              (FirstCompleted(st, id, polls, j) <==>
                 Unresolved(Hear(st, polls[0]).fsm, id) && FirstCompleted(Hear(st, polls[0]), id, polls[1..], j - 1))
  {
    var heard, rest := Hear(st, polls[0]), polls[1..];
    assert AfterPoll(st, polls, 0) == heard;
    forall i: nat | i < |rest| ensures AfterPoll(heard, rest, i) == AfterPoll(st, polls, i + 1) {
      AfterFirstPoll(st, polls, i);
    }
    if 0 < j < |polls| {
      assert forall i: nat :: 0 < i < j ==> AfterPoll(st, polls, i) == AfterPoll(heard, rest, i - 1);
      assert forall i: nat :: i < j - 1 ==> AfterPoll(heard, rest, i) == AfterPoll(st, polls, i + 1);
    }
  }

  /** Poll j is the first to find the target on record with a lag of at most zero. */
  predicate FirstSynced(st: Store, target: string, polls: seq<seq<Entry>>, j: nat) {
    && j < |polls| && CaughtUp(AfterPoll(st, polls, j).fsm, target)
    && forall i: nat :: i < j ==> !CaughtUp(AfterPoll(st, polls, i).fsm, target)
  }

  predicate CaughtUp(s: State, target: string) {
    target in s.nodes && s.nodes[target].lag <= 0
  }

  lemma {:induction false} AwaitSyncIff(st: Store, target: string, polls: seq<seq<Entry>>)
    ensures AwaitSync(st, target, polls).1 <==> exists j: nat :: FirstSynced(st, target, polls, j)
    ensures forall j: nat :: FirstSynced(st, target, polls, j) ==>
              AwaitSync(st, target, polls).0 == AfterPoll(st, polls, j)
    decreases |polls|
  {
    if polls != [] {
      var heard, rest := Hear(st, polls[0]), polls[1..];
      AwaitSyncIff(heard, target, rest);
      ShiftSynced(st, target, polls, 0);
      forall j: nat | FirstSynced(st, target, polls, j)
        ensures AwaitSync(st, target, polls).1 && AwaitSync(st, target, polls).0 == AfterPoll(st, polls, j)
      {
        ShiftSynced(st, target, polls, j);
      }
      if j: nat :| !Synced(heard.fsm, target) && FirstSynced(heard, target, rest, j) {
        ShiftSynced(st, target, polls, j + 1);
        assert FirstSynced(st, target, polls, j + 1);
      }
    }
  }

  /** The same for the other wait. */
  lemma ShiftSynced(st: Store, target: string, polls: seq<seq<Entry>>, j: nat)
    requires polls != []
    ensures AfterPoll(st, polls, 0) == Hear(st, polls[0])
    ensures j == 0 ==> (FirstSynced(st, target, polls, 0) <==> Synced(Hear(st, polls[0]).fsm, target))
    ensures 0 < j < |polls| ==> AfterPoll(st, polls, j) == AfterPoll(Hear(st, polls[0]), polls[1..], j - 1)
    ensures j > 0 ==>
              (FirstSynced(st, target, polls, j) <==>
                 !Synced(Hear(st, polls[0]).fsm, target) && FirstSynced(Hear(st, polls[0]), target, polls[1..], j - 1))
  {
    var heard, rest := Hear(st, polls[0]), polls[1..];
    assert AfterPoll(st, polls, 0) == heard;
    forall i: nat | i < |rest| ensures AfterPoll(heard, rest, i) == AfterPoll(st, polls, i + 1) {
      AfterFirstPoll(st, polls, i);
    }
    if 0 < j < |polls| {
      assert forall i: nat :: 0 < i < j ==> AfterPoll(st, polls, i) == AfterPoll(heard, rest, i - 1);
      assert forall i: nat :: i < j - 1 ==> AfterPoll(heard, rest, i) == AfterPoll(st, polls, i + 1);
    }
  }

  // ---------------------------------------------------------------- waiting

  /** Waiting adds only others' commands. */
  lemma {:induction false} AwaitDirectiveQuiet(st: Store, id: string, polls: seq<seq<Entry>>)
    ensures var st' := AwaitDirective(st, id, polls).0; Extends(st, st') && Own(st'.log) == Own(st.log)
    decreases |polls|
  {
    if polls != [] {
      HearOwn(st, polls[0]);
      AwaitDirectiveQuiet(Hear(st, polls[0]), id, polls[1..]);
    }
  }

  lemma {:induction false} AwaitSyncQuiet(st: Store, target: string, polls: seq<seq<Entry>>)
    ensures var st' := AwaitSync(st, target, polls).0; Extends(st, st') && Own(st'.log) == Own(st.log)
    decreases |polls|
  {
    if polls != [] {
      HearOwn(st, polls[0]);
      AwaitSyncQuiet(Hear(st, polls[0]), target, polls[1..]);
    }
  }

  /** Waiting keeps the FSM in step with the log. */
  lemma {:induction false} AwaitDirectiveValid(st: Store, id: string, polls: seq<seq<Entry>>)
    requires Valid(st)
    ensures Valid(AwaitDirective(st, id, polls).0)
    decreases |polls|
  {
    if polls != [] {
      HearValid(st, polls[0]);
      AwaitDirectiveValid(Hear(st, polls[0]), id, polls[1..]);
    }
  }

  lemma {:induction false} AwaitSyncValid(st: Store, target: string, polls: seq<seq<Entry>>)
    requires Valid(st)
    ensures Valid(AwaitSync(st, target, polls).0)
    decreases |polls|
  {
    if polls != [] {
      HearValid(st, polls[0]);
      AwaitSyncValid(Hear(st, polls[0]), target, polls[1..]);
    }
  }

  /** Entry k publishes the directive, and nothing after it publishes that ID again. */
  ghost predicate LastPublish(log: seq<Command>, k: int, d: Directive) {
    && 0 <= k < |log| && log[k] == PublishDirective(d)
    && forall j :: k < j < |log| ==> !Republishes(log[j], d.id)
  }

  lemma {:induction false} HearKeepsLastPublish(st: Store, others: seq<Entry>, k: int, d: Directive)
    requires LastPublish(Cmds(st.log), k, d) && Spares(others, [d.id])
    ensures LastPublish(Cmds(Hear(st, others).log), k, d)
  {
    if others != [] {
      var init, last := others[..|others| - 1], others[|others| - 1];
      HearKeepsLastPublish(st, init, k, d);
      assert !Republishes(last.cmd, [d.id][0]);
      var h := Hear(st, init);
      assert (h.log + [Logged(last.cmd, false)])[..|h.log|] == h.log;
    }
  }

  /** If a directive that was last published pending ends up completed, a clean COMPLETE follows its publication. */
  lemma {:induction false} CompletedAfterPublish(log: seq<Command>, k: int, d: Directive) returns (j: int)
    requires LastPublish(log, k, d) && d.status == Pending
    requires d.id in Book(log) && Book(log)[d.id].d.status == Completed
    ensures k < j < |log| && CompletesCleanly(log[j], d.id)
  {
    var init, last := log[..|log| - 1], log[|log| - 1];
    if Touches(last, d.id) {
      j := |log| - 1;
    } else {
      j := CompletedAfterPublish(init, k, d);
    }
  }

  lemma {:induction false} AwaitDirectiveSees(st: Store, d: Directive, k: int, polls: seq<seq<Entry>>)
    requires LastPublish(Cmds(st.log), k, d)
    requires forall i :: 0 <= i < |polls| ==> Spares(polls[i], [d.id])
    ensures var st' := AwaitDirective(st, d.id, polls).0;
            && LastPublish(Cmds(st'.log), k, d)
            && (AwaitDirective(st, d.id, polls).1 ==> ShowsAs(st'.fsm, d.id, Completed))
    decreases |polls|
  {
    if polls != [] {
      HearKeepsLastPublish(st, polls[0], k, d);
      AwaitDirectiveSees(Hear(st, polls[0]), d, k, polls[1..]);
    }
  }

  lemma {:induction false} AwaitSyncSees(st: Store, target: string, polls: seq<seq<Entry>>)
    ensures AwaitSync(st, target, polls).1 ==> Synced(AwaitSync(st, target, polls).0.fsm, target)
    decreases |polls|
  {
    if polls != [] {
      AwaitSyncSees(Hear(st, polls[0]), target, polls[1..]);
    }
  }

  // ---------------------------------------------------------------- main results

  function SwitchoverOrders(primary: string, target: string, x: SwitchIn): seq<Command> {
    [PublishDirective(CheckpointOrder(primary, x)), PublishDirective(DemoteOrder(primary, target, x)),
     PublishDirective(PromoteTarget(target, x))]
  }

  /** From base on, this node committed exactly the first n of the orders. */
  predicate Issued(base: Store, st: Store, orders: seq<Command>, n: nat) {
    n <= |orders| && Extends(base, st) && Own(st.log) == Own(base.log) + orders[..n]
  }

  lemma IssueNext(base: Store, st: Store, orders: seq<Command>, n: nat, turn: Turn)
    requires n < |orders| && Issued(base, st, orders, n)
    ensures Issued(base, Propose(st, turn, orders[n]), orders, if turn.Commits() then n + 1 else n)
  {
    ProposeOwn(st, turn, orders[n]);
    assert orders[..n + 1] == orders[..n] + [orders[n]];
  }

  lemma IssuedAfterWaits(base: Store, st: Store, orders: seq<Command>, n: nat, id: string, polls: seq<seq<Entry>>,
                         target: string, syncPolls: seq<seq<Entry>>)
    requires Issued(base, st, orders, n)
    ensures var st1 := AwaitDirective(st, id, polls).0;
            Issued(base, st1, orders, n) && Issued(base, AwaitSync(st1, target, syncPolls).0, orders, n)
  {
    AwaitDirectiveQuiet(st, id, polls);
    AwaitSyncQuiet(AwaitDirective(st, id, polls).0, target, syncPolls);
  }

  lemma SwapCommits(c: Ctrl, base: Store, st: Store, primary: string, target: string, x: SwitchIn) returns (n: nat)
    requires Issued(base, st, SwitchoverOrders(primary, target, x), 1)
    ensures var (c', st', ok) := SwapRoles(c, st, primary, target, x);
            && Issued(base, st', SwitchoverOrders(primary, target, x), n)
            && (ok <==> n == 3) && (ok ==> c'.inFlight) && (!ok ==> c' == CLEARED)
  {
    IssueTwo(base, st, SwitchoverOrders(primary, target, x), x.demote, x.promote);
    n := if !x.demote.Commits() then 1 else if x.promote.Commits() then 3 else 2;
  }

  lemma IssueTwo(base: Store, st: Store, orders: seq<Command>, t1: Turn, t2: Turn)
    requires |orders| == 3 && Issued(base, st, orders, 1)
    ensures var st1 := Propose(st, t1, orders[1]);
            && (!t1.Commits() ==> Issued(base, st1, orders, 1))
            && (t1.Commits() ==> Issued(base, Propose(st1, t2, orders[2]), orders, if t2.Commits() then 3 else 2))
  {
    IssueNext(base, st, orders, 1, t1);
    if t1.Commits() {
      IssueNext(base, Propose(st, t1, orders[1]), orders, 2, t2);
    }
  }

  /** It commits a prefix of CHECKPOINT, DEMOTE, PROMOTE: all three on success, and never PROMOTE on an error. */
  lemma SwitchoverCommits(c: Ctrl, st: Store, primary: string, target: string, x: SwitchIn) returns (n: nat)
    ensures var (c', st', ok) := RunSwitchover(c, st, primary, target, x);
            && Issued(st, st', SwitchoverOrders(primary, target, x), n)
            && (ok <==> n == 3) && (ok ==> c'.inFlight) && (!ok ==> c' == CLEARED)
  {
    var orders := SwitchoverOrders(primary, target, x);
    var id := CheckpointOrder(primary, x).id;
    assert Issued(st, st, orders, 0);
    IssueNext(st, st, orders, 0, x.checkpoint);
    var st1 := Propose(st, x.checkpoint, orders[0]);
    n := 0;
    if x.checkpoint.Commits() {
      IssuedAfterWaits(st, st1, orders, 1, id, x.polls, target, x.syncPolls);
      var (st2, done) := AwaitDirective(st1, id, x.polls);
      var (st3, synced) := AwaitSync(st2, target, x.syncPolls);
      n := 1;
      if done && synced {
        n := SwapCommits(c, st, st3, primary, target, x);
      }
    }
  }

  /** Where a log shows the order of a switchover. */
  ghost predicate InOrder(log: seq<Logged>, from: nat, primary: string, target: string, x: SwitchIn,
                          checkpoint: int, completed: int, seen: int, demote: int, promote: int) {
    && from <= checkpoint < completed < seen <= demote < promote < |log|
    && log[checkpoint] == Logged(PublishDirective(CheckpointOrder(primary, x)), true)
    && CompletesCleanly(log[completed].cmd, CheckpointOrder(primary, x).id)
    && Synced(Core(Cmds(log[..seen])), target)
    && log[demote] == Logged(PublishDirective(DemoteOrder(primary, target, x)), true)
    && log[promote] == Logged(PublishDirective(PromoteTarget(target, x)), true)
  }

  lemma ProposeAt(st: Store, turn: Turn, cmd: Command)
    requires turn.Commits()
    ensures var st' := Propose(st, turn, cmd); |st'.log| > |st.log| && st'.log[|st'.log| - 1] == Logged(cmd, true)
  {
    HearOwn(st, turn.others);
  }

  /**
   * In the replicated log a successful switchover shows: its CHECKPOINT, then a clean COMPLETE of that checkpoint, then
   * a prefix after which the target's recorded lag is at most zero, then DEMOTE, then PROMOTE. Others' commands may
   * land anywhere, as long as nobody publishes the checkpoint's ID while the switchover waits for it.
   */
  lemma SwitchoverOrder(c: Ctrl, st: Store, primary: string, target: string, x: SwitchIn)
    returns (checkpoint: int, completed: int, seen: int, demote: int, promote: int)
    requires Valid(st) && RunSwitchover(c, st, primary, target, x).2
    requires forall i :: 0 <= i < |x.polls| ==> Spares(x.polls[i], [CheckpointOrder(primary, x).id])
    ensures InOrder(RunSwitchover(c, st, primary, target, x).1.log, |st.log|, primary, target, x,
                    checkpoint, completed, seen, demote, promote)
  {
    var d := CheckpointOrder(primary, x);
    var o2, o3 := PublishDirective(DemoteOrder(primary, target, x)), PublishDirective(PromoteTarget(target, x));
    var st2 := AwaitDirective(Propose(st, x.checkpoint, PublishDirective(d)), d.id, x.polls).0;
    var st3 := AwaitSync(st2, target, x.syncPolls).0;
    checkpoint, completed := CheckpointCompletes(st, d, x.checkpoint, x.polls);
    AwaitSyncQuiet(st2, target, x.syncPolls);
    SyncByCore(st2, target, x.syncPolls);
    seen := |st3.log|;
    demote, promote := TwoWrites(st3, x.demote, o2, x.promote, o3);
    var log := RunSwitchover(c, st, primary, target, x).1.log;
    assert log[..seen] == st3.log;
  }

  lemma SyncByCore(st: Store, target: string, polls: seq<seq<Entry>>)
    requires Valid(st) && AwaitSync(st, target, polls).1
    ensures Synced(Core(Cmds(AwaitSync(st, target, polls).0.log)), target)
  {
    AwaitSyncValid(st, target, polls);
    AwaitSyncSees(st, target, polls);
  }

  lemma CheckpointCompletes(st: Store, d: Directive, turn: Turn, polls: seq<seq<Entry>>)
    returns (checkpoint: int, completed: int)
    requires Valid(st) && turn.Commits() && d.status == Pending
    requires forall i :: 0 <= i < |polls| ==> Spares(polls[i], [d.id])
    requires AwaitDirective(Propose(st, turn, PublishDirective(d)), d.id, polls).1
    ensures var st' := AwaitDirective(Propose(st, turn, PublishDirective(d)), d.id, polls).0;
            && Valid(st') && |st.log| <= checkpoint < completed < |st'.log|
            && st'.log[checkpoint] == Logged(PublishDirective(d), true)
            && CompletesCleanly(st'.log[completed].cmd, d.id)
  {
    var st1 := Propose(st, turn, PublishDirective(d));
    ProposeValid(st, turn, PublishDirective(d));
    ProposeAt(st, turn, PublishDirective(d));
    checkpoint := |st1.log| - 1;
    AwaitDirectiveQuiet(st1, d.id, polls);
    AwaitDirectiveValid(st1, d.id, polls);
    AwaitDirectiveSees(st1, d, checkpoint, polls);
    var st2 := AwaitDirective(st1, d.id, polls).0;
    completed := CompletedAfterPublish(Cmds(st2.log), checkpoint, d);
  }

  lemma TwoWrites(st: Store, t1: Turn, c1: Command, t2: Turn, c2: Command) returns (i: int, j: int)
    requires t1.Commits() && t2.Commits()
    ensures var log := Propose(Propose(st, t1, c1), t2, c2).log;
            && st.log <= log && |st.log| <= i < j < |log| && log[i] == Logged(c1, true) && log[j] == Logged(c2, true)
  {
    var st1 := Propose(st, t1, c1);
    ProposeOwn(st, t1, c1);
    ProposeAt(st, t1, c1);
    ProposeOwn(st1, t2, c2);
    ProposeAt(st1, t2, c2);
    i, j := |st1.log| - 1, |Propose(st1, t2, c2).log| - 1;
  }

  // ---------------------------------------------------------------- when a switchover succeeds

  /** CHECKPOINT commits, a poll finds it completed and all earlier ones unresolved, and a later poll finds the sync. */
  ghost predicate ReachesSwap(st: Store, primary: string, target: string, x: SwitchIn) {
    var d := CheckpointOrder(primary, x);
    var st1 := Propose(st, x.checkpoint, PublishDirective(d));
    && x.checkpoint.Commits()
    && exists j: nat, l: nat :: BothSeen(st1, d.id, x.polls, target, x.syncPolls, j, l)
  }

  predicate BothSeen(st: Store, id: string, polls: seq<seq<Entry>>, target: string, syncPolls: seq<seq<Entry>>,
                     j: nat, l: nat) {
    FirstCompleted(st, id, polls, j) && FirstSynced(AfterPoll(st, polls, j), target, syncPolls, l)
  }

  lemma WaitsReach(st: Store, id: string, polls: seq<seq<Entry>>, target: string, syncPolls: seq<seq<Entry>>)
    ensures var (st1, done) := AwaitDirective(st, id, polls);
            done && AwaitSync(st1, target, syncPolls).1
            <==> exists j: nat, l: nat :: BothSeen(st, id, polls, target, syncPolls, j, l)
  {
    var (st1, done) := AwaitDirective(st, id, polls);
    AwaitDirectiveIff(st, id, polls);
    AwaitSyncIff(st1, target, syncPolls);
    if done && AwaitSync(st1, target, syncPolls).1 {
      var j: nat :| FirstCompleted(st, id, polls, j);
      var l: nat :| FirstSynced(st1, target, syncPolls, l);
      assert BothSeen(st, id, polls, target, syncPolls, j, l);
    }
    if j: nat, l: nat :| BothSeen(st, id, polls, target, syncPolls, j, l) {
      assert FirstSynced(st1, target, syncPolls, l);
    }
  }

  lemma ReachesIff(st: Store, primary: string, target: string, x: SwitchIn)
    ensures var d := CheckpointOrder(primary, x);
            var st1 := Propose(st, x.checkpoint, PublishDirective(d));
            var (st2, done) := AwaitDirective(st1, d.id, x.polls);
            ReachesSwap(st, primary, target, x) <==>
              x.checkpoint.Commits() && done && AwaitSync(st2, target, x.syncPolls).1
  {
    var d := CheckpointOrder(primary, x);
    WaitsReach(Propose(st, x.checkpoint, PublishDirective(d)), d.id, x.polls, target, x.syncPolls);
  }

  /**
   * A switchover succeeds if and only if its three writes commit, some poll finds the checkpoint completed while every
   * earlier one found it unresolved, and a later poll finds the target's lag at most zero. It then tracks its three
   * directives from the time it started.
   */
  lemma SwitchoverSucceedsIff(c: Ctrl, st: Store, primary: string, target: string, x: SwitchIn)
    ensures var (c', _, ok) := RunSwitchover(c, st, primary, target, x);
            && (ok <==> ReachesSwap(st, primary, target, x) && x.demote.Commits() && x.promote.Commits())
            && (ok ==> c' == Ctrl(true, [DirectiveId(Checkpoint, primary, x.now), DirectiveId(Demote, primary, x.later),
                                         DirectiveId(Promote, target, x.later)], x.startAt, c.confirmationStart))
  {
    ReachesIff(st, primary, target, x);
  }

  /** The three directives, field by field. */
  lemma SwitchoverDirectives(primary: string, target: string, x: SwitchIn)
    ensures SwitchoverOrders(primary, target, x)
            == [PublishDirective(Directive(DirectiveId(Checkpoint, primary, x.now), Checkpoint, primary, map[],
                                           Pending, x.now, ZERO_TIME, "")),
                PublishDirective(Directive(DirectiveId(Demote, primary, x.later), Demote, primary,
                                           map["target_primary" := target], Pending, x.later, ZERO_TIME, "")),
                PublishDirective(Directive(DirectiveId(Promote, target, x.later), Promote, target, map[],
                                           Pending, x.later, ZERO_TIME, ""))]
  {
  }

  // ---------------------------------------------------------------- a switchover that fails halfway

  /** No other node publishes or completes the ID while the switchover runs. */
  predicate UntouchedThroughout(x: SwitchIn, id: string) {
    && Untouched(x.checkpoint.others, id) && Untouched(x.demote.others, id) && Untouched(x.promote.others, id)
    && (forall i :: 0 <= i < |x.polls| ==> Untouched(x.polls[i], id))
    && (forall i :: 0 <= i < |x.syncPolls| ==> Untouched(x.syncPolls[i], id))
  }

  lemma {:induction false} WaitsKeepAbsent(st: Store, id: string, polls: seq<seq<Entry>>, other: string, target: string)
    requires id !in st.fsm.directives && forall i :: 0 <= i < |polls| ==> Untouched(polls[i], id)
    ensures id !in AwaitDirective(st, other, polls).0.fsm.directives
    ensures id !in AwaitSync(st, target, polls).0.fsm.directives
    decreases |polls|
  {
    if polls != [] {
      HearKeepsAbsent(st, polls[0], id);
      WaitsKeepAbsent(Hear(st, polls[0]), id, polls[1..], other, target);
    }
  }

  lemma CheckpointAndDemoteIdsDiffer(a: string, b: string, t: Time, u: Time)
    ensures DirectiveId(Checkpoint, a, t) != DirectiveId(Demote, b, u)
  {
    assert DirectiveId(Checkpoint, a, t)[0] == 'c' && DirectiveId(Demote, b, u)[0] == 'd';
  }

  lemma AbsentBeforeSwap(st: Store, primary: string, target: string, x: SwitchIn, id: string)
    requires id !in st.fsm.directives && UntouchedThroughout(x, id) && id != CheckpointOrder(primary, x).id
    ensures var st1 := Propose(st, x.checkpoint, PublishDirective(CheckpointOrder(primary, x)));
            var st2 := AwaitDirective(st1, CheckpointOrder(primary, x).id, x.polls).0;
            && id !in st1.fsm.directives && id !in st2.fsm.directives
            && id !in AwaitSync(st2, target, x.syncPolls).0.fsm.directives
  {
    HearKeepsAbsent(st, x.checkpoint.others, id);
    var st1 := Propose(st, x.checkpoint, PublishDirective(CheckpointOrder(primary, x)));
    WaitsKeepAbsent(st1, id, x.polls, CheckpointOrder(primary, x).id, target);
    WaitsKeepAbsent(AwaitDirective(st1, CheckpointOrder(primary, x).id, x.polls).0, id, x.syncPolls, id, target);
  }

  lemma SwapLeavesDemote(c: Ctrl, st: Store, primary: string, target: string, x: SwitchIn)
    requires !SwapRoles(c, st, primary, target, x).2
    requires var id := DemoteOrder(primary, target, x).id;
             id !in st.fsm.directives && Untouched(x.demote.others, id) && Untouched(x.promote.others, id)
    ensures Shows(SwapRoles(c, st, primary, target, x).1.fsm, DemoteOrder(primary, target, x)) <==> x.demote.Commits()
  {
    var demote := DemoteOrder(primary, target, x);
    HearKeepsAbsent(st, x.demote.others, demote.id);
    if x.demote.Commits() {
      HearKeepsPending(Propose(st, x.demote, PublishDirective(demote)), x.promote.others, demote);
    }
  }

  /**
   * An error return leaves DEMOTE of the running primary pending and no longer monitored, with no PROMOTE to follow it,
   * if and only if the switchover got as far as committing DEMOTE.
   */
  lemma FailedSwitchoverLeavesDemotePending(c: Ctrl, st: Store, primary: string, target: string, x: SwitchIn)
    requires !RunSwitchover(c, st, primary, target, x).2
    requires var id := DemoteOrder(primary, target, x).id; id !in st.fsm.directives && UntouchedThroughout(x, id)
    ensures var (c', st', _) := RunSwitchover(c, st, primary, target, x);
            && c' == CLEARED
            && (Shows(st'.fsm, DemoteOrder(primary, target, x)) <==>
                  ReachesSwap(st, primary, target, x) && x.demote.Commits())
  {
    var id := DemoteOrder(primary, target, x).id;
    var _ := SwitchoverCommits(c, st, primary, target, x);
    CheckpointAndDemoteIdsDiffer(primary, primary, x.now, x.later);
    AbsentBeforeSwap(st, primary, target, x, id);
    ReachesIff(st, primary, target, x);
    if ReachesSwap(st, primary, target, x) {
      var st1 := Propose(st, x.checkpoint, PublishDirective(CheckpointOrder(primary, x)));
      var st2 := AwaitDirective(st1, CheckpointOrder(primary, x).id, x.polls).0;
      SwapLeavesDemote(c, AwaitSync(st2, target, x.syncPolls).0, primary, target, x);
    }
  }
}
