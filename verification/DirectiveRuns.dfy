/** How often a directive is executed, over whole runs of a node (internal/cluster/manager.go). */
module DirectiveRuns {
  import opened Fsm
  import opened ReplicatedLog
  import opened Store
  import opened Switchover
  import opened NodeManager
  import opened NodeRuns
  import ClusterFsm
  import Failover

  function Listed(execs: seq<Execution>): (r: seq<Directive>)
    ensures |r| == |execs| && forall i :: 0 <= i < |r| ==> r[i] == execs[i].d
  {
    seq(|execs|, i requires 0 <= i < |execs| => execs[i].d)
  }

  /** The tick executes what GetDirectivesForNode returned at its start, in whatever order. */
  ghost predicate Reads(cfg: ManagerConfig, w: World, x: TickIn) {
    ClusterFsm.ListsDirectives(Listed(x.execs), PendingFor(w.store.fsm, cfg.name))
  }

  predicate Executes(x: TickIn, d: Directive) {
    d in Listed(x.execs)
  }

  predicate ExecutesId(step: NodeManager.Step, id: string) {
    step.DoTick? && exists m :: 0 <= m < |step.x.execs| && step.x.execs[m].d.id == id
  }

  /** A run in which every tick executes what it reads. */
  ghost predicate Faithful(cfg: ManagerConfig, run: seq<World>, steps: seq<NodeManager.Step>) {
    && NodeRuns.IsRun(cfg, run, steps)
    && forall i :: 0 <= i < |steps| && steps[i].DoTick? ==> Reads(cfg, run[i], steps[i].x)
  }

  lemma ReadsTheOpen(cfg: ManagerConfig, w: World, x: TickIn, d: Directive)
    requires Valid(w.store) && Reads(cfg, w, x)
    ensures Executes(x, d) <==> d.target == cfg.name && Open(Cmds(w.store.log), d)
  {
    PendingQueueIsTheOpenDirectives(w.store.fsm, Cmds(w.store.log), cfg.name, d);
  }

  /**
   * A tick executes exactly the directives for this node that the log leaves open when the tick starts: published as
   * pending, with no later COMPLETE and no later publication of that ID.
   */
  lemma ExecutedIffOpen(cfg: ManagerConfig, run: seq<World>, steps: seq<NodeManager.Step>, i: nat, d: Directive)
    requires Faithful(cfg, run, steps) && i < |steps| && steps[i].DoTick?
    ensures Executes(steps[i].x, d) <==> d.target == cfg.name && Open(Cmds(run[i].store.log), d)
  {
    RunValid(cfg, run, steps, i);
    ReadsTheOpen(cfg, run[i], steps[i].x, d);
  }

  // ---------------------------------------------------------------- the completion attempts

  predicate GivesUp(a: Attempt) {
    a.turn.Commits() || a.cancelled
  }

  /** Attempt j, one of five, commits, and every attempt from k before it failed without the context ending. */
  predicate CommitsAt(attempt: nat -> Attempt, k: nat, j: nat) {
    k <= j < 5 && attempt(j).turn.Commits() && forall i: nat :: k <= i < j ==> !GivesUp(attempt(i))
  }

  predicate Commits(attempt: nat -> Attempt, k: nat) {
    exists j: nat :: j < 5 && CommitsAt(attempt, k, j)
  }

  lemma CommitsLater(attempt: nat -> Attempt, k: nat)
    requires k + 1 < MAX_ATTEMPTS && !GivesUp(attempt(k))
    ensures Commits(attempt, k) <==> Commits(attempt, k + 1)
  {
    if Commits(attempt, k) {
      var j: nat :| j < 5 && CommitsAt(attempt, k, j);
      assert j != k;
      assert CommitsAt(attempt, k + 1, j);
    }
    if Commits(attempt, k + 1) {
      var j: nat :| j < 5 && CommitsAt(attempt, k + 1, j);
      forall i: nat | k <= i < j ensures !GivesUp(attempt(i)) {
        assert i == k || k + 1 <= i;
      }
      assert CommitsAt(attempt, k, j);
    }
  }

  lemma CommitsNow(attempt: nat -> Attempt, k: nat)
    requires k < MAX_ATTEMPTS && (GivesUp(attempt(k)) || k + 1 == MAX_ATTEMPTS)
    ensures Commits(attempt, k) <==> attempt(k).turn.Commits()
  {
    if attempt(k).turn.Commits() {
      assert CommitsAt(attempt, k, k);
    }
    if Commits(attempt, k) {
      var j: nat :| j < 5 && CommitsAt(attempt, k, j);
      assert j == k || !GivesUp(attempt(k));
    }
  }

  /** st continues from; if yes, it ends in this node's entry, which is all the node added, else it added nothing. */
  predicate AddsIf(from: Store, st: Store, entry: Command, yes: bool) {
    && Extends(from, st)
    && Own(st.log) == (if yes then Own(from.log) + [entry] else Own(from.log))
    && (yes ==> |st.log| > |from.log| && st.log[|st.log| - 1] == Logged(entry, true))
  }

  lemma ProposeAdds(st: Store, turn: Turn, cmd: Command)
    ensures AddsIf(st, Propose(st, turn, cmd), cmd, turn.Commits())
  {
    ProposeOwn(st, turn, cmd);
    if turn.Commits() {
      ProposeAt(st, turn, cmd);
    }
  }

  lemma AddsLater(a: Store, b: Store, c: Store, entry: Command, yes: bool)
    requires AddsIf(a, b, entry, false) && AddsIf(b, c, entry, yes)
    ensures AddsIf(a, c, entry, yes)
  {
  }

  /** The attempts commit one COMPLETE, as the last entry, exactly when one succeeds before the retries end. */
  lemma {:induction false} CompletionCommits(w: World, id: string, error: string, attempt: nat -> Attempt, k: nat)
    requires k < MAX_ATTEMPTS
    ensures AddsIf(w.store, Complete(w, id, error, attempt, k).store, CompleteDirective(id, error), Commits(attempt, k))
    decreases MAX_ATTEMPTS - k
  {
    var a := attempt(k);
    var entry := CompleteDirective(id, error);
    ProposeAdds(w.store, a.turn, entry);
    if GivesUp(a) || k + 1 == MAX_ATTEMPTS {
      CommitsNow(attempt, k);
    } else {
      var w1 := Retrying(w, id, error, a);
      var w2 := Complete(w1, id, error, attempt, k + 1);
      assert Complete(w, id, error, attempt, k) == w2;
      CommitsLater(attempt, k);
      CompletionCommits(w1, id, error, attempt, k + 1);
      AddsLater(w.store, w1.store, w2.store, entry, Commits(attempt, k));
    }
  }

  /** How many of the attempts made from k on were refused for want of leadership. */
  function Refused(attempt: nat -> Attempt, k: nat): nat
    requires k < MAX_ATTEMPTS
    decreases MAX_ATTEMPTS - k
  {
    (if attempt(k).turn.leads then 0 else 1)
    + if GivesUp(attempt(k)) || k + 1 == MAX_ATTEMPTS then 0 else Refused(attempt, k + 1)
  }

  /** A committed completion ends every back-off; otherwise each attempt refused for want of leadership is an error. */
  lemma {:induction false} CompletionTracksErrors(w: World, id: string, error: string, attempt: nat -> Attempt, k: nat)
    requires k < MAX_ATTEMPTS
    ensures var n := Complete(w, id, error, attempt, k).node;
            && (Commits(attempt, k) ==> n.raftErrors == 0 && forall now :: !InBackoff(n, now))
            && (!Commits(attempt, k) ==> n.raftErrors == w.node.raftErrors + Refused(attempt, k))
    decreases MAX_ATTEMPTS - k
  {
    var a := attempt(k);
    if GivesUp(a) || k + 1 == MAX_ATTEMPTS {
      CommitsNow(attempt, k);
    } else {
      CommitsLater(attempt, k);
      CompletionTracksErrors(Retrying(w, id, error, a), id, error, attempt, k + 1);
    }
  }

  /** A committed completion leaves its outcome on record. */
  lemma {:induction false} CompletionRecords(w: World, id: string, error: string, attempt: nat -> Attempt, k: nat)
    requires k < MAX_ATTEMPTS && Commits(attempt, k)
    ensures var s := Complete(w, id, error, attempt, k).store.fsm;
            id in s.directives ==>
              && s.directives[id].status == (if error == "" then Completed else Failed)
              && (error != "" ==> s.directives[id].error == error)
    decreases MAX_ATTEMPTS - k
  {
    var a := attempt(k);
    if GivesUp(a) || k + 1 == MAX_ATTEMPTS {
      CommitsNow(attempt, k);
    } else {
      CommitsLater(attempt, k);
      CompletionRecords(Retrying(w, id, error, a), id, error, attempt, k + 1);
    }
  }

  /** Everything the directive asks for was done: the programs it runs succeeded, with the parameter it needs. */
  predicate Worked(e: Execution) {
    match e.d.kind
    case Fence => e.run1
    case Promote => e.run1
    case Checkpoint => e.run1
    case Demote => e.run1 && e.run2 && e.run3
    case Rewind => e.run1 && "target_primary" in e.d.params && e.d.params["target_primary"] != ""
    case Basebackup => e.run1 && "primary_host" in e.d.params && e.d.params["primary_host"] != ""
    case OtherKind(_) => false
  }

  /** If its completion commits, a directive on record ends as completed if and only if it worked, else as failed. */
  lemma OutcomeIsRecorded(cfg: ManagerConfig, w: World, e: Execution)
    requires Commits(e.attempt, 0) && e.d.id in ProcessOne(cfg, w, e).store.fsm.directives
    ensures ProcessOne(cfg, w, e).store.fsm.directives[e.d.id].status == Completed <==> Worked(e)
    ensures ProcessOne(cfg, w, e).store.fsm.directives[e.d.id].status == Failed <==> !Worked(e)
  {
    var (w1, error) := Execute(cfg, w, e);
    CompletionRecords(w1, e.d.id, error, e.attempt, 0);
  }

  predicate CompletesAt(log: seq<Logged>, k: int, id: string) {
    0 <= k < |log| && log[k].cmd.CompleteDirective? && log[k].cmd.id == id
  }

  lemma ProcessOneCommits(cfg: ManagerConfig, w: World, e: Execution)
    ensures var st := ProcessOne(cfg, w, e).store;
            && Extends(w.store, st)
            && (Commits(e.attempt, 0) ==> |st.log| > |w.store.log| && CompletesAt(st.log, |st.log| - 1, e.d.id))
  {
    var (w1, error) := Execute(cfg, w, e);
    ExecuteQuiet(cfg, w, e);
    CompletionCommits(w1, e.d.id, error, e.attempt, 0);
  }

  lemma {:induction false} ProcessCommits(cfg: ManagerConfig, w: World, execs: seq<Execution>, m: nat) returns (k: nat)
    requires m < |execs| && Commits(execs[m].attempt, 0)
    ensures |w.store.log| <= k && CompletesAt(Process(cfg, w, execs).store.log, k, execs[m].d.id)
  {
    var n := |execs| - 1;
    ProcessQuiet(cfg, w, execs[..n]);
    ProcessOneCommits(cfg, Process(cfg, w, execs[..n]), execs[n]);
    if m == n {
      k := |Process(cfg, w, execs).store.log| - 1;
    } else {
      k := ProcessCommits(cfg, w, execs[..n], m);
    }
  }

  // ---------------------------------------------------------------- executed once

  /** Entry k completes the ID, and no later entry publishes it. */
  predicate Over(log: seq<Logged>, id: string, k: nat) {
    && CompletesAt(log, k, id)
    && forall j :: k < j < |log| ==> !Republishes(log[j].cmd, id)
  }

  lemma OverIsNotOpen(log: seq<Logged>, d: Directive, k: nat)
    requires Over(log, d.id, k)
    ensures !Open(Cmds(log), d)
  {
  }

  /** No tick that starts after a COMPLETE was applied locally executes that directive, unless published again. */
  lemma NotExecutedAfterComplete(cfg: ManagerConfig, run: seq<World>, steps: seq<NodeManager.Step>, j: nat,
                                 id: string, k: nat)
    requires Faithful(cfg, run, steps) && j < |steps| && Over(run[j].store.log, id, k)
    ensures !ExecutesId(steps[j], id)
  {
    if ExecutesId(steps[j], id) {
      var m :| 0 <= m < |steps[j].x.execs| && steps[j].x.execs[m].d.id == id;
      var d := steps[j].x.execs[m].d;
      assert Listed(steps[j].x.execs)[m] == d;
      ExecutedIffOpen(cfg, run, steps, j, d);
      OverIsNotOpen(run[j].store.log, d, k);
    }
  }

  lemma TickCommits(cfg: ManagerConfig, w: World, x: TickIn, m: nat) returns (k: nat)
    requires m < |x.execs| && Commits(x.execs[m].attempt, 0)
    ensures |w.store.log| <= k && CompletesAt(Tick(cfg, w, x).store.log, k, x.execs[m].d.id)
  {
    k := ProcessCommits(cfg, w, x.execs, m);
    var w1 := Process(cfg, w, x.execs);
    OpeningAfterProcess(cfg, w, x);
    var w2 := Opening(cfg, w, x);
    ProposeOwn(w2.store, x.report, HealthReport(cfg, w2.node, x.status, x.report.at));
    SettleExtends(cfg, Reported(cfg, w, x), x);
    assert w1.store.log <= Tick(cfg, w, x).store.log;
  }

  lemma OpeningAfterProcess(cfg: ManagerConfig, w: World, x: TickIn)
    ensures Extends(Process(cfg, w, x.execs).store, Opening(cfg, w, x).store)
  {
    var w1 := Process(cfg, w, x.execs);
    MonitorAllQuiet(w1.store, w1.ctrl.ids, Failover.TimedOut(w1.ctrl, x.monitor.now), x.monitor);
  }

  /**
   * If one of the completion attempts commits in the tick that first executes a directive, that tick is the only one
   * ever to execute it, as long as nobody publishes the ID after that tick started.
   */
  lemma ExecutedExactlyOnce(cfg: ManagerConfig, run: seq<World>, steps: seq<NodeManager.Step>, i: nat, m: nat,
                            id: string)
    requires Faithful(cfg, run, steps) && i < |steps| && steps[i].DoTick?
    requires m < |steps[i].x.execs| && steps[i].x.execs[m].d.id == id && Commits(steps[i].x.execs[m].attempt, 0)
    requires forall j :: 0 <= j < i ==> !ExecutesId(steps[j], id)
    requires var log := run[|steps|].store.log;
             forall p :: |run[i].store.log| <= p < |log| ==> !Republishes(log[p].cmd, id)
    ensures forall j :: 0 <= j < |steps| ==> (ExecutesId(steps[j], id) <==> j == i)
  {
    var k := TickCommits(cfg, run[i], steps[i].x, m);
    forall j | i < j < |steps| ensures !ExecutesId(steps[j], id) {
      RunExtends(cfg, run, steps, i + 1, j);
      RunExtends(cfg, run, steps, j, |steps|);
      assert Over(run[j].store.log, id, k);
      NotExecutedAfterComplete(cfg, run, steps, j, id, k);
    }
  }

  /** Nothing between two points of a log that extends another touches the ID. */
  predicate UntouchedSince(log: seq<Logged>, from: nat, id: string) {
    forall p :: from <= p < |log| ==> !Touches(log[p].cmd, id)
  }

  /** A directive opened at entry k is executed by every tick from then on, until an entry touches its ID. */
  lemma ExecutedUntilTouched(cfg: ManagerConfig, run: seq<World>, steps: seq<NodeManager.Step>, i: nat, j: nat,
                             d: Directive, k: nat)
    requires Faithful(cfg, run, steps) && i <= j < |steps| && d.target == cfg.name
    requires k < |run[i].store.log| && OpenedAt(Cmds(run[i].store.log), k, d)
    requires UntouchedSince(run[j].store.log, |run[i].store.log|, d.id)
    ensures forall t :: i <= t <= j && steps[t].DoTick? ==> Executes(steps[t].x, d)
  {
    forall t | i <= t <= j && steps[t].DoTick? ensures Executes(steps[t].x, d) {
      RunExtends(cfg, run, steps, i, t);
      RunExtends(cfg, run, steps, t, j);
      CmdsGrow(run[i].store.log, run[t].store.log);
      StillOpen(Cmds(run[i].store.log), Cmds(run[t].store.log), d, k);
      ExecutedIffOpen(cfg, run, steps, t, d);
    }
  }

  lemma StillOpen(early: seq<Command>, log: seq<Command>, d: Directive, k: nat)
    requires early <= log && k < |early| && OpenedAt(early, k, d)
    requires forall p :: |early| <= p < |log| ==> !Touches(log[p], d.id)
    ensures Open(log, d)
  {
    assert forall p :: 0 <= p < |early| ==> early[p] == log[p];
    assert OpenedAt(log, k, d);
  }
}
