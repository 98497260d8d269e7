/**
 * What the replicated log alone determines. Apply reads each replica's own clock, so replicas differ in completion
 * times and in when they forget finished directives; everything else follows from the log.
 */
module ReplicatedLog {
  import opened Base
  import opened Fsm

  // ---------------------------------------------------------------- the clock-free account of a log

  /** A directive as the log determines it: its completion time is unknown once it is finished. */
  datatype Record = Record(d: Directive, finished: bool)

  function Note(book: map<string, Record>, c: Command): map<string, Record> {
    match c
    case PublishDirective(d) => book[d.id := Record(d, false)]
    case CompleteDirective(id, error) =>
      if id in book then book[id := Record(Finish(book[id].d, error, ZERO_TIME), true)] else book
    case _ => book
  }

  /** Every directive ever published, never cleaned up. */
  function Book(log: seq<Command>): map<string, Record> {
    if log == [] then map[] else Note(Book(log[..|log| - 1]), log[|log| - 1])
  }

  /** The part of the state that has no clock in it. */
  function Clockless(s: State): State {
    s.(directives := map[], pg := s.pg.(updatedAt := ZERO_TIME))
  }

  function Core(log: seq<Command>): State {
    if log == [] then INITIAL else Clockless(Apply(Core(log[..|log| - 1]), log[|log| - 1], ZERO_TIME))
  }

  predicate SameButTime(a: Directive, b: Directive) {
    a.(completedAt := ZERO_TIME) == b.(completedAt := ZERO_TIME)
  }

  /** A replica's directives against the book: what it still has agrees, and what it forgot is finished. */
  ghost predicate Matches(directives: map<string, Directive>, book: map<string, Record>) {
    && (forall id :: id in directives ==>
          id in book && if book[id].finished then SameButTime(directives[id], book[id].d)
                        else directives[id] == book[id].d)
    && (forall id :: id in book && id !in directives ==> book[id].d.status != Pending)
    && (forall id :: id in book && book[id].finished ==> book[id].d.status != Pending)
  }

  /** s is a state a replica may be in after applying the log, whatever its clock read. */
  ghost predicate Conforms(s: State, log: seq<Command>) {
    Clockless(s) == Core(log) && WellKeyed(s) && Matches(s.directives, Book(log))
  }

  lemma MatchesStep(s: State, book: map<string, Record>, c: Command, now: Time)
    requires Matches(s.directives, book)
    ensures Matches(Apply(s, c, now).directives, Note(book, c))
  {
    match c {
      case PublishDirective(_) =>
      case CompleteDirective(_, _) =>
      case CleanupDirectives(_) =>
      case _ =>
        assert Apply(s, c, now).directives == s.directives && Note(book, c) == book;
    }
  }

  lemma ConformsStep(s: State, log: seq<Command>, c: Command, now: Time)
    requires Conforms(s, log)
    ensures Conforms(Apply(s, c, now), log + [c])
  {
    assert (log + [c])[..|log|] == log;
    assert Clockless(Core(log)) == Core(log);
    ApplyKeepsKeys(s, c, now);
    MatchesStep(s, Book(log), c, now);
  }

  function Commands(entries: seq<Entry>): (log: seq<Command>)
    ensures |log| == |entries|
  {
    seq(|entries|, i requires 0 <= i < |entries| => entries[i].cmd)
  }

  /** Whatever the clock readings, a replica that applied a log conforms to it. */
  lemma {:induction false} RunConforms(entries: seq<Entry>)
    ensures Conforms(Run(INITIAL, entries), Commands(entries))
  {
    if entries != [] {
      var init, last := entries[..|entries| - 1], entries[|entries| - 1];
      RunConforms(init);
      ConformsStep(Run(INITIAL, init), Commands(init), last.cmd, last.now);
      assert Commands(entries) == Commands(init) + [last.cmd];
    }
  }

  // ---------------------------------------------------------------- replica agreement

  /** Equal except for local times; a directive only one of the two still has is finished. */
  ghost predicate Agree(a: State, b: State) {
    && a.nodes == b.nodes && a.primaryName == b.primaryName && a.splitBrain == b.splitBrain
    && a.pg.parameters == b.pg.parameters && a.pg.version == b.pg.version && a.pg.updatedBy == b.pg.updatedBy
    && (forall id :: id in a.directives && id in b.directives ==> SameButTime(a.directives[id], b.directives[id]))
    && (forall id :: id in a.directives && id !in b.directives ==> a.directives[id].status != Pending)
    && (forall id :: id in b.directives && id !in a.directives ==> b.directives[id].status != Pending)
  }

  lemma ConformingStatesAgree(a: State, b: State, log: seq<Command>)
    requires Conforms(a, log) && Conforms(b, log)
    ensures Agree(a, b)
  {
  }

  /** A replica and how much of the log it has applied. */
  datatype Peer = Peer(state: State, applied: nat)

  datatype Shot = Shot(data: Snapshot, applied: nat)

  /** A cluster: the committed log, the replicas, and every snapshot taken so far. */
  datatype Cluster = Cluster(log: seq<Command>, replicas: seq<Peer>, shots: seq<Shot>)

  datatype Step =
    | Commit(cmd: Command)
    | Advance(replica: nat, now: Time)
    | Persist(replica: nat)
    | Install(replica: nat, shot: nat)

  predicate Enabled(c: Cluster, step: Step) {
    match step
    case Commit(_) => true
    case Advance(r, _) => r < |c.replicas| && c.replicas[r].applied < |c.log|
    case Persist(r) => r < |c.replicas|
    case Install(r, k) => r < |c.replicas| && k < |c.shots|
  }

  function Next(c: Cluster, step: Step): Cluster
    requires Enabled(c, step)
  {
    match step
    case Commit(cmd) => c.(log := c.log + [cmd])
    case Advance(r, now) =>
      var x := c.replicas[r];
      c.(replicas := c.replicas[r := Peer(Apply(x.state, c.log[x.applied], now), x.applied + 1)])
    case Persist(r) => c.(shots := c.shots + [Shot(TakeSnapshot(c.replicas[r].state), c.replicas[r].applied)])
    case Install(r, k) => c.(replicas := c.replicas[r := Peer(Restore(c.shots[k].data), c.shots[k].applied)])
  }

  ghost predicate Inv(c: Cluster) {
    && (forall i :: 0 <= i < |c.replicas| ==>
          c.replicas[i].applied <= |c.log| && Conforms(c.replicas[i].state, c.log[..c.replicas[i].applied]))
    && (forall k :: 0 <= k < |c.shots| ==>
          c.shots[k].applied <= |c.log| && Conforms(Restore(c.shots[k].data), c.log[..c.shots[k].applied]))
  }

  /** The snapshot round trip is exact, including the omitted empty directive map. */
  lemma RestoreOfSnapshot(s: State)
    ensures Restore(TakeSnapshot(s)) == s
  {
  }

  lemma StepKeepsInv(c: Cluster, step: Step)
    requires Inv(c) && Enabled(c, step)
    ensures Inv(Next(c, step))
  {
    match step {
      case Commit(cmd) =>
        assert forall n :: 0 <= n <= |c.log| ==> (c.log + [cmd])[..n] == c.log[..n];
      case Advance(r, now) =>
        var x := c.replicas[r];
        ConformsStep(x.state, c.log[..x.applied], c.log[x.applied], now);
        assert c.log[..x.applied + 1] == c.log[..x.applied] + [c.log[x.applied]];
      case Persist(r) =>
        RestoreOfSnapshot(c.replicas[r].state);
      case Install(r, k) =>
    }
  }

  /** A run from a cluster of fresh replicas. */
  ghost predicate IsRun(run: seq<Cluster>, steps: seq<Step>) {
    && |run| == |steps| + 1
    && run[0].log == [] && run[0].shots == []
    && (forall i :: 0 <= i < |run[0].replicas| ==> run[0].replicas[i] == Peer(INITIAL, 0))
    && (forall i :: 0 <= i < |steps| ==>
          Enabled(run[i], steps[i]) && run[i + 1] == Next(run[i], steps[i]))
  }

  lemma {:induction false} RunKeepsInv(run: seq<Cluster>, steps: seq<Step>, i: nat)
    requires IsRun(run, steps) && i < |run|
    ensures Inv(run[i])
  {
    if i == 0 {
      assert run[0].log[..0] == [];
    } else {
      RunKeepsInv(run, steps, i - 1);
      StepKeepsInv(run[i - 1], steps[i - 1]);
    }
  }

  /**
   * In every reachable cluster, two replicas that applied the same prefix agree, whatever their clocks read and
   * however often either was restored from a snapshot of any replica at any cut.
   */
  lemma ReplicasAgree(run: seq<Cluster>, steps: seq<Step>, i: nat, a: nat, b: nat)
    requires IsRun(run, steps) && i < |run|
    requires a < |run[i].replicas| && b < |run[i].replicas|
    requires run[i].replicas[a].applied == run[i].replicas[b].applied
    ensures Agree(run[i].replicas[a].state, run[i].replicas[b].state)
  {
    RunKeepsInv(run, steps, i);
    var c := run[i];
    ConformingStatesAgree(c.replicas[a].state, c.replicas[b].state, c.log[..c.replicas[a].applied]);
  }

  // ---------------------------------------------------------------- the pending queue, read off the log

  /** Entry k touches the directive: it publishes it (again) or completes it. */
  predicate Touches(c: Command, id: string) {
    (c.PublishDirective? && c.d.id == id) || (c.CompleteDirective? && c.id == id)
  }

  /** Entry k publishes d as pending, and no later entry publishes or completes that ID. */
  predicate OpenedAt(log: seq<Command>, k: nat, d: Directive)
    requires k < |log|
  {
    && log[k] == PublishDirective(d) && d.status == Pending
    && forall j :: k < j < |log| ==> !Touches(log[j], d.id)
  }

  ghost predicate Open(log: seq<Command>, d: Directive) {
    exists k: nat :: k < |log| && OpenedAt(log, k, d)
  }

  lemma {:induction false} BookPendingIffOpen(log: seq<Command>, d: Directive)
    ensures Open(log, d) <==>
            d.id in Book(log) && !Book(log)[d.id].finished && Book(log)[d.id].d == d && d.status == Pending
  {
    if log != [] {
      var init, last := log[..|log| - 1], log[|log| - 1];
      BookPendingIffOpen(init, d);
      if Open(log, d) {
        var k: nat :| k < |log| && OpenedAt(log, k, d);
        if k < |init| {
          assert OpenedAt(init, k, d);
          assert !Touches(log[|log| - 1], d.id);
        }
      }
      if Open(init, d) && !Touches(last, d.id) {
        var k: nat :| k < |init| && OpenedAt(init, k, d);
        assert OpenedAt(log, k, d);
      }
      if last == PublishDirective(d) && d.status == Pending {
        assert OpenedAt(log, |log| - 1, d);
      }
    }
  }

  /**
   * The pending queue of a node is exactly the set of directives whose latest PUBLISH was pending for that node and
   * has no later COMPLETE: whatever the clocks, and wherever CLEANUP entries fall.
   */
  lemma PendingQueueIsTheOpenDirectives(s: State, log: seq<Command>, node: string, d: Directive)
    requires Conforms(s, log)
    ensures d.id in PendingFor(s, node) && PendingFor(s, node)[d.id] == d <==> d.target == node && Open(log, d)
  {
    BookPendingIffOpen(log, d);
  }

  /** The same for an ID: it is pending exactly when the log leaves a directive of that ID open. */
  lemma IsPendingIffOpen(s: State, log: seq<Command>, id: string)
    requires Conforms(s, log)
    ensures IsPending(s, id) <==> exists d: Directive :: d.id == id && Open(log, d)
  {
    if IsPending(s, id) {
      BookPendingIffOpen(log, s.directives[id]);
    }
    forall d: Directive | d.id == id && Open(log, d)
      ensures IsPending(s, id)
    {
      BookPendingIffOpen(log, d);
    }
  }

  // ---------------------------------------------------------------- completion, read off the log

  /** A COMPLETE entry for the ID that carries no error. */
  predicate CompletesCleanly(c: Command, id: string) {
    c == CompleteDirective(id, "")
  }
}
