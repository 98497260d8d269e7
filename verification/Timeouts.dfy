/** What the timeout of a monitored operation does to its directives (internal/cluster/failover.go). */
module Timeouts {
  import opened Fsm
  import opened ReplicatedLog
  import opened Store
  import opened Failover

  // ---------------------------------------------------------------- commands that leave a directive alone

  /** Commands that neither publish, complete nor clean up the directive. */
  predicate Leaves(others: seq<Entry>, id: string) {
    forall i :: 0 <= i < |others| ==> !Touches(others[i].cmd, id) && !others[i].cmd.CleanupDirectives?
  }

  /** Both states have the same record of the directive, or none. */
  predicate SameRecord(s: State, t: State, id: string) {
    (id in s.directives <==> id in t.directives) && (id in s.directives ==> s.directives[id] == t.directives[id])
  }

  lemma {:induction false} HearLeaves(st: Store, others: seq<Entry>, id: string)
    requires Leaves(others, id)
    ensures SameRecord(st.fsm, Hear(st, others).fsm, id)
  {
    if others != [] {
      HearLeaves(st, others[..|others| - 1], id);
    }
  }

  /** Nobody else touches the directive around the reads and writes from the i-th on. */
  ghost predicate LeftAlone(x: MonitorIn, i: nat, n: nat, id: string) {
    forall j: nat :: i <= j < n ==> Leaves(x.heard(j), id) && Leaves(x.write(j).others, id)
  }

  lemma MonitorOneLeaves(st: Store, other: string, timedOut: bool, heard: seq<Entry>, write: Turn, id: string)
    requires other != id && Leaves(heard, id) && Leaves(write.others, id)
    ensures SameRecord(st.fsm, MonitorOne(st, other, timedOut, heard, write).0.fsm, id)
  {
    HearLeaves(st, heard, id);
    HearLeaves(Hear(st, heard), write.others, id);
  }

  /** From the i-th directive on, a pass leaves the record of any other one alone. */
  lemma {:induction false} PassLeaves(st: Store, ids: seq<string>, timedOut: bool, x: MonitorIn, i: nat, id: string)
    requires i <= |ids| && LeftAlone(x, i, |ids|, id) && forall j :: i <= j < |ids| ==> ids[j] != id
    ensures SameRecord(MonitorAll(st, ids[..i], timedOut, x).0.fsm, MonitorAll(st, ids, timedOut, x).0.fsm, id)
  {
    if i == |ids| {
      assert ids[..i] == ids;
    } else {
      var n := |ids| - 1;
      PassLeaves(st, ids[..n], timedOut, x, i, id);
      assert ids[..n][..i] == ids[..i];
      MonitorOneLeaves(MonitorAll(st, ids[..n], timedOut, x).0, ids[n], timedOut, x.heard(n), x.write(n), id);
    }
  }

  predicate NoRepeats(ids: seq<string>) {
    forall i, j :: 0 <= i < j < |ids| ==> ids[i] != ids[j]
  }

  /** The store when the pass comes to its i-th directive, and what it has heard when it reads that directive. */
  function Before(c: Ctrl, st: Store, x: MonitorIn, i: nat): Store
    requires i <= |c.ids|
  {
    MonitorAll(st, c.ids[..i], TimedOut(c, x.now), x).0
  }

  function AtRead(c: Ctrl, st: Store, x: MonitorIn, i: nat): Store
    requires i <= |c.ids|
  {
    Hear(Before(c, st, x, i), x.heard(i))
  }

  lemma MonitorFrom(c: Ctrl, st: Store, x: MonitorIn, i: nat)
    requires c.inFlight && i < |c.ids| && NoRepeats(c.ids) && LeftAlone(x, i + 1, |c.ids|, c.ids[i])
    ensures var one := MonitorOne(Before(c, st, x, i), c.ids[i], TimedOut(c, x.now), x.heard(i), x.write(i)).0;
            SameRecord(one.fsm, Monitor(c, st, x).1.fsm, c.ids[i])
  {
    PassLeaves(st, c.ids, TimedOut(c, x.now), x, i + 1, c.ids[i]);
    assert c.ids[..i + 1][..i] == c.ids[..i];
  }

  // ---------------------------------------------------------------- a completion that comes just in time

  /** The directive reads as pending, and a clean COMPLETE lands before the pass writes. */
  predicate CompletesInBetween(c: Ctrl, st: Store, x: MonitorIn, i: nat)
    requires i < |c.ids|
  {
    && IsPending(AtRead(c, st, x, i).fsm, c.ids[i])
    && ShowsAs(Hear(AtRead(c, st, x, i), x.write(i).others).fsm, c.ids[i], Completed)
  }

  /**
   * Past the timeout, a completion that lands between the read and the write of its directive survives the pass if and
   * only if that write does not commit; otherwise the directive ends as failed.
   */
  lemma TimeoutOverwritesCompletion(c: Ctrl, st: Store, x: MonitorIn, i: nat)
    requires c.inFlight && i < |c.ids| && NoRepeats(c.ids) && LeftAlone(x, i + 1, |c.ids|, c.ids[i])
    requires TimedOut(c, x.now) && CompletesInBetween(c, st, x, i)
    ensures ShowsAs(Monitor(c, st, x).1.fsm, c.ids[i], Completed) <==> !x.write(i).Commits()
    ensures ShowsAs(Monitor(c, st, x).1.fsm, c.ids[i], Failed) <==> x.write(i).Commits()
  {
    MonitorFrom(c, st, x, i);
  }

  lemma {:induction false} QuietPass(st: Store, ids: seq<string>, x: MonitorIn)
    ensures Own(MonitorAll(st, ids, false, x).0.log) == Own(st.log)
  {
    if ids != [] {
      var n := |ids| - 1;
      QuietPass(st, ids[..n], x);
      HearOwn(MonitorAll(st, ids[..n], false, x).0, x.heard(n));
    }
  }

  /** Before the timeout a pass writes nothing, so no completion is lost. */
  lemma NoTimeoutNoWrite(c: Ctrl, st: Store, x: MonitorIn)
    requires !TimedOut(c, x.now)
    ensures Own(Monitor(c, st, x).1.log) == Own(st.log)
  {
    QuietPass(st, c.ids, x);
  }

  /** Such a completion can be lost for any pending directive: it lands just before a timeout that commits. */
  lemma CompletionCanBeLost(c: Ctrl, st: Store, d: Directive) returns (x: MonitorIn)
    requires c.inFlight && c.ids == [d.id] && Shows(st.fsm, d) && d.status == Pending
    ensures TimedOut(c, x.now) && x.write(0).others == [Entry(CompleteDirective(d.id, ""), x.now)]
    ensures CompletesInBetween(c, st, x, 0) && ShowsAs(Monitor(c, st, x).1.fsm, d.id, Failed)
  {
    var now := c.startTime + DIRECTIVE_TIMEOUT + 1;
    var complete := Entry(CompleteDirective(d.id, ""), now);
    x := MonitorIn(now, _ => [], _ => Turn([complete], true, true, now));
    assert c.ids[..0] == [] && [complete][..0] == [];
    assert Before(c, st, x, 0) == st && Hear(st, []) == st;
    TimeoutOverwritesCompletion(c, st, x, 0);
  }

  // ---------------------------------------------------------------- a directive that nobody completes

  lemma {:induction false} PendingBlocks(st: Store, ids: seq<string>, x: MonitorIn, i: nat)
    requires i < |ids| && IsPending(st.fsm, ids[i]) && LeftAlone(x, 0, |ids|, ids[i])
    ensures !MonitorAll(st, ids, false, x).1
    ensures IsPending(MonitorAll(st, ids, false, x).0.fsm, ids[i])
  {
    var n := |ids| - 1;
    var st1 := MonitorAll(st, ids[..n], false, x).0;
    if i < n {
      PendingBlocks(st, ids[..n], x, i);
    } else {
      QuietPassLeaves(st, ids[..n], x, ids[i]);
    }
    HearLeaves(st1, x.heard(n), ids[i]);
  }

  lemma {:induction false} QuietPassLeaves(st: Store, ids: seq<string>, x: MonitorIn, id: string)
    requires LeftAlone(x, 0, |ids|, id)
    ensures SameRecord(st.fsm, MonitorAll(st, ids, false, x).0.fsm, id)
  {
    if ids != [] {
      var n := |ids| - 1;
      QuietPassLeaves(st, ids[..n], x, id);
      HearLeaves(MonitorAll(st, ids[..n], false, x).0, x.heard(n), id);
    }
  }

  /**
   * While a tracked directive stays pending and nobody touches it, a pass ends the operation if and only if it has
   * timed out, and the directive then ends as failed if and only if the pass's write for it commits.
   */
  lemma PendingEndsByTimeout(c: Ctrl, st: Store, x: MonitorIn, i: nat)
    requires c.inFlight && i < |c.ids| && NoRepeats(c.ids) && IsPending(st.fsm, c.ids[i])
    requires LeftAlone(x, 0, |c.ids|, c.ids[i])
    ensures Monitor(c, st, x).2 <==> TimedOut(c, x.now)
    ensures ShowsAs(Monitor(c, st, x).1.fsm, c.ids[i], Failed) <==> TimedOut(c, x.now) && x.write(i).Commits()
  {
    var id := c.ids[i];
    if TimedOut(c, x.now) {
      PassLeaves(st, c.ids[..i], true, x, 0, id);
      assert c.ids[..i][..0] == [];
      HearLeaves(Before(c, st, x, i), x.heard(i), id);
      HearLeaves(AtRead(c, st, x, i), x.write(i).others, id);
      MonitorFrom(c, st, x, i);
    } else {
      PendingBlocks(st, c.ids, x, i);
    }
  }

  // ---------------------------------------------------------------- when an operation ends

  /** What the node has when a pass that writes nothing reads its i-th directive. */
  function HeardUpTo(st: Store, x: MonitorIn, i: nat): Store {
    Hear(if i == 0 then st else HeardUpTo(st, x, i - 1), x.heard(i))
  }

  lemma {:induction false} QuietPassIs(st: Store, ids: seq<string>, x: MonitorIn)
    ensures ids != [] ==> MonitorAll(st, ids, false, x).0 == HeardUpTo(st, x, |ids| - 1)
    ensures MonitorAll(st, ids, false, x).1 <==>
              forall i: nat :: i < |ids| ==> !IsPending(HeardUpTo(st, x, i).fsm, ids[i])
  {
    if ids != [] {
      var n := |ids| - 1;
      QuietPassIs(st, ids[..n], x);
      assert MonitorAll(st, ids[..n], false, x).0 == if n == 0 then st else HeardUpTo(st, x, n - 1);
      assert forall i: nat :: i < n ==> ids[..n][i] == ids[i];
    }
  }

  lemma {:induction false} HeardValid(st: Store, x: MonitorIn, i: nat)
    requires Valid(st)
    ensures Valid(HeardUpTo(st, x, i))
  {
    if i > 0 {
      HeardValid(st, x, i - 1);
    }
    HearValid(if i == 0 then st else HeardUpTo(st, x, i - 1), x.heard(i));
  }

  /** The log leaves a directive of that ID open. */
  ghost predicate LeavesOpen(log: seq<Logged>, id: string) {
    exists d: Directive :: d.id == id && Open(Cmds(log), d)
  }

  /**
   * Before its timeout an operation ends at the first pass that finds, for every tracked ID, no open directive in the
   * log it has heard by then; until that pass the controller is untouched.
   */
  lemma EndsWhenAllResolved(c: Ctrl, st: Store, x: MonitorIn)
    requires Valid(st) && c.inFlight && c.ids != [] && !TimedOut(c, x.now)
    ensures Monitor(c, st, x).2 <==> forall i: nat :: i < |c.ids| ==> !LeavesOpen(HeardUpTo(st, x, i).log, c.ids[i])
    ensures Monitor(c, st, x).0 == if Monitor(c, st, x).2 then CLEARED else c
  {
    QuietPassIs(st, c.ids, x);
    forall i: nat ensures IsPending(HeardUpTo(st, x, i).fsm, c.ids[if i < |c.ids| then i else 0])
                          <==> LeavesOpen(HeardUpTo(st, x, i).log, c.ids[if i < |c.ids| then i else 0]) {
      HeardValid(st, x, i);
      IsPendingIffOpen(HeardUpTo(st, x, i).fsm, Cmds(HeardUpTo(st, x, i).log), c.ids[if i < |c.ids| then i else 0]);
    }
  }
}
