/** The failover controller (internal/cluster/failover.go): decisions, directives it publishes, and their monitoring. */
module Failover {
  import opened Base
  import opened Fsm
  import opened ReplicatedLog
  import opened Store

  const DIRECTIVE_TIMEOUT: Time := 60 * SECOND

  datatype Config = Config(confirmationPeriod: Time, fencing: bool)

  datatype Ctrl = Ctrl(inFlight: bool, ids: seq<string>, startTime: Time, confirmationStart: Time)

  /** The state clearFailover leaves. */
  const CLEARED := Ctrl(false, [], ZERO_TIME, ZERO_TIME)

  // ---------------------------------------------------------------- directives

  function Decimal(n: nat): string {
    if n < 10 then [('0' as int + n) as char] else Decimal(n / 10) + [('0' as int + n % 10) as char]
  }

  function Signed(n: int): string {
    if n < 0 then "-" + Decimal(-n) else Decimal(n)
  }

  function Prefix(kind: Kind): string {
    match kind
    case Fence => "fence"
    case Promote => "promote"
    case Demote => "demote"
    case Checkpoint => "checkpoint"
    case Rewind => "rewind"
    case Basebackup => "basebackup"
    case OtherKind(name) => name
  }

  function DirectiveId(kind: Kind, node: string, now: Time): string {
    Prefix(kind) + "-" + node + "-" + Signed(now)
  }

  predicate Digits(s: string) {
    forall i :: 0 <= i < |s| ==> '0' <= s[i] <= '9'
  }

  /** The number a string of digits stands for. */
  function Number(s: string): nat
    requires Digits(s)
  {
    if s == "" then 0 else 10 * Number(s[..|s| - 1]) + (s[|s| - 1] as int - '0' as int)
  }

  lemma {:induction false} DecimalReadsBack(n: nat)
    ensures Digits(Decimal(n)) && Decimal(n) != "" && Number(Decimal(n)) == n
  {
    if n >= 10 {
      DecimalReadsBack(n / 10);
      assert Decimal(n)[..|Decimal(n)| - 1] == Decimal(n / 10);
    } else {
      assert Decimal(n)[..0] == "";
    }
  }

  lemma DashComesLast(a: string, b: string, x: string, y: string)
    requires a + "-" + x == b + "-" + y && Digits(y)
    ensures |y| <= |x|
  {
    var t := b + "-" + y;
    assert (a + "-" + x)[|a|] == '-';
    assert forall k :: |b| < k < |t| ==> t[k] == y[k - |b| - 1];
  }

  /** A text splits at its last dash in one way only. */
  lemma LastDash(a: string, b: string, x: string, y: string)
    requires a + "-" + x == b + "-" + y && Digits(x) && Digits(y)
    ensures a == b && x == y
  {
    DashComesLast(a, b, x, y);
    DashComesLast(b, a, y, x);
    assert (a + "-" + x)[..|a|] == a && (b + "-" + y)[..|b|] == b;
    assert (a + "-" + x)[|a| + 1..] == x && (b + "-" + y)[|b| + 1..] == y;
  }

  /** IDs of one kind tell nodes and times apart, whatever the node is called. */
  lemma IdsDiffer(kind: Kind, a: string, b: string, t: Time, u: Time)
    requires t >= 0 && u >= 0 && DirectiveId(kind, a, t) == DirectiveId(kind, b, u)
    ensures a == b && t == u
  {
    DecimalReadsBack(t);
    DecimalReadsBack(u);
    var p := Prefix(kind) + "-";
    LastDash(p + a, p + b, Decimal(t), Decimal(u));
    assert (p + a)[|p|..] == a && (p + b)[|p|..] == b;
  }

  function Order(kind: Kind, node: string, params: map<string, string>, now: Time): Directive {
    Directive(DirectiveId(kind, node, now), kind, node, params, Pending, now, ZERO_TIME, "")
  }

  // ---------------------------------------------------------------- deciding

  function ShouldFailover(cfg: Config, c: Ctrl, now: Time): (Ctrl, bool) {
    if c.inFlight then (c, false)
    else if c.confirmationStart == ZERO_TIME then (c.(confirmationStart := now), false)
    else (c, now - c.confirmationStart >= cfg.confirmationPeriod)
  }

  predicate Best(b: NodeInfo, replicas: seq<NodeInfo>, exclude: string) {
    && b in replicas && b.name != exclude
    && forall i :: 0 <= i < |replicas| && replicas[i].name != exclude ==> b.lag <= replicas[i].lag
  }

  /** The argmin loop: the first replica of least lag, other than the excluded one. */
  function SelectBest(replicas: seq<NodeInfo>, exclude: string): (r: Option<NodeInfo>)
    ensures r.Some? ==> Best(r.value, replicas, exclude)
    ensures r.None? ==> forall i :: 0 <= i < |replicas| ==> replicas[i].name == exclude
  {
    if replicas == [] then None
    else
      var init, last := replicas[..|replicas| - 1], replicas[|replicas| - 1];
      var best := SelectBest(init, exclude);
      if last.name == exclude then best
      else if best.None? || last.lag < best.value.lag then Some(last)
      else best
  }

  // ---------------------------------------------------------------- failover

  /** Outside events of one failover: when it starts and publishes, and what happens around its two writes. */
  datatype FailoverIn = FailoverIn(startAt: Time, now: Time, fence: Turn, promote: Turn)

  function PublishFailover(cfg: Config, st: Store, failed: string, target: string, x: FailoverIn)
      : (Store, Option<seq<string>>) {
    var fence := Order(Fence, failed, map[], x.now);
    var promote := Order(Promote, target, map[], x.now);
    if cfg.fencing && !x.fence.Commits() then (Propose(st, x.fence, PublishDirective(fence)), None)
    else
      var st1 := if cfg.fencing then Propose(st, x.fence, PublishDirective(fence)) else st;
      var st2 := Propose(st1, x.promote, PublishDirective(promote));
      if !x.promote.Commits() then (st2, None)
      else (st2, Some(if cfg.fencing then [fence.id, promote.id] else [promote.id]))
  }

  /** ExecuteFailoverTo: to a given target. The last result is false for an error return. */
  function FailoverTo(cfg: Config, c: Ctrl, st: Store, failed: string, target: string, x: FailoverIn)
      : (Ctrl, Store, bool) {
    var (st', ids) := PublishFailover(cfg, st, failed, target, x);
    if ids.None? then (CLEARED, st', false)
    else (Ctrl(true, ids.value, x.startAt, c.confirmationStart), st', true)
  }

  /** ExecuteFailover: to the best replica of the list GetReplicas returned. */
  function ExecuteFailover(cfg: Config, c: Ctrl, st: Store, failed: string, replicas: seq<NodeInfo>, x: FailoverIn)
      : (Ctrl, Store, bool) {
    match SelectBest(replicas, failed)
    case None => (CLEARED, st, false)
    case Some(best) => FailoverTo(cfg, c, st, failed, best.name, x)
  }

  function FenceOrder(failed: string, x: FailoverIn): Command {
    PublishDirective(Order(Fence, failed, map[], x.now))
  }

  function PromoteOrder(target: string, x: FailoverIn): Command {
    PublishDirective(Order(Promote, target, map[], x.now))
  }

  /** The directives a failover gets committed, in order, in every outcome: FENCE if enabled, then PROMOTE. */
  function Published(cfg: Config, failed: string, target: string, x: FailoverIn): seq<Directive> {
    if cfg.fencing && !x.fence.Commits() then []
    else
      var promote := if x.promote.Commits() then [Order(Promote, target, map[], x.now)] else [];
      if cfg.fencing then [Order(Fence, failed, map[], x.now)] + promote else promote
  }

  function Publications(ds: seq<Directive>): (r: seq<Command>)
    ensures |r| == |ds| && forall i :: 0 <= i < |ds| ==> r[i] == PublishDirective(ds[i])
  {
    seq(|ds|, i requires 0 <= i < |ds| => PublishDirective(ds[i]))
  }

  /** From st on, this node committed exactly these directives. */
  predicate Adds(st: Store, st': Store, ds: seq<Directive>) {
    Extends(st, st') && Own(st'.log) == Own(st.log) + Publications(ds)
  }

  lemma AddsOne(st: Store, turn: Turn, d: Directive)
    ensures Adds(st, Propose(st, turn, PublishDirective(d)), if turn.Commits() then [d] else [])
  {
    ProposeOwn(st, turn, PublishDirective(d));
    assert Publications([d]) == [PublishDirective(d)];
  }

  lemma AddsBoth(st: Store, st1: Store, st2: Store, a: seq<Directive>, b: seq<Directive>)
    requires Adds(st, st1, a) && Adds(st1, st2, b)
    ensures Adds(st, st2, a + b)
  {
    assert Publications(a + b) == Publications(a) + Publications(b);
  }

  lemma PublishCommits(cfg: Config, st: Store, failed: string, target: string, x: FailoverIn)
    ensures Adds(st, PublishFailover(cfg, st, failed, target, x).0, Published(cfg, failed, target, x))
  {
    var fence, promote := Order(Fence, failed, map[], x.now), Order(Promote, target, map[], x.now);
    AddsOne(st, x.fence, fence);
    AddsOne(st, x.promote, promote);
    if cfg.fencing && x.fence.Commits() {
      var st1 := Propose(st, x.fence, PublishDirective(fence));
      AddsOne(st1, x.promote, promote);
      AddsBoth(st, st1, Propose(st1, x.promote, PublishDirective(promote)), [fence],
               if x.promote.Commits() then [promote] else []);
    }
  }

  /** Both writes of the failover, or the only one, commit. */
  predicate Succeeds(cfg: Config, x: FailoverIn) {
    (cfg.fencing ==> x.fence.Commits()) && x.promote.Commits()
  }

  /** A failover commits FENCE (if enabled) and then PROMOTE, or it returns an error with the controller cleared. */
  lemma FailoverCommits(cfg: Config, c: Ctrl, st: Store, failed: string, target: string, x: FailoverIn)
    ensures var (c', st', ok) := FailoverTo(cfg, c, st, failed, target, x);
            var ds := Published(cfg, failed, target, x);
            && Adds(st, st', ds)
            && (ok <==> Succeeds(cfg, x)) && (ok <==> Order(Promote, target, map[], x.now) in ds)
            && (ok ==> c'.inFlight && |c'.ids| == |ds| && forall i :: 0 <= i < |c'.ids| ==> c'.ids[i] == ds[i].id)
            && (ok ==> c'.startTime == x.startAt && c'.confirmationStart == c.confirmationStart)
            && (!ok ==> c' == CLEARED)
  {
    PublishCommits(cfg, st, failed, target, x);
  }

  /** A failover in flight has timed out if and only if more than a minute has passed since it started. */
  lemma TimedOutIff(cfg: Config, c: Ctrl, st: Store, failed: string, target: string, x: FailoverIn, now: Time)
    requires Succeeds(cfg, x)
    ensures TimedOut(FailoverTo(cfg, c, st, failed, target, x).0, now) <==> now - x.startAt > 60_000_000_000
  {
    FailoverCommits(cfg, c, st, failed, target, x);
  }

  /** The directives of a failover, field by field. */
  lemma FailoverDirectives(cfg: Config, failed: string, target: string, x: FailoverIn)
    requires Succeeds(cfg, x)
    ensures var fence := Directive(DirectiveId(Fence, failed, x.now), Fence, failed, map[], Pending, x.now,
                                   ZERO_TIME, "");
            var promote := Directive(DirectiveId(Promote, target, x.now), Promote, target, map[], Pending, x.now,
                                     ZERO_TIME, "");
            Published(cfg, failed, target, x) == if cfg.fencing then [fence, promote] else [promote]
  {
  }

  predicate Shows(s: State, d: Directive) {
    d.id in s.directives && s.directives[d.id] == d
  }

  predicate ShowsAs(s: State, id: string, status: Status) {
    id in s.directives && s.directives[id].status == status
  }

  /** Commands that neither publish nor complete the ID. */
  predicate Untouched(others: seq<Entry>, id: string) {
    forall i :: 0 <= i < |others| ==> !Touches(others[i].cmd, id)
  }

  lemma {:induction false} HearKeepsPending(st: Store, others: seq<Entry>, d: Directive)
    requires Shows(st.fsm, d) && d.status == Pending && Untouched(others, d.id)
    ensures Shows(Hear(st, others).fsm, d)
  {
    if others != [] {
      HearKeepsPending(st, others[..|others| - 1], d);
    }
  }

  lemma {:induction false} HearKeepsAbsent(st: Store, others: seq<Entry>, id: string)
    requires id !in st.fsm.directives && Untouched(others, id)
    ensures id !in Hear(st, others).fsm.directives
  {
    if others != [] {
      HearKeepsAbsent(st, others[..|others| - 1], id);
    }
  }

  lemma FenceAndPromoteIdsDiffer(a: string, b: string, now: Time)
    ensures DirectiveId(Fence, a, now) != DirectiveId(Promote, b, now)
  {
    assert DirectiveId(Fence, a, now)[0] == 'f' && DirectiveId(Promote, b, now)[0] == 'p';
  }

  /** After a successful failover both directives are pending for their targets, unless another node touched them. */
  lemma FailoverLeavesBothPending(cfg: Config, c: Ctrl, st: Store, failed: string, target: string, x: FailoverIn)
    requires FailoverTo(cfg, c, st, failed, target, x).2
    requires Untouched(x.promote.others, DirectiveId(Fence, failed, x.now))
    ensures var s := FailoverTo(cfg, c, st, failed, target, x).1.fsm;
            && Shows(s, Order(Promote, target, map[], x.now))
            && (cfg.fencing ==> Shows(s, Order(Fence, failed, map[], x.now)))
  {
    var fence := Order(Fence, failed, map[], x.now);
    FenceAndPromoteIdsDiffer(failed, target, x.now);
    if cfg.fencing {
      HearKeepsPending(Propose(st, x.fence, PublishDirective(fence)), x.promote.others, fence);
    }
  }

  /**
   * An error return leaves the FENCE of the old primary pending and no longer monitored, if and only if fencing is on
   * and the FENCE committed: then it was the PROMOTE that did not.
   */
  lemma FailedPromoteLeavesFencePending(cfg: Config, c: Ctrl, st: Store, failed: string, target: string, x: FailoverIn)
    requires !FailoverTo(cfg, c, st, failed, target, x).2
    requires var id := DirectiveId(Fence, failed, x.now);
             id !in st.fsm.directives && Untouched(x.fence.others, id) && Untouched(x.promote.others, id)
    ensures var (c', st', _) := FailoverTo(cfg, c, st, failed, target, x);
            && c' == CLEARED
            && (Shows(st'.fsm, Order(Fence, failed, map[], x.now)) <==> cfg.fencing && x.fence.Commits())
  {
    var fence := Order(Fence, failed, map[], x.now);
    HearKeepsAbsent(st, x.fence.others, fence.id);
    HearKeepsAbsent(st, x.promote.others, fence.id);
    if cfg.fencing && x.fence.Commits() {
      HearKeepsPending(Propose(st, x.fence, PublishDirective(fence)), x.promote.others, fence);
    }
  }

  // ---------------------------------------------------------------- monitoring

  /** The clock of a pass, others' commands landing before each of its reads, and what happens around each write. */
  datatype MonitorIn = MonitorIn(now: Time, heard: nat -> seq<Entry>, write: nat -> Turn)

  const TIMEOUT_MESSAGE := "directive timed out"

  /** One directive: if it reads as pending it is failed after a timeout, whatever lands before that write. */
  function MonitorOne(st: Store, id: string, timedOut: bool, others: seq<Entry>, write: Turn): (Store, bool) {
    var heard := Hear(st, others);
    if !IsPending(heard.fsm, id) then (heard, true)
    else if timedOut then (Propose(heard, write, CompleteDirective(id, TIMEOUT_MESSAGE)), true)
    else (heard, false)
  }

  function MonitorAll(st: Store, ids: seq<string>, timedOut: bool, x: MonitorIn): (Store, bool) {
    if ids == [] then (st, true)
    else
      var n := |ids| - 1;
      var (st1, done1) := MonitorAll(st, ids[..n], timedOut, x);
      var (st2, done2) := MonitorOne(st1, ids[n], timedOut, x.heard(n), x.write(n));
      (st2, done1 && done2)
  }

  predicate TimedOut(c: Ctrl, now: Time) {
    now - c.startTime > DIRECTIVE_TIMEOUT
  }

  /** MonitorDirectives: the last result tells whether the operation is over. */
  function Monitor(c: Ctrl, st: Store, x: MonitorIn): (Ctrl, Store, bool) {
    if !c.inFlight || c.ids == [] then (c, st, false)
    else
      var timedOut := TimedOut(c, x.now);
      var (st', allDone) := MonitorAll(st, c.ids, timedOut, x);
      if allDone || timedOut then (CLEARED, st', true) else (c, st', false)
  }

  /** Around one read and its write nobody republishes any of these directives. */
  predicate SparesAround(x: MonitorIn, i: nat, ids: seq<string>) {
    Spares(x.heard(i), ids) && Spares(x.write(i).others, ids)
  }

  /** During the pass nobody republishes a tracked directive. */
  ghost predicate Undisturbed(c: Ctrl, x: MonitorIn) {
    forall i: nat :: i < |c.ids| ==> SparesAround(x, i, c.ids)
  }

  /** Every write of the pass commits. */
  ghost predicate WritesCommit(c: Ctrl, x: MonitorIn) {
    forall i: nat :: i < |c.ids| ==> x.write(i).Commits()
  }

  lemma MonitorOneKeeps(st: Store, id: string, timedOut: bool, others: seq<Entry>, write: Turn,
                        ids: seq<string>, other: string)
    requires other in ids && Spares(others, ids) && Spares(write.others, ids) && !IsPending(st.fsm, other)
    ensures !IsPending(MonitorOne(st, id, timedOut, others, write).0.fsm, other)
  {
    HearKeepsFinished(st, others, other);
    HearKeepsFinished(Hear(st, others), write.others, other);
  }

  lemma {:induction false} MonitorAllFinishes(st: Store, ids: seq<string>, timedOut: bool, x: MonitorIn,
                                              all: seq<string>)
    requires ids <= all && (forall i: nat :: i < |ids| ==> SparesAround(x, i, all))
    requires timedOut ==> forall i: nat :: i < |ids| ==> x.write(i).Commits()
    requires MonitorAll(st, ids, timedOut, x).1
    ensures forall i :: 0 <= i < |ids| ==> !IsPending(MonitorAll(st, ids, timedOut, x).0.fsm, ids[i])
  {
    if ids != [] {
      var n := |ids| - 1;
      MonitorAllFinishes(st, ids[..n], timedOut, x, all);
      var st1 := MonitorAll(st, ids[..n], timedOut, x).0;
      assert SparesAround(x, n, all);
      forall i | 0 <= i < n ensures !IsPending(MonitorAll(st, ids, timedOut, x).0.fsm, ids[i]) {
        assert ids[..n][i] == ids[i] == all[i];
        MonitorOneKeeps(st1, ids[n], timedOut, x.heard(n), x.write(n), all, ids[i]);
      }
    }
  }

  lemma {:induction false} TimedOutIsDone(st: Store, ids: seq<string>, x: MonitorIn)
    ensures MonitorAll(st, ids, true, x).1
  {
    if ids != [] {
      TimedOutIsDone(st, ids[..|ids| - 1], x);
    }
  }

  /**
   * Monitoring ends every failover: past the timeout it always clears the controller; if it reports the end and its
   * writes commit, no tracked directive is pending any more; if it does not, the controller is untouched.
   */
  lemma MonitorEndsFailover(c: Ctrl, st: Store, x: MonitorIn)
    requires c.inFlight && c.ids != []
    ensures var (c', st', done) := Monitor(c, st, x);
            && (TimedOut(c, x.now) ==> done)
            && (done ==> c' == CLEARED)
            && (!done ==> c' == c)
            && (done && Undisturbed(c, x) && (TimedOut(c, x.now) ==> WritesCommit(c, x)) ==>
                  forall i :: 0 <= i < |c.ids| ==> !IsPending(st'.fsm, c.ids[i]))
  {
    var timedOut := TimedOut(c, x.now);
    if timedOut {
      TimedOutIsDone(st, c.ids, x);
    }
    if MonitorAll(st, c.ids, timedOut, x).1 && Undisturbed(c, x) && (timedOut ==> WritesCommit(c, x)) {
      MonitorAllFinishes(st, c.ids, timedOut, x, c.ids);
    }
  }
}
