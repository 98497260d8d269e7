/** Exactly when an open pool can still give somebody a connection. */
module PoolService {
  import opened Base
  import opened PoolState
  import opened PoolProtocol
  import opened PoolTheorems
  import opened PoolBounds
  import opened PoolExhaustion

  /** The step gave some call a connection that it did not hold. */
  predicate Gives(s: Sys, s': Sys) {
    !(s'.holders <= s.holders)
  }

  /** Somebody can be given a connection within n steps. */
  ghost predicate ServesWithin(cfg: Config, s: Sys, n: nat)
    decreases n
  {
    n > 0 && exists step, s' :: Stepped(cfg, s, step, s') && (Gives(s, s') || ServesWithin(cfg, s', n - 1))
  }

  lemma {:induction false} ServesLater(cfg: Config, s: Sys, m: nat, n: nat)
    requires m <= n && ServesWithin(cfg, s, m)
    ensures ServesWithin(cfg, s, n)
    decreases n
  {
    var step, s' :| Stepped(cfg, s, step, s') && (Gives(s, s') || ServesWithin(cfg, s', m - 1));
    if !Gives(s, s') {
      ServesLater(cfg, s', m - 1, n - 1);
    }
  }

  // ---------------------------------------------------------------- calls in flight hold nothing

  predicate EmptyHanded(calls: set<Call>, dialling: set<Call>, waiting: set<Call>, received: set<Call>,
                        holders: set<(Call, Conn)>) {
    && dialling !! waiting && dialling !! received && waiting !! received
    && dialling <= calls && waiting <= calls && received <= calls
    && forall h :: h in holders ==> h.0 in calls && h.0 !in waiting && h.0 !in received
  }

  predicate HandsEmpty(s: Sys) {
    EmptyHanded(s.calls, s.dialling, s.waiting, s.received.Keys, s.holders)
  }

  lemma TakeHands(cfg: Config, s: Sys, t: Call, now: Time)
    requires s.pool.inUse.Some? && HandsEmpty(s) && t !in s.calls
    ensures HandsEmpty(TakeNext(cfg, s, t, now))
  {
    var s' := TakeNext(cfg, s, t, now);
    assert s'.calls == s.calls + {t} && s'.received == s.received;
    assert s'.dialling == s.dialling || (s'.dialling == s.dialling + {t} && s'.waiting == s.waiting);
    assert s'.waiting == s.waiting || (s'.waiting == s.waiting + {t} && s'.holders == s.holders);
    assert s'.holders == s.holders || (s'.waiting == s.waiting && s'.dialling == s.dialling);
    assert forall h :: h in s'.holders ==> h in s.holders || h.0 == t;
  }

  lemma AcquireHands(cfg: Config, s: Sys, t: Call, clock: Clock, now: Time)
    requires Shape(s) && HandsEmpty(s) && t !in s.calls
    ensures HandsEmpty(AcquireNext(cfg, s, t, clock, now))
  {
    if !s.pool.closed {
      TakeHands(cfg, TrimNext(cfg, s, clock), t, now);
    }
  }

  lemma ReturnHands(cfg: Config, s: Sys, t: Call, c: Conn, checkedAt: Time, now: Time)
    requires HandsEmpty(s)
    ensures HandsEmpty(ReleaseNext(cfg, s, t, c, checkedAt, now)) && HandsEmpty(DiscardNext(s, t, c))
  {
  }

  lemma StepKeepsHands(cfg: Config, s: Sys, step: Step)
    requires Shape(s) && HandsEmpty(s) && Enabled(s, step)
    ensures HandsEmpty(Next(cfg, s, step))
  {
    match step {
      case Acquire(t, clock, now) => AcquireHands(cfg, s, t, clock, now);
      case Release(t, c, checkedAt, now) => ReturnHands(cfg, s, t, c, checkedAt, now);
      case Discard(t, c) => ReturnHands(cfg, s, t, c, 0, 0);
      case _ =>
    }
  }

  lemma {:induction false} RunHands(cfg: Config, run: seq<Sys>, steps: seq<Step>, i: nat)
    requires IsRun(cfg, run, steps) && i < |run|
    ensures HandsEmpty(run[i])
  {
    if i > 0 {
      RunHands(cfg, run, steps, i - 1);
      RunShape(cfg, run, steps, i - 1);
      StepKeepsHands(cfg, run[i - 1], steps[i - 1]);
    }
  }

  // ---------------------------------------------------------------- ways to be served

  /** An open pool in good order. */
  ghost predicate Live(s: Sys) {
    Inv(s) && HandsEmpty(s) && !s.pool.closed && !s.panicked
  }

  lemma StaysLive(cfg: Config, s: Sys, step: Step)
    requires Live(s) && Enabled(s, step) && !step.Close?
    ensures Live(Next(cfg, s, step)) && Stepped(cfg, s, step, Next(cfg, s, step))
  {
    StepKeepsInv(cfg, s, step);
    StepKeepsHands(cfg, s, step);
    PanicIffLateEntry(cfg, s, step);
    OnlyCloseCloses(cfg, s, step);
  }

  lemma OnlyCloseCloses(cfg: Config, s: Sys, step: Step)
    requires Shape(s) && Enabled(s, step) && !step.Close?
    ensures Next(cfg, s, step).pool.closed == s.pool.closed
  {
    match step {
      case Acquire(t, clock, now) => AcquireFrame(cfg, s, t, clock, now);
      case Release(t, c, checkedAt, now) => ReleaseFrame(cfg, s, t, c, checkedAt, now);
      case _ =>
    }
  }

  lemma ServesNow(cfg: Config, s: Sys, step: Step)
    requires Live(s) && Enabled(s, step) && !step.Close?
    ensures Gives(s, Next(cfg, s, step)) ==> ServesWithin(cfg, s, 1)
  {
    StaysLive(cfg, s, step);
  }

  lemma ServesAfter(cfg: Config, s: Sys, step: Step, n: nat)
    requires Live(s) && Enabled(s, step) && !step.Close?
    ensures ServesWithin(cfg, Next(cfg, s, step), n) ==> ServesWithin(cfg, s, n + 1)
  {
    StaysLive(cfg, s, step);
  }

  function HeldBy(s: Sys): set<Conn> {
    set h | h in s.holders :: h.1
  }

  lemma DialServes(cfg: Config, s: Sys, t: Call)
    requires Live(s) && t in s.dialling
    ensures ServesWithin(cfg, s, 1)
  {
    var c := FreshConn(s.place.Keys + HeldBy(s));
    var step := DialSucceeds(t, Conn0(c));
    assert (t, c) !in s.holders;
    assert (t, c) in Next(cfg, s, step).holders;
    ServesNow(cfg, s, step);
  }

  lemma DeliverServes(cfg: Config, s: Sys, t: Call)
    requires Live(s) && t in s.received
    ensures ServesWithin(cfg, s, 1)
  {
    var h := (t, s.received[t].conn);
    assert h !in s.holders && h in Next(cfg, s, Deliver(t)).holders;
    ServesNow(cfg, s, Deliver(t));
  }

  lemma ReceiveServes(cfg: Config, s: Sys, t: Call)
    requires Live(s) && t in s.pool.sent
    ensures ServesWithin(cfg, s, 2)
  {
    assert t in FlowOf(s).sent;
    var step := Receive(t, 0);
    StaysLive(cfg, s, step);
    DeliverServes(cfg, Next(cfg, s, step), t);
    ServesAfter(cfg, s, step, 1);
  }

  /** At a time not after the connection was made and last used, it is healthy whatever the limits. */
  function Early(pc: PooledConn): Time {
    Min(pc.createdAt, pc.lastUsedAt)
  }

  lemma IdleServes(cfg: Config, s: Sys)
    requires Live(s) && s.pool.idle != []
    ensures ServesWithin(cfg, s, 1)
  {
    var top := s.pool.idle[|s.pool.idle| - 1];
    var t := FreshConn(s.calls);
    var clock: Clock := (i: nat) => Early(top);
    var step := Acquire(t, clock, 0);
    TopServes(cfg, s, t, clock);
    assert (t, top.conn) !in s.holders;
    ServesNow(cfg, s, step);
  }

  lemma TopServes(cfg: Config, s: Sys, t: Call, clock: Clock)
    requires Shape(s) && !s.pool.closed && s.pool.idle != []
    requires var top := s.pool.idle[|s.pool.idle| - 1]; clock(0) == Early(top)
    ensures (t, s.pool.idle[|s.pool.idle| - 1].conn) in AcquireNext(cfg, s, t, clock, 0).holders
  {
    assert Healthy(cfg, s.pool.idle[|s.pool.idle| - 1], clock(0));
    assert Unhealthy(cfg, s.pool.idle, clock, 0) == 0;
    var mid := TrimNext(cfg, s, clock);
    assert mid.pool.idle == s.pool.idle;
  }

  lemma CountedServes(cfg: Config, s: Sys, r: Rep)
    requires Live(s) && PhaseOf(s, r).Counted?
    ensures ServesWithin(cfg, s, 2)
  {
    StaysLive(cfg, s, Insert(r));
    IdleServes(cfg, Next(cfg, s, Insert(r)));
    ServesAfter(cfg, s, Insert(r), 1);
  }

  lemma ReplenisherServes(cfg: Config, s: Sys, r: Rep)
    requires Live(s) && PhaseOf(s, r).Dialling?
    ensures ServesWithin(cfg, s, 3)
  {
    var c := FreshConn(s.place.Keys);
    var step := Count(r, Conn0(c));
    StaysLive(cfg, s, step);
    CountedServes(cfg, Next(cfg, s, step), r);
    ServesAfter(cfg, s, step, 2);
  }

  lemma LentServes(cfg: Config, s: Sys, c: Conn)
    requires Live(s) && Lent(s.pool, c)
    ensures ServesWithin(cfg, s, 3)
  {
    var pc := s.pool.inUse.value[c];
    var step := Release(0, c, Early(pc), 0);
    assert Healthy(cfg, pc, Early(pc));
    StaysLive(cfg, s, step);
    var s' := Next(cfg, s, step);
    if s.pool.waiters != [] {
      assert s.pool.waiters[0] in s'.pool.sent;
      ReceiveServes(cfg, s', s.pool.waiters[0]);
    } else {
      IdleServes(cfg, s');
      ServesLater(cfg, s', 1, 2);
    }
    ServesAfter(cfg, s, step, 2);
  }

  lemma SpareSlotServes(cfg: Config, s: Sys)
    requires Live(s) && Bare(s) && s.pool.total < cfg.maxPoolSize
    ensures ServesWithin(cfg, s, 2)
  {
    var t := FreshConn(s.calls);
    var step := Acquire(t, FLAT, 0);
    assert TrimIdle(cfg, s.pool, FLAT) == s.pool;
    assert t in AcquireNext(cfg, s, t, FLAT, 0).dialling;
    StaysLive(cfg, s, step);
    DialServes(cfg, Next(cfg, s, step), t);
    ServesAfter(cfg, s, step, 1);
  }

  // ---------------------------------------------------------------- main result

  lemma LiveServes(cfg: Config, s: Sys)
    requires Live(s) && !Exhausted(cfg, s)
    ensures ServesWithin(cfg, s, 3)
  {
    if s.pool.idle != [] {
      IdleServes(cfg, s);
      ServesLater(cfg, s, 1, 3);
    } else if t :| t in s.dialling {
      DialServes(cfg, s, t);
      ServesLater(cfg, s, 1, 3);
    } else if t :| t in s.received {
      DeliverServes(cfg, s, t);
      ServesLater(cfg, s, 1, 3);
    } else if t :| t in s.pool.sent {
      ReceiveServes(cfg, s, t);
      ServesLater(cfg, s, 2, 3);
    } else if c :| Lent(s.pool, c) {
      LentServes(cfg, s, c);
    } else {
      ReplenishersServe(cfg, s);
    }
  }

  lemma ReplenishersServe(cfg: Config, s: Sys)
    requires Live(s) && !Exhausted(cfg, s)
    requires s.pool.idle == [] && s.dialling == {} && s.received == map[] && s.pool.sent == map[]
    requires forall c :: !Lent(s.pool, c)
    ensures ServesWithin(cfg, s, 3)
  {
    if r :| PhaseOf(s, r).Counted? {
      CountedServes(cfg, s, r);
      ServesLater(cfg, s, 2, 3);
    } else if r :| PhaseOf(s, r).Dialling? {
      ReplenisherServes(cfg, s, r);
    } else {
      assert !PhaseOf(s, WarmUp).Counted? && !PhaseOf(s, Upkeep).Counted?;
      assert !PhaseOf(s, WarmUp).Dialling? && !PhaseOf(s, Upkeep).Dialling?;
      assert s.pool.inUse.value == map[] by {
        assert forall c :: c in s.pool.inUse.value ==> Lent(s.pool, c);
      }
      SpareSlotServes(cfg, s);
      ServesLater(cfg, s, 2, 3);
    }
  }

  lemma {:induction false} ExhaustedNeverServes(cfg: Config, s: Sys, n: nat)
    requires Exhausted(cfg, s)
    ensures !ServesWithin(cfg, s, n)
    decreases n
  {
    if n > 0 {
      forall step, s' | Stepped(cfg, s, step, s') ensures !Gives(s, s') && !ServesWithin(cfg, s', n - 1) {
        ExhaustedStep(cfg, s, step);
        ExhaustedNeverServes(cfg, s', n - 1);
      }
    }
  }

  lemma ReachableIsLive(cfg: Config, s: Sys)
    requires Reachable(cfg, s) && !s.pool.closed && !s.panicked
    ensures Live(s)
  {
    ReachableInv(cfg, s);
    var run: seq<Sys>, steps: seq<Step> :| IsRun(cfg, run, steps) && run[|run| - 1] == s;
    RunHands(cfg, run, steps, |run| - 1);
  }

  /** Some continuation gives somebody a connection. */
  ghost predicate CanServe(cfg: Config, s: Sys) {
    exists n :: ServesWithin(cfg, s, n)
  }

  lemma ExhaustedCannotServe(cfg: Config, s: Sys)
    requires Exhausted(cfg, s)
    ensures !CanServe(cfg, s)
  {
    forall n ensures !ServesWithin(cfg, s, n) {
      ExhaustedNeverServes(cfg, s, n);
    }
  }

  lemma OthersServe(cfg: Config, s: Sys)
    requires Reachable(cfg, s) && !s.pool.closed && !s.panicked && !Exhausted(cfg, s)
    ensures ServesWithin(cfg, s, 3)
  {
    ReachableIsLive(cfg, s);
    LiveServes(cfg, s);
  }

  /**
   * An open pool that has not panicked is used up for good if and only if every slot is stranded and no replenisher is
   * past its check. In every other reachable state somebody can be given a connection, in at most three steps.
   */
  lemma UsedUpIff(cfg: Config, s: Sys)
    requires Reachable(cfg, s) && !s.pool.closed && !s.panicked
    ensures !CanServe(cfg, s) <==> Exhausted(cfg, s)
    ensures CanServe(cfg, s) <==> ServesWithin(cfg, s, 3)
  {
    if Exhausted(cfg, s) {
      ExhaustedCannotServe(cfg, s);
    } else {
      OthersServe(cfg, s);
    }
  }
}
