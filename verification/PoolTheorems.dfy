/** What holds of the pool in every run, under any interleaving. */
module PoolTheorems {
  import opened Base
  import opened PoolState
  import opened PoolProtocol

  predicate Stepped(cfg: Config, s: Sys, step: Step, s': Sys) {
    (s.pool.closed || s.pool.inUse.Some?) && Enabled(s, step) && s' == Next(cfg, s, step)
  }

  predicate IsRun(cfg: Config, run: seq<Sys>, steps: seq<Step>) {
    && |run| == |steps| + 1 && run[0] == START
    && forall i {:trigger steps[i]} :: 0 <= i < |steps| ==> Stepped(cfg, run[i], steps[i], run[i + 1])
  }

  lemma {:induction false} RunKeepsInv(cfg: Config, run: seq<Sys>, steps: seq<Step>, i: nat)
    requires IsRun(cfg, run, steps) && i < |run|
    ensures Inv(run[i])
  {
    if i > 0 {
      RunKeepsInv(cfg, run, steps, i - 1);
      StepKeepsInv(cfg, run[i - 1], steps[i - 1]);
    }
  }

  lemma RunShape(cfg: Config, run: seq<Sys>, steps: seq<Step>, i: nat)
    requires IsRun(cfg, run, steps) && i < |run|
    ensures Shape(run[i])
  {
    RunKeepsInv(cfg, run, steps, i);
  }

  // ---------------------------------------------------------------- conservation

  /** No Acquire is past its first section and no replenisher holds a counted connection. */
  predicate Quiescent(s: Sys) {
    s.dialling == {} && s.pool.sent == map[] && s.received == map[] && !s.warmUp.Counted? && !s.upkeep.Counted?
  }

  /**
   * The counter always equals idle + in use + reserved dials + hand-offs under way + counted but not inserted +
   * stranded; once the pool is closed and quiescent it has drained to exactly the stranded hand-offs.
   */
  lemma CounterIsConserved(cfg: Config, run: seq<Sys>, steps: seq<Step>, i: nat)
    requires IsRun(cfg, run, steps) && i < |run|
    ensures Balanced(run[i])
    ensures run[i].pool.closed && Quiescent(run[i]) ==> run[i].pool.total == |run[i].stranded|
  {
    RunKeepsInv(cfg, run, steps, i);
  }

  lemma StrandedStays(cfg: Config, s: Sys, step: Step)
    requires Shape(s) && Enabled(s, step)
    ensures s.stranded <= Next(cfg, s, step).stranded
  {
    match step {
      case Acquire(t, clock, now) => AcquireFrame(cfg, s, t, clock, now);
      case Release(t, c, checkedAt, now) => ReleaseFrame(cfg, s, t, c, checkedAt, now);
      case _ =>
    }
  }

  /** What neither a first section of Acquire nor a Release touches. */
  predicate SameAside(s: Sys, s': Sys) {
    && s'.stranded == s.stranded && s'.panicked == s.panicked && s'.received == s.received
    && s'.pool.closed == s.pool.closed && s'.pool.woken == s.pool.woken
    && s'.warmUp == s.warmUp && s'.upkeep == s.upkeep
  }

  lemma AcquireFrame(cfg: Config, s: Sys, t: Call, clock: Clock, now: Time)
    requires Shape(s)
    ensures SameAside(s, AcquireNext(cfg, s, t, clock, now))
  {
    if !s.pool.closed {
      TakeFrame(cfg, TrimNext(cfg, s, clock), t, now);
    }
  }

  lemma TakeFrame(cfg: Config, s: Sys, t: Call, now: Time)
    requires s.pool.inUse.Some?
    ensures SameAside(s, TakeNext(cfg, s, t, now))
  {
  }

  lemma ReleaseFrame(cfg: Config, s: Sys, t: Call, c: Conn, checkedAt: Time, now: Time)
    ensures SameAside(s, ReleaseNext(cfg, s, t, c, checkedAt, now))
  {
  }

  lemma {:induction false} RunStrandedStays(cfg: Config, run: seq<Sys>, steps: seq<Step>, i: nat, j: nat)
    requires IsRun(cfg, run, steps) && i <= j < |run|
    ensures run[i].stranded <= run[j].stranded
  {
    if i < j {
      RunStrandedStays(cfg, run, steps, i, j - 1);
      RunShape(cfg, run, steps, j - 1);
      StrandedStays(cfg, run[j - 1], steps[j - 1]);
    }
  }

  /** Capacity lost to a stranded hand-off is never recovered. */
  lemma StrandedCapacityIsLost(cfg: Config, run: seq<Sys>, steps: seq<Step>, i: nat, j: nat)
    requires IsRun(cfg, run, steps) && i <= j < |run|
    ensures run[i].stranded <= run[j].stranded && |run[i].stranded| <= run[j].pool.total
  {
    RunStrandedStays(cfg, run, steps, i, j);
    CounterIsConserved(cfg, run, steps, j);
    CardSubset(run[i].stranded, run[j].stranded);
  }

  /** A waiter gives up although a connection was already sent to it. */
  predicate Strands(s: Sys, step: Step) {
    step.GiveUp? && step.t in s.pool.sent
  }

  lemma GiveUpStrands(s: Sys, t: Call)
    requires Placed(s)
    ensures var s' := GiveUpNext(s, t);
            |s'.stranded| == |s.stranded| + (if t in s.pool.sent then 1 else 0)
            && (t !in s.pool.sent ==> s'.stranded == s.stranded)
  {
    if t in s.pool.sent {
      Elsewhere(s, s.pool.sent[t].conn, Channel(t), Stranded);
    }
  }

  lemma OthersKeepStranded(cfg: Config, s: Sys, step: Step)
    requires Shape(s) && Enabled(s, step) && !step.GiveUp?
    ensures Next(cfg, s, step).stranded == s.stranded
  {
    match step {
      case Acquire(t, clock, now) => AcquireFrame(cfg, s, t, clock, now);
      case Release(t, c, checkedAt, now) => ReleaseFrame(cfg, s, t, c, checkedAt, now);
      case _ =>
    }
  }

  lemma StepStrandsIff(cfg: Config, s: Sys, step: Step)
    requires Shape(s) && Placed(s) && Enabled(s, step)
    ensures |Next(cfg, s, step).stranded| == |s.stranded| + (if Strands(s, step) then 1 else 0)
    ensures Next(cfg, s, step).stranded != s.stranded <==> Strands(s, step)
  {
    if step.GiveUp? {
      GiveUpStrands(s, step.t);
    } else {
      OthersKeepStranded(cfg, s, step);
    }
  }

  /** How many of the first i steps strand a connection. */
  function Strandings(run: seq<Sys>, steps: seq<Step>, i: nat): nat
    requires i <= |steps| < |run|
  {
    if i == 0 then 0 else Strandings(run, steps, i - 1) + if Strands(run[i - 1], steps[i - 1]) then 1 else 0
  }

  lemma RunStrandsIff(cfg: Config, run: seq<Sys>, steps: seq<Step>, i: nat)
    requires IsRun(cfg, run, steps) && i < |steps|
    ensures |run[i + 1].stranded| == |run[i].stranded| + (if Strands(run[i], steps[i]) then 1 else 0)
  {
    RunKeepsInv(cfg, run, steps, i);
    StepStrandsIff(cfg, run[i], steps[i]);
  }

  lemma {:induction false} CapacityLost(cfg: Config, run: seq<Sys>, steps: seq<Step>, i: nat)
    requires IsRun(cfg, run, steps) && i < |run|
    ensures |run[i].stranded| == Strandings(run, steps, i)
  {
    if i > 0 {
      CapacityLost(cfg, run, steps, i - 1);
      RunStrandsIff(cfg, run, steps, i - 1);
    }
  }

  lemma {:induction false} NoStrandings(run: seq<Sys>, steps: seq<Step>, i: nat)
    requires i <= |steps| < |run|
    ensures Strandings(run, steps, i) == 0 <==> forall j :: 0 <= j < i ==> !Strands(run[j], steps[j])
  {
    if i > 0 {
      NoStrandings(run, steps, i - 1);
    }
  }

  /** Exactly when capacity is lost: one slot for every waiter that gave up after a connection was sent to it. */
  lemma CapacityLostIff(cfg: Config, run: seq<Sys>, steps: seq<Step>, i: nat)
    requires IsRun(cfg, run, steps) && i < |run|
    ensures |run[i].stranded| == Strandings(run, steps, i)
    ensures run[i].stranded == {} <==> forall j :: 0 <= j < i ==> !Strands(run[j], steps[j])
  {
    CapacityLost(cfg, run, steps, i);
    NoStrandings(run, steps, i);
  }

  lemma CardSubset<T>(a: set<T>, b: set<T>)
    requires a <= b
    ensures |a| <= |b|
  {
    assert b == a + (b - a);
  }

  // ---------------------------------------------------------------- ownership

  /** No connection is in two places, none twice in the idle list, and closeConn never ran twice for one. */
  lemma PlacesAreDisjoint(cfg: Config, run: seq<Sys>, steps: seq<Step>, i: nat)
    requires IsRun(cfg, run, steps) && i < |run|
    ensures forall c, q, q' :: Listed(run[i], c, q) && Listed(run[i], c, q') ==> q == q'
    ensures Distinct(run[i].pool.idle)
    ensures run[i].pool.closes == |run[i].retired|
  {
    RunKeepsInv(cfg, run, steps, i);
  }

  /** A hand-off is sent only to a channel that is empty and open, so the send under the lock cannot block. */
  lemma SendNeverBlocks(cfg: Config, run: seq<Sys>, steps: seq<Step>, i: nat)
    requires IsRun(cfg, run, steps) && i < |run| && run[i].pool.waiters != []
    ensures run[i].pool.waiters[0] !in run[i].pool.sent && run[i].pool.waiters[0] !in run[i].pool.woken
  {
    RunKeepsInv(cfg, run, steps, i);
  }

  // ---------------------------------------------------------------- first come, first served

  predicate Before(w: seq<Call>, a: Call, b: Call) {
    exists i, j :: 0 <= i < j < |w| && w[i] == a && w[j] == b
  }

  lemma {:induction false} RemoveKeepsOrder(w: seq<Call>, t: Call, a: Call, b: Call)
    requires Before(w, a, b) && a != t && b != t
    ensures Before(RemoveFirst(w, t), a, b)
  {
    var i, j :| 0 <= i < j < |w| && w[i] == a && w[j] == b;
    var r := RemoveFirst(w[1..], t);
    if w[0] == t {
      assert w[1..][i - 1] == a && w[1..][j - 1] == b;
    } else if i == 0 {
      assert w[1..][j - 1] == b;
      RemoveKeepsOther(w[1..], t, b);
      var k :| 0 <= k < |r| && r[k] == b;
      assert ([w[0]] + r)[0] == a && ([w[0]] + r)[k + 1] == b;
    } else {
      assert w[1..][i - 1] == a && w[1..][j - 1] == b;
      RemoveKeepsOrder(w[1..], t, a, b);
      var k, l :| 0 <= k < l < |r| && r[k] == a && r[l] == b;
      assert ([w[0]] + r)[k + 1] == a && ([w[0]] + r)[l + 1] == b;
    }
  }

  lemma {:induction false} RemoveKeepsOther(w: seq<Call>, t: Call, b: Call)
    requires b in w && b != t
    ensures b in RemoveFirst(w, t)
  {
    if w[0] != t && w[0] != b {
      RemoveKeepsOther(w[1..], t, b);
    }
  }

  /** The queue grows at its end, loses one member, loses its head, or is emptied. */
  ghost predicate QueueChange(w: seq<Call>, w': seq<Call>, calls: set<Call>) {
    || w' == w || w' == [] || (w != [] && w' == w[1..])
    || (exists t :: t !in calls && w' == w + [t])
    || (exists t :: w' == RemoveFirst(w, t))
  }

  lemma AcquireChanges(cfg: Config, s: Sys, t: Call, clock: Clock, now: Time)
    requires Shape(s) && t !in s.calls
    ensures var s' := AcquireNext(cfg, s, t, clock, now);
            && (s'.pool.waiters == s.pool.waiters || s'.pool.waiters == s.pool.waiters + [t])
            && s'.calls == s.calls + {t} && s'.pool.sent == s.pool.sent
  {
    if !s.pool.closed {
      TakeChanges(cfg, TrimNext(cfg, s, clock), t, now);
    }
  }

  lemma TakeChanges(cfg: Config, s: Sys, t: Call, now: Time)
    requires s.pool.inUse.Some?
    ensures var s' := TakeNext(cfg, s, t, now);
            && (s'.pool.waiters == s.pool.waiters || s'.pool.waiters == s.pool.waiters + [t])
            && s'.calls == s.calls + {t} && s'.pool.sent == s.pool.sent
  {
  }

  lemma QueueChanges(cfg: Config, s: Sys, step: Step)
    requires Shape(s) && Enabled(s, step)
    ensures QueueChange(s.pool.waiters, Next(cfg, s, step).pool.waiters, s.calls)
    ensures s.calls <= Next(cfg, s, step).calls
  {
    match step {
      case Acquire(t, clock, now) => AcquireChanges(cfg, s, t, clock, now);
      case GiveUp(t) =>
      case Release(_, _, _, _) =>
      case Close =>
      case _ =>
        assert Next(cfg, s, step).pool.waiters == s.pool.waiters;
    }
  }

  lemma ChangeKeepsOrder(w: seq<Call>, w': seq<Call>, calls: set<Call>, a: Call, b: Call)
    requires QueueChange(w, w', calls) && a in calls && b in calls
    requires NoRepeats(w)
    requires a in w && b in w ==> Before(w, a, b)
    ensures a in w' && b in w' ==> Before(w', a, b)
  {
    if a in w' && b in w' && w' != w {
      if t :| t !in calls && w' == w + [t] {
        var i, j :| 0 <= i < j < |w| && w[i] == a && w[j] == b;
        assert w'[i] == a && w'[j] == b;
      } else if t :| w' == RemoveFirst(w, t) {
        RemoveFirstIs(w, t);
        RemoveKeepsOrder(w, t, a, b);
      } else {
        assert forall k :: 0 <= k < |w'| ==> w'[k] == w[k + 1];
        var i, j :| 0 <= i < j < |w| && w[i] == a && w[j] == b;
        assert w'[i - 1] == a && w'[j - 1] == b;
      }
    }
  }

  lemma StepKeepsOrder(cfg: Config, s: Sys, step: Step, a: Call, b: Call)
    requires Shape(s) && Queue(FlowOf(s)) && Enabled(s, step) && a in s.calls && b in s.calls
    requires a in s.pool.waiters && b in s.pool.waiters ==> Before(s.pool.waiters, a, b)
    ensures var w' := Next(cfg, s, step).pool.waiters; a in w' && b in w' ==> Before(w', a, b)
  {
    QueueChanges(cfg, s, step);
    assert FlowOf(s).waiters == s.pool.waiters;
    ChangeKeepsOrder(s.pool.waiters, Next(cfg, s, step).pool.waiters, s.calls, a, b);
  }

  lemma {:induction false} RunKeepsOrder(cfg: Config, run: seq<Sys>, steps: seq<Step>, i: nat, j: nat, a: Call, b: Call)
    requires IsRun(cfg, run, steps) && i <= j < |run| && Before(run[i].pool.waiters, a, b)
    ensures a in run[j].calls && b in run[j].calls
    ensures a in run[j].pool.waiters && b in run[j].pool.waiters ==> Before(run[j].pool.waiters, a, b)
  {
    if i == j {
      RunKeepsInv(cfg, run, steps, i);
      assert FlowOf(run[i]).waiters == run[i].pool.waiters;
    } else {
      RunKeepsOrder(cfg, run, steps, i, j - 1, a, b);
      RunKeepsInv(cfg, run, steps, j - 1);
      QueueChanges(cfg, run[j - 1], steps[j - 1]);
      StepKeepsOrder(cfg, run[j - 1], steps[j - 1], a, b);
    }
  }

  /** Step hands a connection to a waiter. */
  predicate HandsTo(cfg: Config, s: Sys, step: Step, b: Call)
    requires Shape(s) && Enabled(s, step)
  {
    b !in s.pool.sent && b in Next(cfg, s, step).pool.sent
  }

  lemma HandsToOldest(cfg: Config, s: Sys, step: Step, b: Call)
    requires Shape(s) && Enabled(s, step) && HandsTo(cfg, s, step, b)
    ensures s.pool.waiters != [] && s.pool.waiters[0] == b
  {
    if step.Acquire? {
      AcquireChanges(cfg, s, step.t, step.clock, step.now);
    }
  }

  /** Waiters are served in the order in which they queued: nobody is handed a connection past an older waiter. */
  lemma FirstComeFirstServed(cfg: Config, run: seq<Sys>, steps: seq<Step>, i: nat, j: nat, a: Call, b: Call)
    requires IsRun(cfg, run, steps) && i <= j < |steps| && Before(run[i].pool.waiters, a, b)
    requires Shape(run[j]) && HandsTo(cfg, run[j], steps[j], b)
    ensures a !in run[j].pool.waiters
  {
    RunKeepsOrder(cfg, run, steps, i, j, a, b);
    RunKeepsInv(cfg, run, steps, j);
    HandsToOldest(cfg, run[j], steps[j], b);
    var f := FlowOf(run[j]);
    assert f.waiters == run[j].pool.waiters && b in f.waiters;
  }

  /** Callers give back only what they hold. */
  predicate Disciplined(s: Sys, step: Step) {
    (step.Release? || step.Discard?) ==> (step.t, step.c) in s.holders
  }

  ghost predicate SoleHolders(s: Sys) {
    && (forall t, t', c :: (t, c) in s.holders && (t', c) in s.holders ==> t == t')
    && (!s.pool.closed ==> forall t, c :: (t, c) in s.holders ==> Lent(s.pool, c))
  }

  lemma NewHolder(s: Sys, s': Sys, t: Call, c: Conn)
    requires SoleHolders(s) && !s.pool.closed && !Lent(s.pool, c) && Lent(s'.pool, c)
    requires s'.holders == s.holders + {(t, c)} && forall x :: Lent(s.pool, x) ==> Lent(s'.pool, x)
    ensures SoleHolders(s')
  {
  }

  lemma SameHolders(s: Sys, s': Sys)
    requires SoleHolders(s) && s'.holders == s.holders && (s.pool.closed ==> s'.pool.closed)
    requires !s'.pool.closed ==> s'.pool.inUse == s.pool.inUse
    ensures SoleHolders(s')
  {
  }

  lemma AcquireHolders(cfg: Config, s: Sys, t: Call, clock: Clock, now: Time)
    requires Shape(s) && Placed(s) && SoleHolders(s)
    ensures SoleHolders(AcquireNext(cfg, s, t, clock, now))
  {
    var s' := AcquireNext(cfg, s, t, clock, now);
    if s.pool.closed {
      SameHolders(s, s');
    } else {
      TrimPlaces(cfg, s, clock);
      var mid := TrimNext(cfg, s, clock);
      SameHolders(s, mid);
      if |mid.pool.idle| > 0 {
        var c := mid.pool.idle[|mid.pool.idle| - 1].conn;
        Elsewhere(mid, c, Idle, InUse);
        NewHolder(mid, s', t, c);
      } else {
        SameHolders(mid, s');
      }
    }
  }

  lemma EnterHolders(cfg: Config, s: Sys, step: Step)
    requires Shape(s) && Placed(s) && SoleHolders(s) && Enabled(s, step) && (step.DialSucceeds? || step.Deliver?)
    ensures SoleHolders(Next(cfg, s, step))
  {
    var s' := Next(cfg, s, step);
    var c := if step.DialSucceeds? then step.pc.conn else s.received[step.t].conn;
    if step.Deliver? {
      Elsewhere(s, c, Hand(step.t), InUse);
    }
    assert !Listed(s, c, InUse);
    if s.pool.closed {
      SameHolders(s, s');
    } else {
      NewHolder(s, s', step.t, c);
    }
  }

  lemma ReturnHolders(cfg: Config, s: Sys, step: Step)
    requires Shape(s) && SoleHolders(s) && Enabled(s, step) && Disciplined(s, step) && (step.Release? || step.Discard?)
    ensures SoleHolders(Next(cfg, s, step))
  {
  }

  lemma OtherHolders(cfg: Config, s: Sys, step: Step)
    requires Shape(s) && SoleHolders(s) && Enabled(s, step) && !step.Acquire?
    requires !step.DialSucceeds? && !step.Deliver? && !step.Release? && !step.Discard?
    ensures SoleHolders(Next(cfg, s, step))
  {
  }

  lemma StepKeepsHolders(cfg: Config, s: Sys, step: Step)
    requires Inv(s) && SoleHolders(s) && Enabled(s, step) && Disciplined(s, step)
    ensures SoleHolders(Next(cfg, s, step))
  {
    match step {
      case Acquire(t, clock, now) => AcquireHolders(cfg, s, t, clock, now);
      case DialSucceeds(_, _) => EnterHolders(cfg, s, step);
      case Deliver(_) => EnterHolders(cfg, s, step);
      case Release(_, _, _, _) => ReturnHolders(cfg, s, step);
      case Discard(_, _) => ReturnHolders(cfg, s, step);
      case _ => OtherHolders(cfg, s, step);
    }
  }

  /** If callers give back only what they hold, no connection is ever held by two Acquire calls. */
  lemma {:induction false} NoTwoHolders(cfg: Config, run: seq<Sys>, steps: seq<Step>, i: nat)
    requires IsRun(cfg, run, steps) && i < |run|
    requires forall k :: 0 <= k < |steps| ==> Disciplined(run[k], steps[k])
    ensures SoleHolders(run[i])
  {
    if i > 0 {
      NoTwoHolders(cfg, run, steps, i - 1);
      RunKeepsInv(cfg, run, steps, i - 1);
      StepKeepsHolders(cfg, run[i - 1], steps[i - 1]);
    }
  }

  // ---------------------------------------------------------------- the nil map after Close

  /** An Acquire enters its connection after Close. */
  predicate EntersLate(s: Sys, step: Step) {
    s.pool.closed && (step.DialSucceeds? || step.Deliver?)
  }

  lemma PanicIffLateEntry(cfg: Config, s: Sys, step: Step)
    requires Shape(s) && Enabled(s, step)
    ensures Next(cfg, s, step).panicked <==> EntersLate(s, step)
  {
  }

  /** A run has panicked if and only if some Acquire entered its connection after Close. */
  lemma {:induction false} RunPanicsIff(cfg: Config, run: seq<Sys>, steps: seq<Step>, i: nat)
    requires IsRun(cfg, run, steps) && i < |run|
    ensures run[i].panicked <==> exists j :: 0 <= j < i && EntersLate(run[j], steps[j])
  {
    if i > 0 {
      RunPanicsIff(cfg, run, steps, i - 1);
      RunStepPanicsIff(cfg, run, steps, i - 1);
    }
  }

  lemma RunStepPanicsIff(cfg: Config, run: seq<Sys>, steps: seq<Step>, i: nat)
    requires IsRun(cfg, run, steps) && i < |steps|
    ensures !run[i].panicked && (run[i + 1].panicked <==> EntersLate(run[i], steps[i]))
  {
    RunShape(cfg, run, steps, i);
    PanicIffLateEntry(cfg, run[i], steps[i]);
  }

  /** An Acquire is between its two lock sections. */
  predicate InFlight(s: Sys) {
    s.dialling != {} || s.pool.sent != map[] || s.received != map[]
  }

  lemma ClosedStaysIdle(cfg: Config, s: Sys, step: Step)
    requires Shape(s) && Enabled(s, step) && (s.pool.closed ==> !InFlight(s)) && (step.Close? ==> !InFlight(s))
    ensures Next(cfg, s, step).pool.closed ==> !InFlight(Next(cfg, s, step))
    ensures !Next(cfg, s, step).panicked
  {
    match step {
      case Acquire(t, clock, now) => AcquireFrame(cfg, s, t, clock, now);
      case Release(t, c, checkedAt, now) => ReleaseFrame(cfg, s, t, c, checkedAt, now);
      case _ =>
    }
  }

  /** If Close is never taken while an Acquire is between its sections, no run panics. */
  lemma {:induction false} CarefulCloseNeverPanics(cfg: Config, run: seq<Sys>, steps: seq<Step>, i: nat)
    requires IsRun(cfg, run, steps) && i < |run|
    requires forall k :: 0 <= k < |steps| && steps[k].Close? ==> !InFlight(run[k])
    ensures !run[i].panicked && (run[i].pool.closed ==> !InFlight(run[i]))
  {
    if i > 0 {
      CarefulCloseNeverPanics(cfg, run, steps, i - 1);
      RunShape(cfg, run, steps, i - 1);
      ClosedStaysIdle(cfg, run[i - 1], steps[i - 1]);
    }
  }

  lemma FreshConn(used: set<Conn>) returns (c: Conn)
    ensures c !in used
  {
    c := Above(used);
  }

  lemma {:induction false} Above(used: set<Conn>) returns (c: Conn)
    ensures forall x :: x in used ==> x < c
    decreases |used|
  {
    if used == {} {
      c := 0;
    } else {
      var x :| x in used;
      c := Above(used - {x});
      assert forall y :: y in used ==> y == x || y in used - {x};
      if c <= x {
        c := x + 1;
      }
    }
  }

  /** Conversely, a closed pool with an Acquire in flight can panic within two steps. */
  lemma CarelessCloseMayPanic(cfg: Config, s: Sys) returns (a: Step, b: Step)
    requires Inv(s) && !s.panicked && s.pool.closed && InFlight(s)
    ensures Enabled(s, a)
    ensures Next(cfg, s, a).panicked || (Shape(Next(cfg, s, a)) && Enabled(Next(cfg, s, a), b)
                                         && Next(cfg, Next(cfg, s, a), b).panicked)
  {
    b := Close;
    if s.dialling != {} {
      var t :| t in s.dialling;
      var c := FreshConn(s.place.Keys);
      a := DialSucceeds(t, PooledConn(c, 0, 0, 1));
    } else if s.received != map[] {
      var t :| t in s.received;
      a := Deliver(t);
    } else {
      var t :| t in s.pool.sent;
      a := Receive(t, 0);
      b := Deliver(t);
      ShapeKeeps(cfg, s, a);
    }
  }
}
