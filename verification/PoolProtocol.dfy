/**
 * The pool as a concurrent protocol: any number of Acquire calls, callers that give connections back, the two
 * replenishers and Close, interleaved at the granularity of the mutex sections. Counter updates made outside the mutex
 * are steps of their own.
 */
module PoolProtocol {
  import opened Base
  import opened PoolState

  /** The warm-up goroutine runs once; the maintenance goroutine replenishes again and again. */
  datatype Rep = WarmUp | Upkeep

  /**
   * A replenisher between iterations, dialling after its check, or holding a connection it has counted; left is the
   * number of iterations still to start.
   */
  datatype Phase = Ready | Looping(left: nat) | Dialling(left: nat) | Counted(pc: PooledConn, left: nat) | Finished

  /** Where a connection is. */
  datatype Place = Idle | InUse | Channel(call: Call) | Hand(call: Call) | Stock(rep: Rep) | Stranded | Retired

  /**
   * The pool, the Acquire calls in flight (dialling on a reservation, waiting on a channel, or having received a
   * hand-off they have not entered yet), the replenishers, and bookkeeping: hand-offs lost to a waiter that gave up,
   * connections closeConn was called for, who was given what, and where every connection ever dialled is.
   */
  datatype Sys = Sys(pool: Pool, calls: set<Call>, dialling: set<Call>, waiting: set<Call>,
                     received: map<Call, PooledConn>, warmUp: Phase, upkeep: Phase,
                     stranded: set<Conn>, retired: set<Conn>, holders: set<(Call, Conn)>,
                     place: map<Conn, Place>, panicked: bool)

  const START := Sys(EMPTY_POOL, {}, {}, {}, map[], Ready, Ready, {}, {}, {}, map[], false)

  datatype Step =
    | Acquire(t: Call, clock: Clock, now: Time)
    | DialFails(t: Call)
    | DialSucceeds(t: Call, pc: PooledConn)
    | Receive(t: Call, now: Time)
    | Deliver(t: Call)
    | SeeClosed(t: Call)
    | GiveUp(t: Call)
    | Release(t: Call, c: Conn, checkedAt: Time, now: Time)
    | Discard(t: Call, c: Conn)
    | Close
    | Cleanup(now: Time)
    | Plan(r: Rep)
    | Check(r: Rep)
    | RepDialFails(r: Rep)
    | Count(r: Rep, pc: PooledConn)
    | Insert(r: Rep)

  function PhaseOf(s: Sys, r: Rep): Phase {
    if r == WarmUp then s.warmUp else s.upkeep
  }

  function SetPhase(s: Sys, r: Rep, p: Phase): Sys {
    if r == WarmUp then s.(warmUp := p) else s.(upkeep := p)
  }

  predicate Enabled(s: Sys, step: Step) {
    && !s.panicked
    && match step
       case Acquire(t, _, _) => t !in s.calls
       case DialFails(t) => t in s.dialling
       case DialSucceeds(t, pc) => t in s.dialling && pc.conn !in s.place
       case Receive(t, _) => t in s.waiting && t in s.pool.sent
       case Deliver(t) => t in s.received
       case SeeClosed(t) => t in s.waiting && t in s.pool.woken && t !in s.pool.sent
       case GiveUp(t) => t in s.waiting
       case Release(_, _, _, _) => true
       case Discard(_, _) => true
       case Close => true
       case Cleanup(_) => true
       case Plan(r) => PhaseOf(s, r).Ready? || (r == Upkeep && s.upkeep.Finished?)
       case Check(r) => PhaseOf(s, r).Looping?
       case RepDialFails(r) => PhaseOf(s, r).Dialling?
       case Count(r, pc) => PhaseOf(s, r).Dialling? && pc.conn !in s.place
       case Insert(r) => PhaseOf(s, r).Counted?
  }

  /** closeConn was called for these connections. */
  function Retiring(s: Sys, cs: set<Conn>): Sys {
    s.(retired := s.retired + cs, place := map c | c in s.place :: if c in cs then Retired else s.place[c])
  }

  function TrimNext(cfg: Config, s: Sys, clock: Clock): Sys {
    var keep := |s.pool.idle| - Unhealthy(cfg, s.pool.idle, clock, 0);
    Retiring(s.(pool := TrimIdle(cfg, s.pool, clock)), Ids(s.pool.idle[keep..]))
  }

  function TakeNext(cfg: Config, s: Sys, t: Call, now: Time): Sys
    requires s.pool.inUse.Some?
  {
    var (q, outcome) := TakeOrQueue(cfg, s.pool, t, now);
    var s1 := s.(pool := q, calls := s.calls + {t});
    if outcome.FromIdle? then
      s1.(place := s.place[outcome.pc.conn := InUse], holders := s.holders + {(t, outcome.pc.conn)})
    else if outcome.Reserved? then s1.(dialling := s.dialling + {t})
    else s1.(waiting := s.waiting + {t})
  }

  function AcquireNext(cfg: Config, s: Sys, t: Call, clock: Clock, now: Time): Sys
    requires s.pool.closed || s.pool.inUse.Some?
  {
    if s.pool.closed then s.(calls := s.calls + {t}) else TakeNext(cfg, TrimNext(cfg, s, clock), t, now)
  }

  function DialFailsNext(s: Sys, t: Call): Sys {
    s.(pool := s.pool.(total := s.pool.total - 1), dialling := s.dialling - {t})
  }

  /** The call enters a connection into the in-use map; writing to the nil map panics. */
  function EnterNext(s: Sys, t: Call, pc: PooledConn): Sys {
    match InsertSection(s.pool, pc)
    case None => s.(panicked := true)
    case Some(q) => s.(pool := q, place := s.place[pc.conn := InUse], holders := s.holders + {(t, pc.conn)})
  }

  function DialSucceedsNext(s: Sys, t: Call, pc: PooledConn): Sys {
    var s1 := EnterNext(s, t, pc);
    if s.pool.inUse.None? then s1 else s1.(dialling := s.dialling - {t})
  }

  function DeliverNext(s: Sys, t: Call): Sys
    requires t in s.received
  {
    var s1 := EnterNext(s, t, s.received[t]);
    if s.pool.inUse.None? then s1 else s1.(received := s.received - {t})
  }

  function ReceiveNext(s: Sys, t: Call, now: Time): Sys
    requires t in s.pool.sent
  {
    var pc := Use(s.pool.sent[t], now);
    s.(pool := s.pool.(sent := s.pool.sent - {t}), waiting := s.waiting - {t}, received := s.received[t := pc],
       place := s.place[pc.conn := Hand(t)])
  }

  /** A hand-off still in the channel of a waiter that gives up is lost. */
  function GiveUpNext(s: Sys, t: Call): Sys {
    var q := GiveUpSection(s.pool, t);
    if t in q.sent then
      var c := q.sent[t].conn;
      s.(pool := q.(sent := q.sent - {t}), waiting := s.waiting - {t},
         stranded := s.stranded + {c}, place := s.place[c := Stranded])
    else s.(pool := q, waiting := s.waiting - {t})
  }

  function ReleaseNext(cfg: Config, s: Sys, t: Call, c: Conn, checkedAt: Time, now: Time): Sys {
    var p := s.pool;
    var s1 := s.(pool := ReleaseSection(cfg, p, c, checkedAt, now), holders := s.holders - {(t, c)});
    if !Lent(p, c) then s1
    else if p.closed || !Healthy(cfg, p.inUse.value[c], checkedAt) then Retiring(s1, {c})
    else if |p.waiters| > 0 then s1.(place := s1.place[c := Channel(p.waiters[0])])
    else s1.(place := s1.place[c := Idle])
  }

  function DiscardNext(s: Sys, t: Call, c: Conn): Sys {
    var s1 := s.(pool := DiscardSection(s.pool, c), holders := s.holders - {(t, c)});
    if Lent(s.pool, c) then Retiring(s1, {c}) else s1
  }

  function CloseNext(s: Sys): Sys
    requires s.pool.closed || s.pool.inUse.Some?
  {
    var s1 := s.(pool := CloseSection(s.pool));
    if s.pool.closed then s1 else Retiring(s1, Ids(s.pool.idle) + s.pool.inUse.value.Keys)
  }

  function CleanupNext(cfg: Config, s: Sys, now: Time): Sys {
    var s1 := s.(pool := CleanupSection(cfg, s.pool, now));
    if s.pool.closed then s1 else Retiring(s1, Ids(Drop(cfg, s.pool.idle, now)))
  }

  function CountNext(s: Sys, r: Rep, pc: PooledConn): Sys
    requires PhaseOf(s, r).Dialling?
  {
    SetPhase(s, r, Counted(pc, PhaseOf(s, r).left)).(pool := s.pool.(total := s.pool.total + 1),
                                                     place := s.place[pc.conn := Stock(r)])
  }

  function InsertNext(s: Sys, r: Rep): Sys
    requires PhaseOf(s, r).Counted?
  {
    var ph := PhaseOf(s, r);
    var s1 := s.(pool := StockSection(s.pool, ph.pc));
    if s.pool.closed then SetPhase(Retiring(s1, {ph.pc.conn}), r, Finished)
    else SetPhase(s1.(place := s.place[ph.pc.conn := Idle]), r, Looping(ph.left))
  }

  /** The remaining steps of a replenisher change only its phase. */
  function PhaseNext(cfg: Config, s: Sys, step: Step): Phase
    requires Enabled(s, step) && (step.Plan? || step.Check? || step.RepDialFails?)
  {
    match step
    case Plan(r) => if Needed(cfg, s.pool) == 0 then Finished else Looping(Needed(cfg, s.pool))
    case Check(r) =>
      var left := PhaseOf(s, r).left;
      if left > 0 && MayDial(cfg, s.pool) then Dialling(left - 1) else Finished
    case RepDialFails(r) => Looping(PhaseOf(s, r).left)
  }

  function Next(cfg: Config, s: Sys, step: Step): Sys
    requires Enabled(s, step)
    requires s.pool.closed || s.pool.inUse.Some?
  {
    match step
    case Acquire(t, clock, now) => AcquireNext(cfg, s, t, clock, now)
    case DialFails(t) => DialFailsNext(s, t)
    case DialSucceeds(t, pc) => DialSucceedsNext(s, t, pc)
    case Receive(t, now) => ReceiveNext(s, t, now)
    case Deliver(t) => DeliverNext(s, t)
    case SeeClosed(t) => s.(waiting := s.waiting - {t})
    case GiveUp(t) => GiveUpNext(s, t)
    case Release(t, c, checkedAt, now) => ReleaseNext(cfg, s, t, c, checkedAt, now)
    case Discard(t, c) => DiscardNext(s, t, c)
    case Close => CloseNext(s)
    case Cleanup(now) => CleanupNext(cfg, s, now)
    case Plan(r) => SetPhase(s, r, PhaseNext(cfg, s, step))
    case Check(r) => SetPhase(s, r, PhaseNext(cfg, s, step))
    case RepDialFails(r) => SetPhase(s, r, PhaseNext(cfg, s, step))
    case Count(r, pc) => CountNext(s, r, pc)
    case Insert(r) => InsertNext(s, r)
  }

  // ---------------------------------------------------------------- the invariant

  function Stocked(p: Phase): nat {
    if p.Counted? then 1 else 0
  }

  function LentCount(p: Pool): nat {
    if p.inUse.None? then 0 else |p.inUse.value|
  }

  ghost predicate Shape(s: Sys) {
    && (s.pool.closed <==> s.pool.inUse.None?)
    && (s.pool.closed ==> s.pool.idle == [] && s.pool.waiters == [])
  }

  /** Who is where in an Acquire: the part of the state that channels and calls are about. */
  datatype Flow = Flow(waiters: seq<Call>, sent: set<Call>, woken: set<Call>, calls: set<Call>,
                       dialling: set<Call>, waiting: set<Call>, received: set<Call>)

  function FlowOf(s: Sys): Flow {
    Flow(s.pool.waiters, s.pool.sent.Keys, s.pool.woken, s.calls, s.dialling, s.waiting, s.received.Keys)
  }

  /** Every waiting call is queued, has a hand-off, or has been woken; a queued one has an empty, open channel. */
  ghost predicate Queue(f: Flow) {
    && f.dialling <= f.calls && f.waiting <= f.calls && f.received <= f.calls && f.woken <= f.calls
    && f.received !! f.waiting && f.sent <= f.waiting && f.sent !! f.woken
    && (forall i :: 0 <= i < |f.waiters| ==>
          f.waiters[i] in f.waiting && f.waiters[i] !in f.sent && f.waiters[i] !in f.woken)
    && NoRepeats(f.waiters)
    && (forall t :: t in f.waiting ==> t in f.waiters || t in f.sent || t in f.woken)
  }

  /** The pool or a thread lists the connection at a place. */
  ghost predicate Listed(s: Sys, c: Conn, q: Place) {
    match q
    case Idle => c in Ids(s.pool.idle)
    case InUse => Lent(s.pool, c)
    case Channel(t) => t in s.pool.sent && s.pool.sent[t].conn == c
    case Hand(t) => t in s.received && s.received[t].conn == c
    case Stock(r) => PhaseOf(s, r).Counted? && PhaseOf(s, r).pc.conn == c
    case Stranded => c in s.stranded
    case Retired => c in s.retired
  }

  ghost predicate Distinct(pcs: seq<PooledConn>) {
    forall i, j :: 0 <= i < j < |pcs| ==> pcs[i].conn != pcs[j].conn
  }

  ghost predicate Keyed(p: Pool) {
    p.inUse.Some? ==> forall c :: c in p.inUse.value ==> p.inUse.value[c].conn == c
  }

  /** No connection is listed in two places, nor twice in the idle list. */
  ghost predicate Placed(s: Sys) {
    && (forall c, q :: Listed(s, c, q) ==> c in s.place && s.place[c] == q)
    && Distinct(s.pool.idle) && Keyed(s.pool)
  }

  /** The conservation law of the counter. */
  ghost predicate Balanced(s: Sys) {
    s.pool.total == |s.pool.idle| + LentCount(s.pool) + |s.dialling| + |s.pool.sent| + |s.received|
                    + Stocked(s.warmUp) + Stocked(s.upkeep) + |s.stranded|
  }

  /** closeConn never ran twice for the same connection. */
  ghost predicate ClosedOnce(s: Sys) {
    s.pool.closes == |s.retired|
  }

  ghost predicate Inv(s: Sys) {
    Shape(s) && Queue(FlowOf(s)) && Placed(s) && Balanced(s) && ClosedOnce(s)
  }

  // ---------------------------------------------------------------- counting

  lemma MapRemove<K, V>(m: map<K, V>, k: K)
    requires k in m
    ensures |m - {k}| == |m| - 1
  {
    assert (m - {k}).Keys == m.Keys - {k};
  }

  lemma {:induction false} IdsCard(pcs: seq<PooledConn>)
    requires forall i, j :: 0 <= i < j < |pcs| ==> pcs[i].conn != pcs[j].conn
    ensures |Ids(pcs)| == |pcs|
  {
    if pcs == [] {
      assert Ids(pcs) == {};
    } else {
      var init, last := pcs[..|pcs| - 1], pcs[|pcs| - 1];
      IdsCard(init);
      assert pcs == init + [last];
      assert Ids(pcs) == Ids(init) + {last.conn} by {
        assert forall x :: x in init ==> x in pcs;
        assert last in pcs;
      }
      assert last.conn !in Ids(init);
    }
  }

  // ---------------------------------------------------------------- every step keeps the queue

  predicate NoRepeats(w: seq<Call>) {
    forall i, j :: 0 <= i < j < |w| ==> w[i] != w[j]
  }

  lemma TailOf(w: seq<Call>)
    requires w != [] && NoRepeats(w)
    ensures NoRepeats(w[1..]) && w[0] !in w[1..]
    ensures forall x :: x in w <==> x == w[0] || x in w[1..]
  {
    assert w == [w[0]] + w[1..];
  }

  lemma {:induction false} RemoveFirstIs(w: seq<Call>, t: Call)
    requires NoRepeats(w)
    ensures NoRepeats(RemoveFirst(w, t)) && forall x :: x in RemoveFirst(w, t) <==> x in w && x != t
  {
    if w != [] {
      TailOf(w);
      if w[0] != t {
        RemoveFirstIs(w[1..], t);
        var r := RemoveFirst(w[1..], t);
        assert forall i :: 0 <= i < |r| ==> r[i] in r;
        assert RemoveFirst(w, t) == [w[0]] + r;
      }
    }
  }

  lemma FlowEnqueue(f: Flow, t: Call)
    requires Queue(f) && t !in f.calls
    ensures Queue(f.(calls := f.calls + {t}, waiting := f.waiting + {t}, waiters := f.waiters + [t]))
  {
  }

  lemma FlowHandOff(f: Flow)
    requires Queue(f) && f.waiters != []
    ensures Queue(f.(waiters := f.waiters[1..], sent := f.sent + {f.waiters[0]}))
  {
  }

  lemma FlowGiveUp(f: Flow, t: Call)
    requires Queue(f) && t in f.waiting
    ensures Queue(f.(waiters := RemoveFirst(f.waiters, t), waiting := f.waiting - {t}, sent := f.sent - {t}))
  {
    RemoveFirstIs(f.waiters, t);
    var r := RemoveFirst(f.waiters, t);
    assert forall i :: 0 <= i < |r| ==> r[i] in f.waiters;
  }

  lemma FlowReceive(f: Flow, t: Call)
    requires Queue(f) && t in f.sent
    ensures Queue(f.(waiting := f.waiting - {t}, sent := f.sent - {t}, received := f.received + {t}))
  {
  }

  lemma AcquireFlow(cfg: Config, s: Sys, t: Call, clock: Clock, now: Time)
    requires Shape(s) && Queue(FlowOf(s)) && t !in s.calls
    ensures Queue(FlowOf(AcquireNext(cfg, s, t, clock, now)))
  {
    var f := FlowOf(s);
    if s.pool.closed {
      FlowStart(f, t);
    } else {
      assert FlowOf(TrimNext(cfg, s, clock)) == f;
      TakeFlow(cfg, TrimNext(cfg, s, clock), t, now);
    }
  }

  lemma FlowStart(f: Flow, t: Call)
    requires Queue(f)
    ensures Queue(f.(calls := f.calls + {t}))
    ensures Queue(f.(calls := f.calls + {t}, dialling := f.dialling + {t}))
  {
  }

  lemma TakeFlow(cfg: Config, s: Sys, t: Call, now: Time)
    requires s.pool.inUse.Some? && Queue(FlowOf(s)) && t !in s.calls
    ensures Queue(FlowOf(TakeNext(cfg, s, t, now)))
  {
    if TakeOrQueue(cfg, s.pool, t, now).1.Queued? {
      FlowEnqueue(FlowOf(s), t);
    } else {
      FlowStart(FlowOf(s), t);
    }
  }

  lemma ReleaseFlow(cfg: Config, s: Sys, t: Call, c: Conn, checkedAt: Time, now: Time)
    requires Queue(FlowOf(s))
    ensures Queue(FlowOf(ReleaseNext(cfg, s, t, c, checkedAt, now)))
  {
    var f, f' := FlowOf(s), FlowOf(ReleaseNext(cfg, s, t, c, checkedAt, now));
    if f' != f {
      FlowHandOff(f);
      assert f' == f.(waiters := f.waiters[1..], sent := f.sent + {f.waiters[0]});
    }
  }

  lemma WaiterFlow(s: Sys, t: Call, now: Time)
    requires Queue(FlowOf(s)) && t in s.waiting
    ensures t in s.pool.sent ==> Queue(FlowOf(ReceiveNext(s, t, now)))
    ensures Queue(FlowOf(GiveUpNext(s, t)))
  {
    var f := FlowOf(s);
    FlowGiveUp(f, t);
    assert FlowOf(GiveUpNext(s, t))
        == f.(waiters := RemoveFirst(f.waiters, t), waiting := f.waiting - {t}, sent := f.sent - {t});
    if t in f.sent {
      FlowReceive(f, t);
      assert FlowOf(ReceiveNext(s, t, now))
          == f.(waiting := f.waiting - {t}, sent := f.sent - {t}, received := f.received + {t});
    }
  }

  lemma QuietFlow(cfg: Config, s: Sys, step: Step)
    requires Shape(s) && Enabled(s, step)
    requires || step.Discard? || step.Cleanup? || step.Plan? || step.Check? || step.RepDialFails? || step.Count?
             || step.Insert?
    ensures FlowOf(Next(cfg, s, step)) == FlowOf(s)
  {
  }

  lemma FlowKeeps(cfg: Config, s: Sys, step: Step)
    requires Shape(s) && Queue(FlowOf(s)) && Enabled(s, step)
    ensures Queue(FlowOf(Next(cfg, s, step)))
  {
    match step {
      case Acquire(t, clock, now) => AcquireFlow(cfg, s, t, clock, now);
      case DialFails(_) =>
      case DialSucceeds(_, _) =>
      case Receive(t, now) => WaiterFlow(s, t, now);
      case Deliver(_) =>
      case SeeClosed(_) =>
      case GiveUp(t) => WaiterFlow(s, t, 0);
      case Release(t, c, checkedAt, now) => ReleaseFlow(cfg, s, t, c, checkedAt, now);
      case Close =>
      case _ => QuietFlow(cfg, s, step);
    }
  }

  lemma AcquireShape(cfg: Config, s: Sys, t: Call, clock: Clock, now: Time)
    requires Shape(s)
    ensures Shape(AcquireNext(cfg, s, t, clock, now))
  {
  }

  lemma ReturnShape(cfg: Config, s: Sys, t: Call, c: Conn, checkedAt: Time, now: Time)
    requires Shape(s)
    ensures Shape(ReleaseNext(cfg, s, t, c, checkedAt, now)) && Shape(DiscardNext(s, t, c))
  {
  }

  lemma ShapeKeeps(cfg: Config, s: Sys, step: Step)
    requires Shape(s) && Enabled(s, step)
    ensures Shape(Next(cfg, s, step))
  {
    match step {
      case Acquire(t, clock, now) => AcquireShape(cfg, s, t, clock, now);
      case Release(t, c, checkedAt, now) => ReturnShape(cfg, s, t, c, checkedAt, now);
      case Discard(t, c) => ReturnShape(cfg, s, t, c, 0, 0);
      case _ =>
    }
  }

  // ---------------------------------------------------------------- every step keeps the places

  /** s' is s with the connections cs moved to q, or newly dialled there; other lists may only shrink. */
  ghost predicate Moved(s: Sys, s': Sys, cs: set<Conn>, q: Place) {
    && (forall c :: c in s.place ==> c in s'.place && s'.place[c] == if c in cs then q else s.place[c])
    && (forall c :: c in cs ==> c in s'.place && s'.place[c] == q)
    && (forall c, q' :: Listed(s', c, q') && q' != q ==> Listed(s, c, q') && c !in cs)
    && (forall c :: Listed(s', c, q) ==> c in cs || Listed(s, c, q))
  }

  lemma MovedIsPlaced(s: Sys, s': Sys, cs: set<Conn>, q: Place)
    requires Placed(s) && Moved(s, s', cs, q) && Distinct(s'.pool.idle) && Keyed(s'.pool)
    ensures Placed(s')
  {
  }

  lemma IdsSplit(pcs: seq<PooledConn>, k: nat)
    requires k <= |pcs| && Distinct(pcs)
    ensures Ids(pcs[..k]) !! Ids(pcs[k..]) && Ids(pcs) == Ids(pcs[..k]) + Ids(pcs[k..])
  {
  }

  lemma IdsSnoc(pcs: seq<PooledConn>, pc: PooledConn)
    ensures Ids(pcs + [pc]) == Ids(pcs) + {pc.conn}
    ensures Distinct(pcs) && pc.conn !in Ids(pcs) ==> Distinct(pcs + [pc])
  {
  }

  lemma DialPlaces(s: Sys, t: Call, pc: PooledConn)
    requires Placed(s) && pc.conn !in s.place
    ensures Placed(DialSucceedsNext(s, t, pc))
  {
    var s' := DialSucceedsNext(s, t, pc);
    if s.pool.inUse.Some? {
      forall c, q | Listed(s', c, q) && q != InUse
        ensures Listed(s, c, q) && c != pc.conn
      {
        assert Listed(s, c, q);
      }
      MovedIsPlaced(s, s', {pc.conn}, InUse);
    } else {
      SamePlaces(s, s');
    }
  }

  lemma SamePlaces(s: Sys, s': Sys)
    requires Placed(s) && s'.place == s.place && s'.pool.idle == s.pool.idle && s'.pool.inUse == s.pool.inUse
    requires s'.pool.sent == s.pool.sent && s'.received == s.received && s'.stranded == s.stranded
    requires s'.retired == s.retired
    requires !s'.warmUp.Counted? || s'.warmUp == s.warmUp
    requires !s'.upkeep.Counted? || s'.upkeep == s.upkeep
    ensures Placed(s')
  {
    forall c, q | Listed(s', c, q) ensures Listed(s, c, q) {
    }
  }

  lemma DeliverPlaces(s: Sys, t: Call)
    requires Placed(s) && t in s.received
    ensures Placed(DeliverNext(s, t))
  {
    var s' := DeliverNext(s, t);
    var pc := s.received[t];
    assert Listed(s, pc.conn, Hand(t));
    if s.pool.inUse.Some? {
      forall c, q | Listed(s', c, q) && q != InUse
        ensures Listed(s, c, q) && c != pc.conn
      {
        assert Listed(s, c, q);
      }
      MovedIsPlaced(s, s', {pc.conn}, InUse);
    } else {
      SamePlaces(s, s');
    }
  }

  lemma ReceivePlaces(s: Sys, t: Call, now: Time)
    requires Placed(s) && t in s.pool.sent && t !in s.received
    ensures Placed(ReceiveNext(s, t, now))
  {
    var s' := ReceiveNext(s, t, now);
    var x := s.pool.sent[t].conn;
    assert Listed(s, x, Channel(t));
    forall c, q | Listed(s', c, q) && q != Hand(t)
      ensures Listed(s, c, q) && c != x
    {
      assert Listed(s, c, q);
    }
    MovedIsPlaced(s, s', {x}, Hand(t));
  }

  lemma GiveUpPlaces(s: Sys, t: Call)
    requires Placed(s)
    ensures Placed(GiveUpNext(s, t))
  {
    var s' := GiveUpNext(s, t);
    if t in s.pool.sent {
      var x := s.pool.sent[t].conn;
      assert Listed(s, x, Channel(t));
      forall c, q | Listed(s', c, q) && q != Stranded
        ensures Listed(s, c, q) && c != x
      {
        assert Listed(s, c, q);
      }
      MovedIsPlaced(s, s', {x}, Stranded);
    } else {
      SamePlaces(s, s');
    }
  }

  lemma LentPlaces(s: Sys, s': Sys, c: Conn, q: Place)
    requires Placed(s) && Lent(s.pool, c) && s'.pool.inUse == Some(s.pool.inUse.value - {c})
    requires forall x, q' :: Listed(s', x, q') && q' != q ==> Listed(s, x, q')
    requires forall x :: Listed(s', x, q) ==> x == c || Listed(s, x, q)
    requires c in s.place && s'.place == s.place[c := q] && q != InUse && Distinct(s'.pool.idle)
    ensures Placed(s')
  {
    assert Listed(s, c, InUse);
    MovedIsPlaced(s, s', {c}, q);
  }

  lemma DiscardPlaces(s: Sys, t: Call, c: Conn)
    requires Placed(s)
    ensures Placed(DiscardNext(s, t, c))
  {
    var s' := DiscardNext(s, t, c);
    if Lent(s.pool, c) {
      assert Listed(s, c, InUse);
      assert s'.place == s.place[c := Retired];
      LentPlaces(s, s', c, Retired);
    } else {
      SamePlaces(s, s');
    }
  }

  lemma ReleasePlaces(cfg: Config, s: Sys, t: Call, c: Conn, checkedAt: Time, now: Time)
    requires Placed(s) && Queue(FlowOf(s))
    ensures Placed(ReleaseNext(cfg, s, t, c, checkedAt, now))
  {
    var s' := ReleaseNext(cfg, s, t, c, checkedAt, now);
    if !Lent(s.pool, c) {
      SamePlaces(s, s');
    } else {
      assert Listed(s, c, InUse);
      var pc := s.pool.inUse.value[c];
      if s.pool.closed || !Healthy(cfg, pc, checkedAt) {
        assert s'.place == s.place[c := Retired];
        LentPlaces(s, s', c, Retired);
      } else if |s.pool.waiters| > 0 {
        LentPlaces(s, s', c, Channel(s.pool.waiters[0]));
      } else {
        IdsSnoc(s.pool.idle, pc.(lastUsedAt := now));
        assert !Listed(s, c, Idle);
        LentPlaces(s, s', c, Idle);
      }
    }
  }

  /** Connections that leave the idle list for closeConn. */
  lemma IdleRetires(s: Sys, s': Sys, cs: set<Conn>)
    requires Placed(s) && cs <= Ids(s.pool.idle) && s' == Retiring(s.(pool := s'.pool), cs)
    requires s'.pool.inUse == s.pool.inUse && s'.pool.sent == s.pool.sent
    requires Distinct(s'.pool.idle) && Ids(s'.pool.idle) <= Ids(s.pool.idle) && Ids(s'.pool.idle) !! cs
    ensures Placed(s')
  {
    forall c, q | Listed(s', c, q) && q != Retired
      ensures Listed(s, c, q) && c !in cs
    {
      assert Listed(s, c, q);
      assert c in cs ==> Listed(s, c, Idle);
    }
    assert forall c :: c in cs ==> Listed(s, c, Idle);
    MovedIsPlaced(s, s', cs, Retired);
  }

  lemma TrimPlaces(cfg: Config, s: Sys, clock: Clock)
    requires Placed(s)
    ensures Placed(TrimNext(cfg, s, clock))
  {
    var keep := |s.pool.idle| - Unhealthy(cfg, s.pool.idle, clock, 0);
    IdsSplit(s.pool.idle, keep);
    IdleRetires(s, TrimNext(cfg, s, clock), Ids(s.pool.idle[keep..]));
  }

  lemma AcquirePlaces(cfg: Config, s: Sys, t: Call, clock: Clock, now: Time)
    requires Shape(s) && Placed(s)
    ensures Placed(AcquireNext(cfg, s, t, clock, now))
  {
    if s.pool.closed {
      SamePlaces(s, AcquireNext(cfg, s, t, clock, now));
    } else {
      TrimPlaces(cfg, s, clock);
      TakePlaces(cfg, TrimNext(cfg, s, clock), t, now);
    }
  }

  lemma TakePlaces(cfg: Config, s: Sys, t: Call, now: Time)
    requires Placed(s) && s.pool.inUse.Some?
    ensures Placed(TakeNext(cfg, s, t, now))
  {
    if |s.pool.idle| > 0 {
      var top := s.pool.idle[|s.pool.idle| - 1];
      PopPlaces(s, TakeNext(cfg, s, t, now), top, Use(top, now));
    } else {
      SamePlaces(s, TakeNext(cfg, s, t, now));
    }
  }

  lemma PopPlaces(s: Sys, s': Sys, top: PooledConn, pc: PooledConn)
    requires Placed(s) && s.pool.inUse.Some? && s.pool.idle != [] && top == s.pool.idle[|s.pool.idle| - 1]
    requires pc.conn == top.conn && s'.place == s.place[pc.conn := InUse]
    requires s'.pool == s.pool.(idle := s.pool.idle[..|s.pool.idle| - 1],
                                inUse := Some(s.pool.inUse.value[pc.conn := pc]))
    requires s'.received == s.received && s'.stranded == s.stranded && s'.retired == s.retired
    requires s'.warmUp == s.warmUp && s'.upkeep == s.upkeep
    ensures Placed(s')
  {
    var init := s.pool.idle[..|s.pool.idle| - 1];
    assert s.pool.idle == init + [top];
    IdsSnoc(init, top);
    assert Listed(s, top.conn, Idle);
    assert top.conn !in Ids(init);
    forall c, q | Listed(s', c, q) && q != InUse
      ensures Listed(s, c, q) && c != top.conn
    {
      assert Listed(s, c, q);
    }
    MovedIsPlaced(s, s', {top.conn}, InUse);
  }

  lemma ClosePlaces(s: Sys)
    requires Shape(s) && Placed(s)
    ensures Placed(CloseNext(s))
  {
    if s.pool.closed {
      SamePlaces(s, CloseNext(s));
    } else {
      AllRetire(s, CloseNext(s));
    }
  }

  lemma AllRetire(s: Sys, s': Sys)
    requires Placed(s) && s.pool.inUse.Some? && s'.pool.idle == [] && s'.pool.inUse == None
    requires s'.pool.sent == s.pool.sent
    requires s' == Retiring(s.(pool := s'.pool), Ids(s.pool.idle) + s.pool.inUse.value.Keys)
    ensures Placed(s')
  {
    var cs := Ids(s.pool.idle) + s.pool.inUse.value.Keys;
    assert Ids(s'.pool.idle) == {};
    forall c | c in cs ensures c in s.place && (s.place[c] == Idle || s.place[c] == InUse) {
      assert Listed(s, c, Idle) || Listed(s, c, InUse);
    }
    forall c, q | Listed(s', c, q) && q != Retired
      ensures Listed(s, c, q) && c !in cs
    {
      assert q != Idle && q != InUse;
      assert Listed(s, c, q);
    }
    MovedIsPlaced(s, s', cs, Retired);
  }

  lemma {:induction false} CleanupParts(cfg: Config, idle: seq<PooledConn>, now: Time)
    requires Distinct(idle)
    ensures var keep, drop := Keep(cfg, idle, now), Drop(cfg, idle, now);
            && |keep| + |drop| == |idle| && Distinct(keep) && Distinct(drop)
            && Ids(keep) !! Ids(drop) && Ids(keep) + Ids(drop) == Ids(idle)
  {
    if idle != [] {
      var init, last := idle[..|idle| - 1], idle[|idle| - 1];
      CleanupParts(cfg, init, now);
      assert idle == init + [last];
      IdsSnoc(init, last);
      assert last.conn !in Ids(init);
      IdsSnoc(Keep(cfg, init, now), last);
      IdsSnoc(Drop(cfg, init, now), last);
    }
  }

  lemma CleanupPlaces(cfg: Config, s: Sys, now: Time)
    requires Placed(s)
    ensures Placed(CleanupNext(cfg, s, now))
  {
    if s.pool.closed {
      SamePlaces(s, CleanupNext(cfg, s, now));
    } else {
      CleanupParts(cfg, s.pool.idle, now);
      IdleRetires(s, CleanupNext(cfg, s, now), Ids(Drop(cfg, s.pool.idle, now)));
    }
  }

  lemma CountPlaces(s: Sys, r: Rep, pc: PooledConn)
    requires Placed(s) && PhaseOf(s, r).Dialling? && pc.conn !in s.place
    ensures Placed(CountNext(s, r, pc))
  {
    var s' := CountNext(s, r, pc);
    forall c, q | Listed(s', c, q) && q != Stock(r)
      ensures Listed(s, c, q) && c != pc.conn
    {
      assert Listed(s, c, q);
    }
    MovedIsPlaced(s, s', {pc.conn}, Stock(r));
  }

  lemma InsertPlaces(s: Sys, r: Rep)
    requires Placed(s) && PhaseOf(s, r).Counted?
    ensures Placed(InsertNext(s, r))
  {
    var s' := InsertNext(s, r);
    var pc := PhaseOf(s, r).pc;
    assert Listed(s, pc.conn, Stock(r));
    var q0 := if s.pool.closed then Retired else Idle;
    if !s.pool.closed {
      IdsSnoc(s.pool.idle, pc);
      assert !Listed(s, pc.conn, Idle);
    }
    forall c, q | Listed(s', c, q) && q != q0
      ensures Listed(s, c, q) && c != pc.conn
    {
      assert Listed(s, c, q);
    }
    MovedIsPlaced(s, s', {pc.conn}, q0);
  }

  lemma PlacesKeep(cfg: Config, s: Sys, step: Step)
    requires Shape(s) && Queue(FlowOf(s)) && Placed(s) && Enabled(s, step)
    ensures Placed(Next(cfg, s, step))
  {
    match step {
      case Acquire(t, clock, now) => AcquirePlaces(cfg, s, t, clock, now);
      case DialSucceeds(t, pc) => DialPlaces(s, t, pc);
      case Receive(t, now) => ReceivePlaces(s, t, now);
      case Deliver(t) => DeliverPlaces(s, t);
      case GiveUp(t) => GiveUpPlaces(s, t);
      case Release(t, c, checkedAt, now) => ReleasePlaces(cfg, s, t, c, checkedAt, now);
      case Discard(t, c) => DiscardPlaces(s, t, c);
      case Close => ClosePlaces(s);
      case Cleanup(now) => CleanupPlaces(cfg, s, now);
      case Count(r, pc) => CountPlaces(s, r, pc);
      case Insert(r) => InsertPlaces(s, r);
      case _ => SamePlaces(s, Next(cfg, s, step));
    }
  }

  // ---------------------------------------------------------------- every step keeps the counts

  /** Both counting laws. */
  ghost predicate Counts(s: Sys) {
    Balanced(s) && ClosedOnce(s)
  }

  lemma FreshlyRetired(s: Sys, cs: set<Conn>)
    requires Placed(s) && forall c :: c in cs ==> exists q :: q != Retired && Listed(s, c, q)
    ensures cs !! s.retired
  {
    forall c | c in cs ensures c !in s.retired {
      var q :| q != Retired && Listed(s, c, q);
      assert c in s.retired ==> Listed(s, c, Retired);
    }
  }

  /** A connection listed at one place is not listed at another. */
  lemma Elsewhere(s: Sys, c: Conn, q: Place, q': Place)
    requires Placed(s) && Listed(s, c, q) && q != q'
    ensures !Listed(s, c, q')
  {
  }

  lemma RetiringCounts(s: Sys, s': Sys, pcs: seq<PooledConn>)
    requires Counts(s) && Ids(pcs) !! s.retired && Distinct(pcs)
    requires s' == Retiring(s.(pool := s'.pool), Ids(pcs))
    requires s'.pool == Retire(s.pool, pcs).(idle := s'.pool.idle) && |s'.pool.idle| == |s.pool.idle| - |pcs|
    ensures Counts(s')
  {
    IdsCard(pcs);
  }

  lemma TrimCounts(cfg: Config, s: Sys, clock: Clock)
    requires Placed(s) && Counts(s)
    ensures Counts(TrimNext(cfg, s, clock))
  {
    var keep := |s.pool.idle| - Unhealthy(cfg, s.pool.idle, clock, 0);
    var dropped := s.pool.idle[keep..];
    IdsSplit(s.pool.idle, keep);
    forall c | c in Ids(dropped) ensures Listed(s, c, Idle) {
    }
    FreshlyRetired(s, Ids(dropped));
    RetiringCounts(s, TrimNext(cfg, s, clock), dropped);
  }

  lemma TakeCounts(cfg: Config, s: Sys, t: Call, now: Time)
    requires Counts(s) && s.pool.inUse.Some? && t !in s.dialling
    requires |s.pool.idle| > 0 ==> !Lent(s.pool, s.pool.idle[|s.pool.idle| - 1].conn)
    ensures Counts(TakeNext(cfg, s, t, now))
  {
    if |s.pool.idle| == 0 && s.pool.total < cfg.maxPoolSize {
      assert |s.dialling + {t}| == |s.dialling| + 1;
    }
  }

  lemma AcquireCounts(cfg: Config, s: Sys, t: Call, clock: Clock, now: Time)
    requires Shape(s) && Placed(s) && Counts(s) && t !in s.dialling
    ensures Counts(AcquireNext(cfg, s, t, clock, now))
  {
    if !s.pool.closed {
      TrimPlaces(cfg, s, clock);
      TrimCounts(cfg, s, clock);
      var mid := TrimNext(cfg, s, clock);
      if |mid.pool.idle| > 0 {
        Elsewhere(mid, mid.pool.idle[|mid.pool.idle| - 1].conn, Idle, InUse);
      }
      TakeCounts(cfg, mid, t, now);
    }
  }

  lemma DialCounts(s: Sys, t: Call, pc: PooledConn)
    requires Counts(s) && t in s.dialling && !Lent(s.pool, pc.conn)
    ensures Counts(DialFailsNext(s, t)) && Counts(DialSucceedsNext(s, t, pc))
  {
  }

  lemma DeliverCounts(s: Sys, t: Call)
    requires Counts(s) && t in s.received && !Lent(s.pool, s.received[t].conn)
    ensures Counts(DeliverNext(s, t))
  {
  }

  lemma WaiterCounts(s: Sys, t: Call, now: Time)
    requires Counts(s) && t !in s.received && (t in s.pool.sent ==> s.pool.sent[t].conn !in s.stranded)
    ensures t in s.pool.sent ==> Counts(ReceiveNext(s, t, now))
    ensures Counts(GiveUpNext(s, t))
  {
  }

  lemma DiscardCounts(s: Sys, t: Call, c: Conn)
    requires Counts(s) && (Lent(s.pool, c) ==> c !in s.retired)
    ensures Counts(DiscardNext(s, t, c))
  {
  }

  lemma ReleaseCounts(cfg: Config, s: Sys, t: Call, c: Conn, checkedAt: Time, now: Time)
    requires Counts(s) && (Lent(s.pool, c) ==> c !in s.retired)
    requires |s.pool.waiters| > 0 ==> s.pool.waiters[0] !in s.pool.sent
    ensures Counts(ReleaseNext(cfg, s, t, c, checkedAt, now))
  {
    if Lent(s.pool, c) {
      MapRemove(s.pool.inUse.value, c);
      var pc := s.pool.inUse.value[c];
      if s.pool.closed || !Healthy(cfg, pc, checkedAt) {
        assert ReleaseSection(cfg, s.pool, c, checkedAt, now) == DiscardSection(s.pool, c);
        DiscardCounts(s, t, c);
      } else if |s.pool.waiters| > 0 {
        assert |s.pool.sent[s.pool.waiters[0] := pc]| == |s.pool.sent| + 1;
      }
    }
  }

  lemma IdleIsNotLent(s: Sys)
    requires Placed(s) && s.pool.inUse.Some?
    ensures var lent := s.pool.inUse.value.Keys;
            && Ids(s.pool.idle) !! lent
            && (forall c :: c in Ids(s.pool.idle) ==> Listed(s, c, Idle))
            && (forall c :: c in lent ==> Listed(s, c, InUse))
  {
    forall c | c in Ids(s.pool.idle) ensures Listed(s, c, Idle) && !Listed(s, c, InUse) {
    }
    forall c | c in s.pool.inUse.value.Keys ensures Listed(s, c, InUse) {
    }
  }

  lemma CloseCounts(s: Sys)
    requires Shape(s) && Placed(s) && Counts(s)
    ensures Counts(CloseNext(s))
  {
    if !s.pool.closed {
      IdsCard(s.pool.idle);
      IdleIsNotLent(s);
      FreshlyRetired(s, Ids(s.pool.idle) + s.pool.inUse.value.Keys);
    }
  }

  lemma CleanupCounts(cfg: Config, s: Sys, now: Time)
    requires Placed(s) && Counts(s)
    ensures Counts(CleanupNext(cfg, s, now))
  {
    if !s.pool.closed {
      CleanupParts(cfg, s.pool.idle, now);
      var drop := Drop(cfg, s.pool.idle, now);
      forall c | c in Ids(drop) ensures Listed(s, c, Idle) {
      }
      FreshlyRetired(s, Ids(drop));
      RetiringCounts(s, CleanupNext(cfg, s, now), drop);
    }
  }

  lemma InsertCounts(s: Sys, r: Rep)
    requires Counts(s) && PhaseOf(s, r).Counted? && PhaseOf(s, r).pc.conn !in s.retired
    ensures Counts(InsertNext(s, r))
  {
  }

  lemma CountsKeep(cfg: Config, s: Sys, step: Step)
    requires Inv(s) && Enabled(s, step)
    ensures Counts(Next(cfg, s, step))
  {
    match step {
      case Acquire(t, clock, now) => AcquireCounts(cfg, s, t, clock, now);
      case DialFails(t) =>
      case Receive(t, now) =>
        Elsewhere(s, s.pool.sent[t].conn, Channel(t), Stranded);
        WaiterCounts(s, t, now);
      case GiveUp(t) =>
        if t in s.pool.sent {
          Elsewhere(s, s.pool.sent[t].conn, Channel(t), Stranded);
        }
        WaiterCounts(s, t, 0);
      case DialSucceeds(t, pc) =>
        assert !Listed(s, pc.conn, InUse);
        DialCounts(s, t, pc);
      case Deliver(t) =>
        Elsewhere(s, s.received[t].conn, Hand(t), InUse);
        DeliverCounts(s, t);
      case Release(t, c, checkedAt, now) =>
        if Lent(s.pool, c) {
          Elsewhere(s, c, InUse, Retired);
        }
        ReleaseCounts(cfg, s, t, c, checkedAt, now);
      case Discard(t, c) =>
        if Lent(s.pool, c) {
          Elsewhere(s, c, InUse, Retired);
        }
        DiscardCounts(s, t, c);
      case Close => CloseCounts(s);
      case Cleanup(now) => CleanupCounts(cfg, s, now);
      case Insert(r) =>
        Elsewhere(s, PhaseOf(s, r).pc.conn, Stock(r), Retired);
        InsertCounts(s, r);
      case SeeClosed(_) =>
      case Count(r, pc) => CountCounts(s, r, pc);
      case Plan(r) => PhaseCounts(s, r, PhaseNext(cfg, s, step));
      case Check(r) => PhaseCounts(s, r, PhaseNext(cfg, s, step));
      case RepDialFails(r) => PhaseCounts(s, r, PhaseNext(cfg, s, step));
    }
  }

  lemma PhaseCounts(s: Sys, r: Rep, ph: Phase)
    requires Counts(s) && !PhaseOf(s, r).Counted? && !ph.Counted?
    ensures Counts(SetPhase(s, r, ph))
  {
  }

  lemma CountCounts(s: Sys, r: Rep, pc: PooledConn)
    requires Counts(s) && PhaseOf(s, r).Dialling?
    ensures Counts(CountNext(s, r, pc))
  {
  }

  lemma StepKeepsInv(cfg: Config, s: Sys, step: Step)
    requires Inv(s) && Enabled(s, step)
    ensures Inv(Next(cfg, s, step))
  {
    ShapeKeeps(cfg, s, step);
    FlowKeeps(cfg, s, step);
    PlacesKeep(cfg, s, step);
    CountsKeep(cfg, s, step);
  }
}
