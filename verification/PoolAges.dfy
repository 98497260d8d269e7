/**
 * The ages of connections over whole runs: when each was dialled and when it last changed hands is read off the steps
 * and the places of connections, and decides which are lent again and which are closed.
 */
module PoolAges {
  import opened Base
  import opened PoolState
  import opened PoolLaws
  import opened PoolProtocol
  import opened PoolTheorems

  // ---------------------------------------------------------------- the times of a run

  /** When each connection was dialled, and when it was last lent, received, given back to the idle list or stocked. */
  datatype Times = Times(born: map<Conn, Time>, since: map<Conn, Time>)

  predicate MovesTo(s: Sys, s': Sys, c: Conn, from: Place, to: Place) {
    c in s.place && c in s'.place && s.place[c] == from && s'.place[c] == to
  }

  function Moved(s: Sys, s': Sys, from: Place, to: Place): set<Conn> {
    set c | c in s.place && MovesTo(s, s', c, from, to)
  }

  function StampAll(since: map<Conn, Time>, cs: set<Conn>, now: Time): map<Conn, Time> {
    since + map c | c in cs :: now
  }

  function Restamped(t: Times, s: Sys, s': Sys, from: Place, to: Place, now: Time): Times {
    t.(since := StampAll(t.since, Moved(s, s', from, to), now))
  }

  function Stamp(t: Times, s: Sys, step: Step, s': Sys): Times {
    match step
    case DialSucceeds(_, pc) => Times(t.born[pc.conn := pc.createdAt], t.since[pc.conn := pc.lastUsedAt])
    case Count(_, pc) => Times(t.born[pc.conn := pc.createdAt], t.since[pc.conn := pc.lastUsedAt])
    case Acquire(_, _, now) => Restamped(t, s, s', Idle, InUse, now)
    case Receive(call, now) => Restamped(t, s, s', Channel(call), Hand(call), now)
    case Release(_, _, _, now) => Restamped(t, s, s', InUse, Idle, now)
    case _ => t
  }

  function TimesAt(run: seq<Sys>, steps: seq<Step>, i: nat): Times
    requires i <= |steps| < |run|
  {
    if i == 0 then Times(map[], map[]) else Stamp(TimesAt(run, steps, i - 1), run[i - 1], steps[i - 1], run[i])
  }

  // ---------------------------------------------------------------- the pool keeps the right times

  predicate Fits(t: Times, pc: PooledConn) {
    && pc.conn in t.born && t.born[pc.conn] == pc.createdAt
    && pc.conn in t.since && t.since[pc.conn] == pc.lastUsedAt
  }

  /** The pool or a thread has the connection at a place, in this condition. */
  predicate Has(s: Sys, q: Place, pc: PooledConn) {
    match q
    case Idle => pc in s.pool.idle
    case InUse => Lent(s.pool, pc.conn) && s.pool.inUse.value[pc.conn] == pc
    case Channel(t) => t in s.pool.sent && s.pool.sent[t] == pc
    case Hand(t) => t in s.received && s.received[t] == pc
    case Stock(r) => PhaseOf(s, r).Counted? && PhaseOf(s, r).pc == pc
    case _ => false
  }

  ghost predicate Timed(s: Sys, t: Times) {
    forall q, pc :: Has(s, q, pc) ==> Fits(t, pc)
  }

  lemma HasIsListed(s: Sys, q: Place, pc: PooledConn)
    requires Placed(s) && Has(s, q, pc)
    ensures Listed(s, pc.conn, q) && pc.conn in s.place && s.place[pc.conn] == q
  {
    if q == Idle {
      assert pc.conn in Ids(s.pool.idle);
    }
    assert Listed(s, pc.conn, q);
  }

  /** Everything the next state has was there before, in the same condition and not restamped. */
  lemma TimedBySame(s: Sys, s': Sys, t: Times, t': Times)
    requires Timed(s, t)
    requires forall q, pc :: Has(s', q, pc) ==> (exists p :: Has(s, p, pc)) && (Fits(t, pc) ==> Fits(t', pc))
    ensures Timed(s', t')
  {
    forall q, pc | Has(s', q, pc) ensures Fits(t', pc) {
      var p :| Has(s, p, pc);
    }
  }

  lemma FreshTimed(s: Sys, s': Sys, t: Times, first: PooledConn)
    requires Placed(s) && Timed(s, t) && first.conn !in s.place
    requires forall q, pc :: Has(s', q, pc) ==> pc == first || Has(s, q, pc)
    ensures Timed(s', Times(t.born[first.conn := first.createdAt], t.since[first.conn := first.lastUsedAt]))
  {
    forall q, pc | Has(s', q, pc) && pc != first ensures pc.conn != first.conn && Fits(t, pc) {
      HasIsListed(s, q, pc);
    }
  }

  /** One connection moves, restamped; all others stay as they are. */
  lemma MovedTimed(s: Sys, s': Sys, t: Times, from: Place, to: Place, was: PooledConn, moved: PooledConn, now: Time)
    requires Placed(s) && Placed(s') && Timed(s, t) && Has(s, from, was) && Has(s', to, moved) && from != to
    requires moved.conn == was.conn && moved.createdAt == was.createdAt && moved.lastUsedAt == now
    requires forall q, pc :: Has(s', q, pc) ==> pc == moved || (pc.conn != moved.conn && Has(s, q, pc))
    ensures Timed(s', Restamped(t, s, s', from, to, now))
  {
    HasIsListed(s, from, was);
    HasIsListed(s', to, moved);
    var t' := Restamped(t, s, s', from, to, now);
    forall q, pc | Has(s', q, pc) ensures Fits(t', pc) {
      if pc != moved {
        HasIsListed(s, q, pc);
        HasIsListed(s', q, pc);
        assert !MovesTo(s, s', pc.conn, from, to);
      }
    }
  }

  lemma TakeTimed(cfg: Config, s: Sys, t: Times, call: Call, now: Time)
    requires s.pool.inUse.Some? && Placed(s) && Placed(TakeNext(cfg, s, call, now)) && Timed(s, t)
    ensures Timed(TakeNext(cfg, s, call, now), Restamped(t, s, TakeNext(cfg, s, call, now), Idle, InUse, now))
  {
    var s' := TakeNext(cfg, s, call, now);
    if |s.pool.idle| > 0 {
      var n := |s.pool.idle| - 1;
      var top := s.pool.idle[n];
      forall q, pc | Has(s', q, pc) && pc != Use(top, now) ensures pc.conn != top.conn && Has(s, q, pc) {
        HasIsListed(s', q, pc);
        HasIsListed(s, Idle, top);
      }
      MovedTimed(s, s', t, Idle, InUse, top, Use(top, now), now);
    } else {
      forall q, pc | Has(s', q, pc)
        ensures Has(s, q, pc) && (Fits(t, pc) ==> Fits(Restamped(t, s, s', Idle, InUse, now), pc))
      {
        HasIsListed(s, q, pc);
      }
      TimedBySame(s, s', t, Restamped(t, s, s', Idle, InUse, now));
    }
  }

  lemma TrimTimed(cfg: Config, s: Sys, t: Times, clock: Clock)
    requires Timed(s, t)
    ensures Timed(TrimNext(cfg, s, clock), t)
  {
    var s' := TrimNext(cfg, s, clock);
    forall q, pc | Has(s', q, pc) ensures Has(s, q, pc) {
    }
    TimedBySame(s, s', t, t);
  }

  /** Trimming does not hide a move from the idle list into use. */
  lemma TrimMoves(cfg: Config, s: Sys, call: Call, clock: Clock, now: Time, c: Conn)
    requires s.pool.inUse.Some? && Placed(TrimNext(cfg, s, clock))
    ensures var mid := TrimNext(cfg, s, clock);
            var s' := TakeNext(cfg, mid, call, now);
            MovesTo(mid, s', c, Idle, InUse) <==> MovesTo(s, s', c, Idle, InUse)
  {
    TakePlace(cfg, TrimNext(cfg, s, clock), call, now);
    TrimPlace(cfg, s, clock, c);
  }

  lemma RestampSame(t: Times, a: Sys, b: Sys, s': Sys, from: Place, to: Place, now: Time)
    requires forall c :: MovesTo(a, s', c, from, to) <==> MovesTo(b, s', c, from, to)
    ensures Restamped(t, a, s', from, to, now) == Restamped(t, b, s', from, to, now)
  {
    assert Moved(a, s', from, to) == Moved(b, s', from, to);
  }

  lemma RestampNone(t: Times, s: Sys, s': Sys, from: Place, to: Place, now: Time)
    requires forall c :: !MovesTo(s, s', c, from, to)
    ensures Restamped(t, s, s', from, to, now) == t
  {
    assert Moved(s, s', from, to) == {};
    assert StampAll(t.since, {}, now) == t.since;
  }

  /** Trimming retires what it drops and moves nothing else. */
  lemma TrimPlace(cfg: Config, s: Sys, clock: Clock, c: Conn)
    ensures var mid := TrimNext(cfg, s, clock);
            (c in mid.place <==> c in s.place) && (c in s.place ==> mid.place[c] in {Retired, s.place[c]})
  {
  }

  /** Taking from the idle list moves the top into use and nothing else. */
  lemma TakePlace(cfg: Config, s: Sys, call: Call, now: Time)
    requires s.pool.inUse.Some? && Placed(s)
    ensures var s' := TakeNext(cfg, s, call, now);
            forall c :: c in s.place ==>
              c in s'.place && (s'.place[c] == s.place[c] || (s.place[c] == Idle && s'.place[c] == InUse))
  {
    if |s.pool.idle| > 0 {
      HasIsListed(s, Idle, s.pool.idle[|s.pool.idle| - 1]);
    }
  }

  lemma AcquireTimed(cfg: Config, s: Sys, t: Times, call: Call, clock: Clock, now: Time)
    requires Shape(s) && Placed(s) && Timed(s, t)
    ensures var s' := AcquireNext(cfg, s, call, clock, now); Timed(s', Restamped(t, s, s', Idle, InUse, now))
  {
    var s' := AcquireNext(cfg, s, call, clock, now);
    if s.pool.closed {
      forall q, pc | Has(s', q, pc)
        ensures Has(s, q, pc) && (Fits(t, pc) ==> Fits(Restamped(t, s, s', Idle, InUse, now), pc))
      {
      }
      TimedBySame(s, s', t, Restamped(t, s, s', Idle, InUse, now));
    } else {
      var mid := TrimNext(cfg, s, clock);
      TrimPlaces(cfg, s, clock);
      TrimTimed(cfg, s, t, clock);
      TakePlaces(cfg, mid, call, now);
      TakeTimed(cfg, mid, t, call, now);
      forall c ensures MovesTo(mid, s', c, Idle, InUse) <==> MovesTo(s, s', c, Idle, InUse) {
        TrimMoves(cfg, s, call, clock, now, c);
      }
      RestampSame(t, mid, s, s', Idle, InUse, now);
    }
  }

  lemma ReceiveTimed(s: Sys, t: Times, call: Call, now: Time)
    requires call in s.pool.sent && Placed(s) && Placed(ReceiveNext(s, call, now)) && Timed(s, t)
    ensures var s' := ReceiveNext(s, call, now); Timed(s', Restamped(t, s, s', Channel(call), Hand(call), now))
  {
    var s' := ReceiveNext(s, call, now);
    var pc0 := s.pool.sent[call];
    forall q, pc | Has(s', q, pc) && pc != Use(pc0, now) ensures pc.conn != pc0.conn && Has(s, q, pc) {
      HasIsListed(s', q, pc);
      HasIsListed(s', Hand(call), Use(pc0, now));
    }
    MovedTimed(s, s', t, Channel(call), Hand(call), pc0, Use(pc0, now), now);
  }

  lemma ReleaseTimed(cfg: Config, s: Sys, t: Times, call: Call, c: Conn, checkedAt: Time, now: Time)
    requires Placed(s) && Placed(ReleaseNext(cfg, s, call, c, checkedAt, now)) && Timed(s, t)
    ensures var s' := ReleaseNext(cfg, s, call, c, checkedAt, now); Timed(s', Restamped(t, s, s', InUse, Idle, now))
  {
    var s' := ReleaseNext(cfg, s, call, c, checkedAt, now);
    if Lent(s.pool, c) && c in s'.place && s'.place[c] == Idle {
      var pc0 := s.pool.inUse.value[c];
      var back := pc0.(lastUsedAt := now);
      assert Has(s', Idle, back);
      forall q, pc | Has(s', q, pc) && pc != back ensures pc.conn != c && Has(s, q, pc) {
        HasIsListed(s', q, pc);
        if pc.conn == c {
          OneOfAKind(s', back, pc);
        }
      }
      MovedTimed(s, s', t, InUse, Idle, pc0, back, now);
    } else {
      ReleasedElsewhere(cfg, s, t, call, c, checkedAt, now);
    }
  }

  lemma ReleasedElsewhere(cfg: Config, s: Sys, t: Times, call: Call, c: Conn, checkedAt: Time, now: Time)
    requires Placed(s) && Timed(s, t)
    requires var s' := ReleaseNext(cfg, s, call, c, checkedAt, now);
             !(Lent(s.pool, c) && c in s'.place && s'.place[c] == Idle)
    ensures var s' := ReleaseNext(cfg, s, call, c, checkedAt, now); Timed(s', Restamped(t, s, s', InUse, Idle, now))
  {
    var s' := ReleaseNext(cfg, s, call, c, checkedAt, now);
    forall q, pc | Has(s', q, pc) ensures exists p :: Has(s, p, pc) {
      assert Has(s, q, pc) || Has(s, InUse, pc);
    }
    TimedBySame(s, s', t, t);
    forall k ensures !MovesTo(s, s', k, InUse, Idle) {
      ReleasePlace(cfg, s, call, c, checkedAt, now, k);
    }
    RestampNone(t, s, s', InUse, Idle, now);
  }

  lemma ReleasePlace(cfg: Config, s: Sys, call: Call, c: Conn, checkedAt: Time, now: Time, k: Conn)
    ensures var s' := ReleaseNext(cfg, s, call, c, checkedAt, now);
            k in s.place && (k != c || !Lent(s.pool, c)) ==> k in s'.place && s'.place[k] == s.place[k]
  {
  }

  lemma OneOfAKind(s: Sys, a: PooledConn, b: PooledConn)
    requires Placed(s) && a in s.pool.idle && b in s.pool.idle && a.conn == b.conn
    ensures a == b
  {
    var i :| 0 <= i < |s.pool.idle| && s.pool.idle[i] == a;
    var j :| 0 <= j < |s.pool.idle| && s.pool.idle[j] == b;
    assert i == j;
  }

  lemma DialTimed(s: Sys, t: Times, call: Call, pc0: PooledConn)
    requires Placed(s) && Timed(s, t) && pc0.conn !in s.place
    ensures Timed(DialSucceedsNext(s, call, pc0),
                  Times(t.born[pc0.conn := pc0.createdAt], t.since[pc0.conn := pc0.lastUsedAt]))
  {
    FreshTimed(s, DialSucceedsNext(s, call, pc0), t, pc0);
  }

  lemma CountTimed(s: Sys, t: Times, r: Rep, pc0: PooledConn)
    requires Placed(s) && Timed(s, t) && pc0.conn !in s.place && PhaseOf(s, r).Dialling?
    ensures Timed(CountNext(s, r, pc0), Times(t.born[pc0.conn := pc0.createdAt], t.since[pc0.conn := pc0.lastUsedAt]))
  {
    var s' := CountNext(s, r, pc0);
    forall q, pc | Has(s', q, pc) && pc != pc0 ensures Has(s, q, pc) {
    }
    FreshTimed(s, s', t, pc0);
  }

  lemma DeliverTimed(s: Sys, t: Times, call: Call)
    requires Timed(s, t) && call in s.received
    ensures Timed(DeliverNext(s, call), t)
  {
    var s' := DeliverNext(s, call);
    forall q, pc | Has(s', q, pc) ensures exists p :: Has(s, p, pc) {
      assert Has(s, q, pc) || Has(s, Hand(call), pc);
    }
    TimedBySame(s, s', t, t);
  }

  lemma InsertTimed(s: Sys, t: Times, r: Rep)
    requires Timed(s, t) && PhaseOf(s, r).Counted?
    ensures Timed(InsertNext(s, r), t)
  {
    var s' := InsertNext(s, r);
    forall q, pc | Has(s', q, pc) ensures exists p :: Has(s, p, pc) {
      assert Has(s, q, pc) || Has(s, Stock(r), pc);
    }
    TimedBySame(s, s', t, t);
  }

  lemma {:induction false} KeptWasThere(cfg: Config, idle: seq<PooledConn>, now: Time)
    ensures forall pc :: pc in Keep(cfg, idle, now) ==> pc in idle
  {
    if idle != [] {
      KeptWasThere(cfg, idle[..|idle| - 1], now);
    }
  }

  lemma CleanupTimed(cfg: Config, s: Sys, t: Times, now: Time)
    requires Timed(s, t)
    ensures Timed(CleanupNext(cfg, s, now), t)
  {
    KeptWasThere(cfg, s.pool.idle, now);
    var s' := CleanupNext(cfg, s, now);
    forall q, pc | Has(s', q, pc) ensures Has(s, q, pc) {
    }
    TimedBySame(s, s', t, t);
  }

  lemma DiscardTimed(s: Sys, t: Times, call: Call, c: Conn)
    requires Timed(s, t)
    ensures Timed(DiscardNext(s, call, c), t) && Timed(GiveUpNext(s, call), t)
  {
    forall q, pc | Has(DiscardNext(s, call, c), q, pc) ensures Has(s, q, pc) {
    }
    TimedBySame(s, DiscardNext(s, call, c), t, t);
    forall q, pc | Has(GiveUpNext(s, call), q, pc) ensures Has(s, q, pc) {
    }
    TimedBySame(s, GiveUpNext(s, call), t, t);
  }

  /** The remaining steps leave connections alone, or drop them. */
  lemma OtherTimed(cfg: Config, s: Sys, t: Times, step: Step)
    requires Shape(s) && Timed(s, t) && Enabled(s, step)
    requires step.DialFails? || step.SeeClosed? || step.Close? || step.Plan? || step.Check? || step.RepDialFails?
    ensures Timed(Next(cfg, s, step), t)
  {
    var s' := Next(cfg, s, step);
    forall q, pc | Has(s', q, pc) ensures Has(s, q, pc) {
    }
    TimedBySame(s, s', t, t);
  }

  lemma StepKeepsTimes(cfg: Config, s: Sys, t: Times, step: Step, s': Sys)
    requires Inv(s) && Inv(s') && Timed(s, t) && Stepped(cfg, s, step, s')
    ensures Timed(s', Stamp(t, s, step, s'))
  {
    match step {
      case Acquire(call, clock, now) => AcquireTimed(cfg, s, t, call, clock, now);
      case DialSucceeds(call, pc) => DialTimed(s, t, call, pc);
      case Receive(call, now) => ReceiveTimed(s, t, call, now);
      case Release(call, c, checkedAt, now) => ReleaseTimed(cfg, s, t, call, c, checkedAt, now);
      case Count(r, pc) => CountTimed(s, t, r, pc);
      case Deliver(call) => DeliverTimed(s, t, call);
      case Insert(r) => InsertTimed(s, t, r);
      case Cleanup(now) => CleanupTimed(cfg, s, t, now);
      case Discard(call, c) => DiscardTimed(s, t, call, c);
      case GiveUp(call) => DiscardTimed(s, t, call, 0);
      case _ => OtherTimed(cfg, s, t, step);
    }
  }

  /** In every run the pool's own time stamps are the times read off the run. */
  lemma {:induction false} RunKeepsTimes(cfg: Config, run: seq<Sys>, steps: seq<Step>, i: nat)
    requires IsRun(cfg, run, steps) && i < |run|
    ensures Timed(run[i], TimesAt(run, steps, i))
  {
    if i == 0 {
      StartTimed();
    } else {
      RunKeepsTimes(cfg, run, steps, i - 1);
      NextTimes(cfg, run, steps, i - 1);
    }
  }

  lemma StartTimed()
    ensures Timed(START, Times(map[], map[]))
  {
  }

  lemma NextTimes(cfg: Config, run: seq<Sys>, steps: seq<Step>, i: nat)
    requires IsRun(cfg, run, steps) && i < |steps| && Timed(run[i], TimesAt(run, steps, i))
    ensures Timed(run[i + 1], TimesAt(run, steps, i + 1))
  {
    RunStepTimes(cfg, run, steps, i, TimesAt(run, steps, i));
  }

  lemma RunStepTimes(cfg: Config, run: seq<Sys>, steps: seq<Step>, i: nat, t: Times)
    requires IsRun(cfg, run, steps) && i < |steps| && Timed(run[i], t)
    ensures Timed(run[i + 1], Stamp(t, run[i], steps[i], run[i + 1]))
  {
    RunKeepsInv(cfg, run, steps, i);
    RunKeepsInv(cfg, run, steps, i + 1);
    StepKeepsTimes(cfg, run[i], t, steps[i], run[i + 1]);
  }

  lemma RunAged(cfg: Config, run: seq<Sys>, steps: seq<Step>, i: nat)
    requires IsRun(cfg, run, steps) && i < |run|
    ensures Shape(run[i]) && Placed(run[i]) && Timed(run[i], TimesAt(run, steps, i))
  {
    RunKeepsInv(cfg, run, steps, i);
    RunKeepsTimes(cfg, run, steps, i);
  }

  // ---------------------------------------------------------------- age decides

  /** By the times of the run, the connection was dialled or last touched too long ago. */
  predicate TooOld(cfg: Config, t: Times, c: Conn, now: Time) {
    || (c in t.born && now - t.born[c] > cfg.maxConnLifetime)
    || (c in t.since && now - t.since[c] > cfg.idleTimeout)
  }

  lemma TooOldIsExpired(cfg: Config, s: Sys, t: Times, q: Place, pc: PooledConn, now: Time)
    requires Timed(s, t) && Has(s, q, pc)
    ensures TooOld(cfg, t, pc.conn, now) <==> Expired(cfg, pc, now)
  {
  }

  /** The limits that a pool made by NewBackendPool has (WithDefaults). */
  predicate Limited(cfg: Config) {
    cfg.maxConnLifetime > 0 && cfg.idleTimeout > 0
  }

  /** Position k of the idle list is too old at its check. */
  predicate TooOldAt(cfg: Config, s: Sys, t: Times, clock: Clock, k: nat)
    requires k < |s.pool.idle|
  {
    TooOld(cfg, t, s.pool.idle[k].conn, clock(|s.pool.idle| - 1 - k))
  }

  predicate AllAbove(cfg: Config, s: Sys, t: Times, clock: Clock, k: nat)
    requires k < |s.pool.idle|
  {
    forall j: nat :: k < j < |s.pool.idle| ==> TooOldAt(cfg, s, t, clock, j)
  }

  /** Where the connections above position n of the idle list are after Acquire. */
  lemma DroppedIsRetired(cfg: Config, s: Sys, call: Call, clock: Clock, now: Time, k: nat)
    requires Shape(s) && !s.pool.closed && Placed(s) && k < |s.pool.idle|
    requires k >= |s.pool.idle| - Unhealthy(cfg, s.pool.idle, clock, 0)
    ensures var s' := AcquireNext(cfg, s, call, clock, now);
            s.pool.idle[k].conn in s'.place && s'.place[s.pool.idle[k].conn] == Retired
  {
    var mid := TrimNext(cfg, s, clock);
    var c := s.pool.idle[k].conn;
    HasIsListed(s, Idle, s.pool.idle[k]);
    var keep := |s.pool.idle| - Unhealthy(cfg, s.pool.idle, clock, 0);
    assert s.pool.idle[keep..][k - keep] == s.pool.idle[k];
    assert c in Ids(s.pool.idle[keep..]);
    assert mid.place[c] == Retired;
    TrimPlaces(cfg, s, clock);
    TakePlace(cfg, mid, call, now);
  }

  /** Position n, if any, is lent; those above are closed, those below stay. */
  lemma AcquirePlaceAt(cfg: Config, s: Sys, call: Call, clock: Clock, now: Time, k: nat) returns (n: int)
    requires Limited(cfg) && Shape(s) && Placed(s) && !s.pool.closed && k < |s.pool.idle|
    ensures -1 <= n < |s.pool.idle| && ExpiredAbove(cfg, s.pool.idle, clock, n)
    ensures n >= 0 ==> !Expired(cfg, s.pool.idle[n], clock(|s.pool.idle| - 1 - n))
    ensures var s' := AcquireNext(cfg, s, call, clock, now);
            var c := s.pool.idle[k].conn;
            c in s'.place && s'.place[c] == if k < n then Idle else if k == n then InUse else Retired
  {
    var s' := AcquireNext(cfg, s, call, clock, now);
    n := AcquireOutcome(cfg, s.pool, call, clock, now);
    AcquirePlaces(cfg, s, call, clock, now);
    AcquireIsSection(cfg, s, call, clock, now);
    if k <= n {
      KeptPlace(s, s', n, k);
    } else {
      DroppedIsRetired(cfg, s, call, clock, now, k);
    }
  }

  lemma KeptPlace(s: Sys, s': Sys, n: nat, k: nat)
    requires k <= n < |s.pool.idle| && Placed(s') && s'.pool.idle == s.pool.idle[..n]
    requires Lent(s'.pool, s.pool.idle[n].conn)
    ensures var c := s.pool.idle[k].conn; c in s'.place && s'.place[c] == if k < n then Idle else InUse
  {
    if k < n {
      assert s'.pool.idle[k] == s.pool.idle[k];
      HasIsListed(s', Idle, s.pool.idle[k]);
    } else {
      assert Listed(s', s.pool.idle[k].conn, InUse);
    }
  }

  lemma AboveIff(cfg: Config, s: Sys, t: Times, clock: Clock, n: int, k: nat)
    requires Timed(s, t) && -1 <= n < |s.pool.idle| && ExpiredAbove(cfg, s.pool.idle, clock, n) && k < |s.pool.idle|
    requires n >= 0 ==> !Expired(cfg, s.pool.idle[n], clock(|s.pool.idle| - 1 - n))
    ensures AllAbove(cfg, s, t, clock, k) <==> k >= n
    ensures k > n ==> TooOldAt(cfg, s, t, clock, k)
    ensures k == n ==> !TooOldAt(cfg, s, t, clock, k)
  {
    forall j: nat | j < |s.pool.idle|
      ensures TooOldAt(cfg, s, t, clock, j) <==> Expired(cfg, s.pool.idle[j], clock(|s.pool.idle| - 1 - j))
    {
      TooOldIsExpired(cfg, s, t, Idle, s.pool.idle[j], clock(|s.pool.idle| - 1 - j));
    }
  }

  lemma AcquireByAge(cfg: Config, s: Sys, t: Times, call: Call, clock: Clock, now: Time, k: nat)
    requires Limited(cfg) && Shape(s) && Placed(s) && Timed(s, t) && !s.pool.closed && k < |s.pool.idle|
    ensures var s' := AcquireNext(cfg, s, call, clock, now);
            var c := s.pool.idle[k].conn;
            && c in s'.place
            && s'.place[c] == if !AllAbove(cfg, s, t, clock, k) then Idle
                              else if TooOldAt(cfg, s, t, clock, k) then Retired else InUse
  {
    var n := AcquirePlaceAt(cfg, s, call, clock, now, k);
    AboveIff(cfg, s, t, clock, n, k);
  }

  lemma AcquireIsSection(cfg: Config, s: Sys, call: Call, clock: Clock, now: Time)
    requires Shape(s) && !s.pool.closed
    ensures AcquireNext(cfg, s, call, clock, now).pool == AcquireSection(cfg, s.pool, call, clock, now).0
    ensures var k, q := Unhealthy(cfg, s.pool.idle, clock, 0), AcquireSection(cfg, s.pool, call, clock, now).0;
            |q.idle| == if k < |s.pool.idle| then |s.pool.idle| - k - 1 else 0
  {
  }

  /**
   * Over every run, an Acquire lends a connection from the idle list if and only if it was dialled at most the
   * lifetime and last touched at most the idle timeout before its check, and everything above it was too old; it
   * closes a connection exactly if that one and everything above it were too old, and leaves the others idle.
   */
  lemma LentIffFresh(cfg: Config, run: seq<Sys>, steps: seq<Step>, i: nat, k: nat)
    requires Limited(cfg) && IsRun(cfg, run, steps) && i < |steps| && steps[i].Acquire?
    requires !run[i].pool.closed && k < |run[i].pool.idle|
    ensures var s, t, c := run[i], TimesAt(run, steps, i), run[i].pool.idle[k].conn;
            && c in run[i + 1].place
            && (run[i + 1].place[c] == InUse <==>
                  !TooOldAt(cfg, s, t, steps[i].clock, k) && AllAbove(cfg, s, t, steps[i].clock, k))
            && (run[i + 1].place[c] == Retired <==>
                  TooOldAt(cfg, s, t, steps[i].clock, k) && AllAbove(cfg, s, t, steps[i].clock, k))
  {
    RunAged(cfg, run, steps, i);
    AcquireByAge(cfg, run[i], TimesAt(run, steps, i), steps[i].t, steps[i].clock, steps[i].now, k);
  }

  lemma ReleaseByAge(cfg: Config, s: Sys, t: Times, call: Call, c: Conn, checkedAt: Time, now: Time)
    requires Limited(cfg) && Placed(s) && Timed(s, t) && !s.pool.closed && Lent(s.pool, c)
    ensures var s' := ReleaseNext(cfg, s, call, c, checkedAt, now);
            && c in s'.place
            && s'.place[c] == if TooOld(cfg, t, c, checkedAt) then Retired
                              else if s.pool.waiters != [] then Channel(s.pool.waiters[0]) else Idle
  {
    assert Listed(s, c, InUse);
    TooOldIsExpired(cfg, s, t, InUse, s.pool.inUse.value[c], checkedAt);
  }

  /**
   * Over every run, a connection given back to an open pool is closed if and only if it was dialled longer ago than
   * the lifetime, or lent out longer ago than the idle timeout; otherwise it goes to the oldest waiter, or is idle.
   */
  lemma ReturnedIffFresh(cfg: Config, run: seq<Sys>, steps: seq<Step>, i: nat)
    requires Limited(cfg) && IsRun(cfg, run, steps) && i < |steps| && steps[i].Release?
    requires !run[i].pool.closed && Lent(run[i].pool, steps[i].c)
    ensures var t, c := TimesAt(run, steps, i), steps[i].c;
            && c in run[i + 1].place
            && run[i + 1].place[c] == if TooOld(cfg, t, c, steps[i].checkedAt) then Retired
                                      else if run[i].pool.waiters != [] then Channel(run[i].pool.waiters[0]) else Idle
  {
    RunAged(cfg, run, steps, i);
    var step := steps[i];
    ReleaseByAge(cfg, run[i], TimesAt(run, steps, i), step.t, step.c, step.checkedAt, step.now);
  }

  lemma {:induction false} DroppedIff(cfg: Config, idle: seq<PooledConn>, now: Time)
    requires Limited(cfg)
    ensures forall pc :: pc in Drop(cfg, idle, now) <==> pc in idle && Expired(cfg, pc, now)
  {
    if idle != [] {
      var init := idle[..|idle| - 1];
      DroppedIff(cfg, init, now);
      assert idle == init + [idle[|idle| - 1]];
    }
  }

  lemma CleanupByAge(cfg: Config, s: Sys, t: Times, now: Time, pc: PooledConn)
    requires Limited(cfg) && Placed(s) && Timed(s, t) && !s.pool.closed && pc in s.pool.idle
    ensures var s' := CleanupNext(cfg, s, now);
            pc.conn in s'.place && s'.place[pc.conn] == if TooOld(cfg, t, pc.conn, now) then Retired else Idle
  {
    DroppedIff(cfg, s.pool.idle, now);
    HasIsListed(s, Idle, pc);
    TooOldIsExpired(cfg, s, t, Idle, pc, now);
    var drop := Drop(cfg, s.pool.idle, now);
    if pc in drop {
      assert pc.conn in Ids(drop);
    } else {
      forall other | other in drop ensures other.conn != pc.conn {
        if other.conn == pc.conn {
          OneOfAKind(s, other, pc);
        }
      }
    }
  }

  lemma CleanupStep(cfg: Config, run: seq<Sys>, steps: seq<Step>, i: nat)
    requires IsRun(cfg, run, steps) && i < |steps| && steps[i].Cleanup?
    ensures run[i + 1] == CleanupNext(cfg, run[i], steps[i].now)
  {
  }

  /** Over every run, the maintenance closes exactly the idle connections that are too old. */
  lemma CleanedIffOld(cfg: Config, run: seq<Sys>, steps: seq<Step>, i: nat, pc: PooledConn)
    requires Limited(cfg) && IsRun(cfg, run, steps) && i < |steps| && steps[i].Cleanup?
    requires !run[i].pool.closed && pc in run[i].pool.idle
    ensures pc.conn in run[i + 1].place
    ensures run[i + 1].place[pc.conn] == Retired <==> TooOld(cfg, TimesAt(run, steps, i), pc.conn, steps[i].now)
    ensures run[i + 1].place[pc.conn] == Idle <==> !TooOld(cfg, TimesAt(run, steps, i), pc.conn, steps[i].now)
  {
    RunAged(cfg, run, steps, i);
    CleanupStep(cfg, run, steps, i);
    CleanupByAge(cfg, run[i], TimesAt(run, steps, i), steps[i].now, pc);
  }

  /** After Close no replenisher starts another dial. */
  lemma NoDialAfterClose(cfg: Config, s: Sys, step: Step, r: Rep)
    requires Shape(s) && Enabled(s, step) && s.pool.closed && PhaseOf(Next(cfg, s, step), r).Dialling?
    ensures PhaseOf(s, r).Dialling?
  {
  }
}
