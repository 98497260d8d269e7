/** How large the pool can get, and when waiters and idle connections coexist: exact in the configuration. */
module PoolBounds {
  import opened Base
  import opened PoolState
  import opened PoolProtocol
  import opened PoolTheorems

  ghost predicate Reachable(cfg: Config, s: Sys) {
    exists run: seq<Sys>, steps: seq<Step> :: IsRun(cfg, run, steps) && run[|run| - 1] == s
  }

  lemma ReachableInv(cfg: Config, s: Sys)
    requires Reachable(cfg, s)
    ensures Inv(s)
  {
    var run: seq<Sys>, steps: seq<Step> :| IsRun(cfg, run, steps) && run[|run| - 1] == s;
    RunKeepsInv(cfg, run, steps, |run| - 1);
  }

  lemma ReachableStart(cfg: Config)
    ensures Reachable(cfg, START)
  {
    assert IsRun(cfg, [START], []);
  }

  lemma ReachableNext(cfg: Config, s: Sys, step: Step)
    requires Reachable(cfg, s) && Enabled(s, step)
    ensures Shape(s) && Reachable(cfg, Next(cfg, s, step))
  {
    ReachableInv(cfg, s);
    ReachableStep(cfg, s, step, Next(cfg, s, step));
  }

  lemma ReachableStep(cfg: Config, s: Sys, step: Step, s': Sys)
    requires Reachable(cfg, s) && Stepped(cfg, s, step, s')
    ensures Reachable(cfg, s')
  {
    var run: seq<Sys>, steps: seq<Step> :| IsRun(cfg, run, steps) && run[|run| - 1] == s;
    assert IsRun(cfg, run + [s'], steps + [step]);
  }

  // ---------------------------------------------------------------- upper bounds

  function Pending(p: Phase): nat {
    if p.Dialling? then 1 else 0
  }

  /** Dials a replenisher has checked for but not yet counted. */
  function Unchecked(s: Sys): nat {
    Pending(s.warmUp) + Pending(s.upkeep)
  }

  ghost predicate WithinSlack(cfg: Config, s: Sys) {
    s.pool.total + Unchecked(s) <= cfg.maxPoolSize + 2
  }

  lemma AcquireTotal(cfg: Config, s: Sys, t: Call, clock: Clock, now: Time)
    requires Shape(s)
    ensures var s' := AcquireNext(cfg, s, t, clock, now);
            && (s'.pool.total <= s.pool.total || s'.pool.total <= cfg.maxPoolSize)
            && s'.warmUp == s.warmUp && s'.upkeep == s.upkeep
  {
  }

  lemma StepWithinSlack(cfg: Config, s: Sys, step: Step)
    requires Shape(s) && WithinSlack(cfg, s) && Enabled(s, step)
    ensures WithinSlack(cfg, Next(cfg, s, step))
  {
    match step {
      case Acquire(t, clock, now) => AcquireTotal(cfg, s, t, clock, now);
      case _ =>
    }
  }

  lemma {:induction false} RunWithinSlack(cfg: Config, run: seq<Sys>, steps: seq<Step>, i: nat)
    requires cfg.maxPoolSize > 0 && IsRun(cfg, run, steps) && i < |run|
    ensures WithinSlack(cfg, run[i])
  {
    if i > 0 {
      RunWithinSlack(cfg, run, steps, i - 1);
      RunKeepsInv(cfg, run, steps, i - 1);
      StepWithinSlack(cfg, run[i - 1], steps[i - 1]);
    }
  }

  /** With no idle minimum nobody replenishes: the pool stays within its size, and waiters imply an empty idle list. */
  ghost predicate Plain(cfg: Config, s: Sys) {
    && (s.warmUp.Ready? || s.warmUp.Finished?) && (s.upkeep.Ready? || s.upkeep.Finished?)
    && s.pool.total <= cfg.maxPoolSize
    && (s.pool.waiters != [] ==> s.pool.idle == [])
  }

  lemma AcquirePlain(cfg: Config, s: Sys, t: Call, clock: Clock, now: Time)
    requires Shape(s) && Plain(cfg, s)
    ensures Plain(cfg, AcquireNext(cfg, s, t, clock, now))
  {
    if !s.pool.closed {
      TakePlain(cfg, TrimNext(cfg, s, clock), t, now);
    }
  }

  lemma TakePlain(cfg: Config, s: Sys, t: Call, now: Time)
    requires Plain(cfg, s) && s.pool.inUse.Some?
    ensures Plain(cfg, TakeNext(cfg, s, t, now))
  {
  }

  lemma ReturnPlain(cfg: Config, s: Sys, t: Call, c: Conn, checkedAt: Time, now: Time)
    requires Plain(cfg, s)
    ensures Plain(cfg, ReleaseNext(cfg, s, t, c, checkedAt, now)) && Plain(cfg, DiscardNext(s, t, c))
  {
  }

  lemma GiveUpPlain(cfg: Config, s: Sys, t: Call)
    requires Plain(cfg, s)
    ensures Plain(cfg, GiveUpNext(s, t))
  {
    assert s.pool.waiters == [] ==> RemoveFirst(s.pool.waiters, t) == [];
  }

  lemma StepPlain(cfg: Config, s: Sys, step: Step)
    requires Shape(s) && Plain(cfg, s) && Enabled(s, step) && cfg.minIdleConns <= 0
    ensures Plain(cfg, Next(cfg, s, step))
  {
    match step {
      case Acquire(t, clock, now) => AcquirePlain(cfg, s, t, clock, now);
      case Release(t, c, checkedAt, now) => ReturnPlain(cfg, s, t, c, checkedAt, now);
      case GiveUp(t) => GiveUpPlain(cfg, s, t);
      case _ =>
    }
  }

  lemma {:induction false} RunPlain(cfg: Config, run: seq<Sys>, steps: seq<Step>, i: nat)
    requires cfg.maxPoolSize > 0 && cfg.minIdleConns <= 0 && IsRun(cfg, run, steps) && i < |run|
    ensures Plain(cfg, run[i])
  {
    if i > 0 {
      RunPlain(cfg, run, steps, i - 1);
      RunKeepsInv(cfg, run, steps, i - 1);
      StepPlain(cfg, run[i - 1], steps[i - 1]);
    }
  }

  // ---------------------------------------------------------------- runs that reach the bounds

  function Below(n: nat): (r: set<Call>)
    ensures forall t: Call :: t in r <==> t < n
  {
    if n == 0 then {} else Below(n - 1) + {n - 1}
  }

  /** A state with n reservations and nothing else but what the replenishers are doing. */
  function Reserving(n: nat, warmUp: Phase, upkeep: Phase): Sys {
    START.(pool := EMPTY_POOL.(total := n), calls := Below(n), dialling := Below(n),
           warmUp := warmUp, upkeep := upkeep)
  }

  function Conn0(c: Conn): PooledConn {
    PooledConn(c, 0, 0, 0)
  }

  const FLAT: Clock := (i: nat) => 0

  lemma {:induction false} ReserveAll(cfg: Config, n: nat, warmUp: Phase, upkeep: Phase)
    requires n <= cfg.maxPoolSize && Reachable(cfg, Reserving(0, warmUp, upkeep))
    ensures Reachable(cfg, Reserving(n, warmUp, upkeep))
  {
    if n > 0 {
      ReserveAll(cfg, n - 1, warmUp, upkeep);
      var s := Reserving(n - 1, warmUp, upkeep);
      ReachableNext(cfg, s, Acquire(n - 1, FLAT, 0));
    }
  }

  lemma ReplenisherDials(cfg: Config)
    requires cfg.maxPoolSize > 0 && cfg.minIdleConns > 0
    ensures var k := Min(cfg.minIdleConns, cfg.maxPoolSize) - 1;
            && Reachable(cfg, Reserving(0, Dialling(k), Ready))
            && Reachable(cfg, Reserving(0, Dialling(k), Dialling(k)))
  {
    var k := Min(cfg.minIdleConns, cfg.maxPoolSize) - 1;
    ReachableStart(cfg);
    var s1 := Next(cfg, START, Plan(WarmUp));
    ReachableNext(cfg, START, Plan(WarmUp));
    assert s1 == START.(warmUp := Looping(k + 1));
    ReachableNext(cfg, s1, Check(WarmUp));
    var s2 := Next(cfg, s1, Check(WarmUp));
    assert s2 == START.(warmUp := Dialling(k));
    assert s2 == Reserving(0, Dialling(k), Ready);
    ReachableNext(cfg, s2, Plan(Upkeep));
    var s3 := Next(cfg, s2, Plan(Upkeep));
    assert s3 == START.(warmUp := Dialling(k), upkeep := Looping(k + 1));
    ReachableNext(cfg, s3, Check(Upkeep));
    assert Next(cfg, s3, Check(Upkeep)) == Reserving(0, Dialling(k), Dialling(k));
  }

  /** Some run reaches maxPoolSize + 2: both replenishers check, every slot is reserved, then both count. */
  lemma SlackIsReached(cfg: Config) returns (s: Sys)
    requires cfg.maxPoolSize > 0 && cfg.minIdleConns > 0
    ensures Reachable(cfg, s) && s.pool.total == cfg.maxPoolSize + 2
  {
    var k := Min(cfg.minIdleConns, cfg.maxPoolSize) - 1;
    ReplenisherDials(cfg);
    ReserveAll(cfg, cfg.maxPoolSize, Dialling(k), Dialling(k));
    var s1 := Reserving(cfg.maxPoolSize, Dialling(k), Dialling(k));
    ReachableNext(cfg, s1, Count(WarmUp, Conn0(0)));
    var s2 := Next(cfg, s1, Count(WarmUp, Conn0(0)));
    ReachableNext(cfg, s2, Count(Upkeep, Conn0(1)));
    s := Next(cfg, s2, Count(Upkeep, Conn0(1)));
  }

  /** Some run leaves a waiter queued beside an idle connection: the replenisher's stock wakes nobody. */
  lemma WaiterBesideIdle(cfg: Config) returns (s: Sys)
    requires cfg.maxPoolSize > 0 && cfg.minIdleConns > 0
    ensures Reachable(cfg, s) && s.pool.waiters != [] && s.pool.idle != []
  {
    var n, k := cfg.maxPoolSize, Min(cfg.minIdleConns, cfg.maxPoolSize) - 1;
    ReplenisherDials(cfg);
    ReserveAll(cfg, n, Dialling(k), Ready);
    var s1 := Reserving(n, Dialling(k), Ready);
    ReachableNext(cfg, s1, Acquire(n, FLAT, 0));
    var s2 := Next(cfg, s1, Acquire(n, FLAT, 0));
    ReachableNext(cfg, s2, Count(WarmUp, Conn0(0)));
    var s3 := Next(cfg, s2, Count(WarmUp, Conn0(0)));
    ReachableNext(cfg, s3, Insert(WarmUp));
    s := Next(cfg, s3, Insert(WarmUp));
  }

  // ---------------------------------------------------------------- main results

  /** The counter never exceeds maxPoolSize + 2. */
  lemma SizeIsBounded(cfg: Config, s: Sys)
    requires cfg.maxPoolSize > 0 && Reachable(cfg, s)
    ensures 0 <= s.pool.total <= cfg.maxPoolSize + 2
  {
    ReachableInv(cfg, s);
    var run: seq<Sys>, steps: seq<Step> :| IsRun(cfg, run, steps) && run[|run| - 1] == s;
    RunWithinSlack(cfg, run, steps, |run| - 1);
  }

  lemma PlainIfNoMinimum(cfg: Config, s: Sys)
    requires cfg.maxPoolSize > 0 && cfg.minIdleConns <= 0 && Reachable(cfg, s)
    ensures Plain(cfg, s)
  {
    var run: seq<Sys>, steps: seq<Step> :| IsRun(cfg, run, steps) && run[|run| - 1] == s;
    RunPlain(cfg, run, steps, |run| - 1);
  }

  /** The configured size is a true bound if and only if no idle minimum is configured. */
  lemma SizeIsRespectedIff(cfg: Config)
    requires cfg.maxPoolSize > 0
    ensures (forall s :: Reachable(cfg, s) ==> s.pool.total <= cfg.maxPoolSize) <==> cfg.minIdleConns <= 0
  {
    if cfg.minIdleConns <= 0 {
      forall s | Reachable(cfg, s) ensures s.pool.total <= cfg.maxPoolSize {
        PlainIfNoMinimum(cfg, s);
      }
    } else {
      var s := SlackIsReached(cfg);
    }
  }

  /** Waiters imply an empty idle list if and only if no idle minimum is configured. */
  lemma WaitersMeanNoIdleIff(cfg: Config)
    requires cfg.maxPoolSize > 0
    ensures (forall s :: Reachable(cfg, s) && s.pool.waiters != [] ==> s.pool.idle == []) <==> cfg.minIdleConns <= 0
  {
    if cfg.minIdleConns <= 0 {
      forall s | Reachable(cfg, s) && s.pool.waiters != [] ensures s.pool.idle == [] {
        PlainIfNoMinimum(cfg, s);
      }
    } else {
      var s := WaiterBesideIdle(cfg);
    }
  }
}
