/** What stranded hand-offs do to the pool: when it is used up for good, and that every pool can be. */
module PoolExhaustion {
  import opened Base
  import opened PoolState
  import opened PoolProtocol
  import opened PoolTheorems
  import opened PoolBounds

  // ---------------------------------------------------------------- used up for good

  /** Every slot is stranded, and no replenisher is past its check. */
  ghost predicate Exhausted(cfg: Config, s: Sys) {
    && Inv(s) && cfg.maxPoolSize <= |s.stranded| && s.pool.total == |s.stranded|
    && !s.warmUp.Dialling? && !s.upkeep.Dialling?
  }

  /** The counter leaves room for nothing else. */
  predicate Bare(s: Sys) {
    && s.pool.idle == [] && LentCount(s.pool) == 0 && s.dialling == {} && s.pool.sent == map[] && s.received == map[]
    && !s.warmUp.Counted? && !s.upkeep.Counted?
  }

  lemma BareAcquire(cfg: Config, s: Sys, t: Call, clock: Clock, now: Time)
    requires Shape(s) && Bare(s) && cfg.maxPoolSize <= s.pool.total
    ensures var s' := AcquireNext(cfg, s, t, clock, now);
            && s'.stranded == s.stranded && s'.holders == s.holders && s'.pool.total == s.pool.total
            && s'.warmUp == s.warmUp && s'.upkeep == s.upkeep
  {
    if !s.pool.closed {
      assert TrimIdle(cfg, s.pool, clock) == s.pool;
    }
  }

  lemma BareRelease(cfg: Config, s: Sys, t: Call, c: Conn, checkedAt: Time, now: Time)
    requires Bare(s)
    ensures var s' := ReleaseNext(cfg, s, t, c, checkedAt, now);
            && s'.stranded == s.stranded && s'.holders <= s.holders && s'.pool.total == s.pool.total
            && s'.warmUp == s.warmUp && s'.upkeep == s.upkeep
  {
    assert !Lent(s.pool, c);
  }

  lemma ExhaustedStep(cfg: Config, s: Sys, step: Step)
    requires Exhausted(cfg, s) && Enabled(s, step)
    ensures Exhausted(cfg, Next(cfg, s, step)) && Next(cfg, s, step).holders <= s.holders
  {
    StepKeepsInv(cfg, s, step);
    BareStep(cfg, s, step);
  }

  lemma BareStep(cfg: Config, s: Sys, step: Step)
    requires Shape(s) && Bare(s) && cfg.maxPoolSize <= s.pool.total && Enabled(s, step)
    requires !s.warmUp.Dialling? && !s.upkeep.Dialling?
    ensures var s' := Next(cfg, s, step);
            && s'.stranded == s.stranded && s'.holders <= s.holders && s'.pool.total == s.pool.total
            && !s'.warmUp.Dialling? && !s'.upkeep.Dialling?
  {
    match step {
      case Acquire(t, clock, now) => BareAcquire(cfg, s, t, clock, now);
      case Release(t, c, checkedAt, now) => BareRelease(cfg, s, t, c, checkedAt, now);
      case Close => assert !s.pool.closed ==> s.pool.inUse.value.Keys == {};
      case Discard(t, c) => assert !Lent(s.pool, c);
      case _ =>
    }
  }

  /** From then on, over every run, the pool stays used up and nobody is given a connection any more. */
  lemma {:induction false} ExhaustedForGood(cfg: Config, run: seq<Sys>, steps: seq<Step>, i: nat, j: nat)
    requires IsRun(cfg, run, steps) && i <= j < |run| && Exhausted(cfg, run[i])
    ensures Exhausted(cfg, run[j]) && run[j].holders <= run[i].holders
  {
    if i < j {
      ExhaustedForGood(cfg, run, steps, i, j - 1);
      ExhaustedStep(cfg, run[j - 1], steps[j - 1]);
    }
  }

  // ---------------------------------------------------------------- every pool can be used up

  function From(a: nat, b: nat): set<Call> {
    Below(b) - Below(a)
  }

  function Lend(a: nat, b: nat): map<Conn, PooledConn> {
    map c | c in From(a, b) :: Conn0(c)
  }

  function Pairs(a: nat, b: nat): set<(Call, Conn)> {
    set c | c in From(a, b) :: (c, c)
  }

  function Spots(k: nat, j: nat): map<Conn, Place> {
    map c | c in Below(j) :: if c < k then Stranded else InUse
  }

  /** Of n slots, the first k are stranded, those up to j are lent, and the others are still being dialled. */
  function Losing(n: nat, j: nat, k: nat): Sys {
    START.(pool := EMPTY_POOL.(total := n, inUse := Some(Lend(k, j))), calls := From(0, n + k), dialling := From(j, n),
           stranded := From(0, k), holders := Pairs(k, j), place := Spots(k, j))
  }

  lemma LendOne(cfg: Config, n: nat, j: nat)
    requires j < n
    ensures Enabled(Losing(n, j, 0), DialSucceeds(j, Conn0(j)))
    ensures Next(cfg, Losing(n, j, 0), DialSucceeds(j, Conn0(j))) == Losing(n, j + 1, 0)
  {
    assert Lend(0, j)[j := Conn0(j)] == Lend(0, j + 1);
    assert From(j, n) - {j} == From(j + 1, n);
    assert Pairs(0, j) + {(j, j)} == Pairs(0, j + 1);
    assert Spots(0, j)[j := InUse] == Spots(0, j + 1);
  }

  lemma {:induction false} LendAll(cfg: Config, n: nat, j: nat)
    requires j <= n == cfg.maxPoolSize
    ensures Reachable(cfg, Losing(n, j, 0))
  {
    if j == 0 {
      ReachableStart(cfg);
      assert START == Reserving(0, Ready, Ready);
      ReserveAll(cfg, n, Ready, Ready);
    } else {
      LendAll(cfg, n, j - 1);
      LendOne(cfg, n, j - 1);
      ReachableNext(cfg, Losing(n, j - 1, 0), DialSucceeds(j - 1, Conn0(j - 1)));
    }
  }

  /** With all slots lent, a waiter queues; k is released to it; the waiter gives up. */
  function Queued(n: nat, k: nat): Sys {
    var s := Losing(n, n, k);
    s.(pool := s.pool.(waiters := [n + k]), calls := From(0, n + k + 1), waiting := {n + k})
  }

  function Sent(n: nat, k: nat): Sys {
    var s := Queued(n, k);
    s.(pool := s.pool.(waiters := [], inUse := Some(Lend(k + 1, n)), sent := map[n + k := Conn0(k)]),
       holders := Pairs(k + 1, n), place := s.place[k := Channel(n + k)])
  }

  lemma QueueStep(cfg: Config, n: nat, k: nat)
    requires k < n == cfg.maxPoolSize
    ensures Enabled(Losing(n, n, k), Acquire(n + k, FLAT, 0))
    ensures AcquireNext(cfg, Losing(n, n, k), n + k, FLAT, 0) == Queued(n, k)
  {
    var s := Losing(n, n, k);
    assert TrimNext(cfg, s, FLAT) == s by {
      assert Ids([]) == {};
      assert s.place == map c | c in s.place :: if c in {} then Retired else s.place[c];
    }
    assert s.calls + {n + k} == From(0, n + k + 1);
  }

  lemma SendStep(cfg: Config, n: nat, k: nat)
    requires k < n
    ensures ReleaseNext(cfg, Queued(n, k), k, k, 0, 0) == Sent(n, k)
  {
    assert Lend(k, n) - {k} == Lend(k + 1, n);
    assert Pairs(k, n) - {(k, k)} == Pairs(k + 1, n);
  }

  lemma LoseStep(n: nat, k: nat)
    requires k < n
    ensures GiveUpNext(Sent(n, k), n + k) == Losing(n, n, k + 1)
  {
    assert From(0, k) + {k} == From(0, k + 1);
    assert Spots(k, n)[k := Channel(n + k)][k := Stranded] == Spots(k + 1, n);
    assert (map[n + k := Conn0(k)]) - {n + k} == map[];
  }

  lemma {:induction false} LoseAll(cfg: Config, n: nat, k: nat)
    requires k <= n == cfg.maxPoolSize
    ensures Reachable(cfg, Losing(n, n, k))
  {
    if k == 0 {
      LendAll(cfg, n, n);
    } else {
      LoseAll(cfg, n, k - 1);
      LoseOne(cfg, n, k - 1);
    }
  }

  lemma LoseOne(cfg: Config, n: nat, k: nat)
    requires k < n == cfg.maxPoolSize && Reachable(cfg, Losing(n, n, k))
    ensures Reachable(cfg, Losing(n, n, k + 1))
  {
    ReachQueued(cfg, n, k);
    ReachSent(cfg, n, k);
    ReachLost(cfg, n, k);
  }

  lemma ReachQueued(cfg: Config, n: nat, k: nat)
    requires k < n == cfg.maxPoolSize && Reachable(cfg, Losing(n, n, k))
    ensures Reachable(cfg, Queued(n, k))
  {
    QueueStep(cfg, n, k);
    ReachableStep(cfg, Losing(n, n, k), Acquire(n + k, FLAT, 0), Queued(n, k));
  }

  lemma ReachSent(cfg: Config, n: nat, k: nat)
    requires k < n && Reachable(cfg, Queued(n, k))
    ensures Reachable(cfg, Sent(n, k))
  {
    SendStep(cfg, n, k);
    ReachableStep(cfg, Queued(n, k), Release(k, k, 0, 0), Sent(n, k));
  }

  lemma ReachLost(cfg: Config, n: nat, k: nat)
    requires k < n && Reachable(cfg, Sent(n, k))
    ensures Reachable(cfg, Losing(n, n, k + 1))
  {
    LoseStep(n, k);
    ReachableStep(cfg, Sent(n, k), GiveUp(n + k), Losing(n, n, k + 1));
  }

  lemma {:induction false} BelowCard(n: nat)
    ensures |Below(n)| == n
  {
    if n > 0 {
      BelowCard(n - 1);
    }
  }

  /** Whatever its size, some run of a pool strands every slot and so uses it up for good, without a Close. */
  lemma TimeoutsCanExhaustThePool(cfg: Config) returns (s: Sys)
    requires cfg.maxPoolSize > 0
    ensures Reachable(cfg, s) && !s.pool.closed && Exhausted(cfg, s)
  {
    var n := cfg.maxPoolSize;
    s := Losing(n, n, n);
    LoseAll(cfg, n, n);
    ReachableInv(cfg, s);
    BelowCard(n);
    assert From(0, n) == Below(n);
  }

  // ---------------------------------------------------------------- a careless Close

  /** Acquire, Close, and a dial that succeeds too late: three steps from the start to the panic. */
  lemma PanicIsReachable(cfg: Config) returns (s: Sys)
    requires cfg.maxPoolSize > 0
    ensures Reachable(cfg, s) && s.panicked
  {
    ReachableStart(cfg);
    assert START == Reserving(0, Ready, Ready);
    ReserveAll(cfg, 1, Ready, Ready);
    var s1 := Reserving(1, Ready, Ready);
    ReachableNext(cfg, s1, Close);
    var s2 := Next(cfg, s1, Close);
    ReachableNext(cfg, s2, DialSucceeds(0, Conn0(0)));
    s := Next(cfg, s2, DialSucceeds(0, Conn0(0)));
  }
}
