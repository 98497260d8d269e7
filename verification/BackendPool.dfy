/** The pool object: each method is one section under the mutex, proved against its function in PoolState. */
module BackendPool {
  import opened Base
  import opened PoolState

  class BackendPool {
    const cfg: Config
    var idle: seq<PooledConn>
    var inUse: Option<map<Conn, PooledConn>>
    var waiters: seq<Call>
    var sent: map<Call, PooledConn>
    var woken: set<Call>
    var totalConns: int
    var closed: bool
    var closes: nat

    function View(): Pool
      reads this
    {
      Pool(idle, inUse, waiters, sent, woken, totalConns, closed, closes)
    }

    constructor (config: Config)
      ensures View() == EMPTY_POOL && cfg == WithDefaults(config)
    {
      cfg := WithDefaults(config);
      idle, inUse, waiters, sent, woken := [], Some(map[]), [], map[], {};
      totalConns, closed, closes := 0, false, 0;
    }

    method CloseConn(pc: PooledConn)
      modifies this`totalConns, this`closes
      ensures totalConns == old(totalConns) - 1 && closes == old(closes) + 1
    {
      closes := closes + 1;
      totalConns := totalConns - 1;
    }

    method Acquire(call: Call, clock: Clock, now: Time) returns (r: Acquired)
      requires closed || inUse.Some?
      modifies this
      ensures (View(), r) == AcquireSection(cfg, old(View()), call, clock, now)
    {
      if closed {
        return PoolClosed;
      }
      ghost var want := AcquireSection(cfg, View(), call, clock, now);
      var popped := PopHealthy(clock);
      if popped.Some? {
        var used := Use(popped.value, now);
        inUse := Some(inUse.value[used.conn := used]);
        assert View() == want.0;
        return FromIdle(used);
      }
      if totalConns < cfg.maxPoolSize {
        totalConns := totalConns + 1;
        return Reserved;
      }
      waiters := waiters + [call];
      return Queued;
    }

    /** The pop loop of Acquire: closes unhealthy connections from the top of the stack. */
    method PopHealthy(clock: Clock) returns (r: Option<PooledConn>)
      modifies this`idle, this`totalConns, this`closes
      ensures var all := old(idle);
              var keep := |all| - Unhealthy(cfg, all, clock, 0);
              && totalConns == old(totalConns) - (|all| - keep) && closes == old(closes) + (|all| - keep)
              && r == (if keep > 0 then Some(all[keep - 1]) else None)
              && idle == all[..if keep > 0 then keep - 1 else 0]
    {
      ghost var all := idle;
      var dropped := 0;
      while |idle| > 0
        invariant 0 <= dropped <= |all| && idle == all[..|all| - dropped]
        invariant Unhealthy(cfg, all, clock, 0) == Unhealthy(cfg, all, clock, dropped)
        invariant totalConns == old(totalConns) - dropped && closes == old(closes) + dropped
        decreases |idle|
      {
        var pc := idle[|idle| - 1];
        idle := idle[..|idle| - 1];
        if Healthy(cfg, pc, clock(dropped)) {
          return Some(pc);
        }
        CloseConn(pc);
        dropped := dropped + 1;
      }
      return None;
    }

    method GiveUp(call: Call)
      modifies this`waiters
      ensures View() == GiveUpSection(old(View()), call)
    {
      for i := 0 to |waiters|
        invariant waiters == old(waiters)
        invariant RemoveFirst(waiters, call) == waiters[..i] + RemoveFirst(waiters[i..], call)
      {
        if waiters[i] == call {
          waiters := waiters[..i] + waiters[i + 1..];
          return;
        }
      }
      assert waiters[..|waiters|] + [] == waiters;
    }

    method Release(c: Conn, checkedAt: Time, now: Time)
      modifies this
      ensures View() == ReleaseSection(cfg, old(View()), c, checkedAt, now)
    {
      if inUse.None? || c !in inUse.value {
        return;
      }
      var pc := inUse.value[c];
      inUse := Some(inUse.value - {c});
      if closed {
        CloseConn(pc);
        return;
      }
      if !Healthy(cfg, pc, checkedAt) {
        CloseConn(pc);
        return;
      }
      if |waiters| > 0 {
        var waiter := waiters[0];
        waiters := waiters[1..];
        sent := sent[waiter := pc];
        return;
      }
      idle := idle + [pc.(lastUsedAt := now)];
    }

    method Discard(c: Conn)
      modifies this
      ensures View() == DiscardSection(old(View()), c)
    {
      if inUse.Some? && c in inUse.value {
        var pc := inUse.value[c];
        inUse := Some(inUse.value - {c});
        CloseConn(pc);
      }
    }

    method Close()
      requires closed || inUse.Some?
      modifies this
      ensures View() == CloseSection(old(View()))
    {
      if closed {
        return;
      }
      closed := true;
      CloseConnections();
      idle := [];
      inUse := None;
      WakeWaiters();
      waiters := [];
    }

    method CloseConnections()
      requires inUse.Some?
      modifies this`totalConns, this`closes
      ensures totalConns == old(totalConns) - |idle| - |inUse.value.Keys|
      ensures closes == old(closes) + |idle| + |inUse.value.Keys|
    {
      CloseIdle();
      CloseLent();
    }

    method CloseIdle()
      modifies this`totalConns, this`closes
      ensures totalConns == old(totalConns) - |idle| && closes == old(closes) + |idle|
    {
      for i := 0 to |idle|
        invariant totalConns == old(totalConns) - i && closes == old(closes) + i
      {
        CloseConn(idle[i]);
      }
      assert idle[..|idle|] == idle;
    }

    method WakeWaiters()
      modifies this`woken
      ensures woken == old(woken) + Members(waiters)
    {
      for i := 0 to |waiters|
        invariant woken == old(woken) + Members(waiters[..i])
      {
        assert waiters[..i + 1] == waiters[..i] + [waiters[i]];
        woken := woken + {waiters[i]};
      }
      assert waiters[..|waiters|] == waiters;
    }

    /** Visits the lent connections in whatever order the map yields them. */
    method CloseLent()
      requires inUse.Some?
      modifies this`totalConns, this`closes
      ensures totalConns == old(totalConns) - |inUse.value.Keys| && closes == old(closes) + |inUse.value.Keys|
    {
      var todo := inUse.value.Keys;
      ghost var done: set<Conn> := {};
      while todo != {}
        invariant done !! todo && done + todo == inUse.value.Keys
        invariant totalConns == old(totalConns) - |done| && closes == old(closes) + |done|
        decreases |todo|
      {
        var c :| c in todo;
        todo := todo - {c};
        CloseConn(inUse.value[c]);
        done := done + {c};
      }
      assert done == inUse.value.Keys;
    }

    method CleanupIdleConnections(now: Time)
      modifies this
      ensures View() == CleanupSection(cfg, old(View()), now)
    {
      if closed {
        return;
      }
      var newIdle: seq<PooledConn> := [];
      for i := 0 to |idle|
        invariant idle == old(idle) && inUse == old(inUse) && waiters == old(waiters) && sent == old(sent)
        invariant woken == old(woken) && !closed
        invariant newIdle == Keep(cfg, idle[..i], now)
        invariant totalConns == old(totalConns) - |Drop(cfg, idle[..i], now)|
        invariant closes == old(closes) + |Drop(cfg, idle[..i], now)|
      {
        assert idle[..i + 1][..i] == idle[..i];
        if Healthy(cfg, idle[i], now) {
          newIdle := newIdle + [idle[i]];
        } else {
          CloseConn(idle[i]);
        }
      }
      assert idle[..|idle|] == idle;
      idle := newIdle;
    }

    /** The lock sections of ensureMinIdleConnections. */
    method PlanReplenish() returns (needed: int)
      ensures needed == Needed(cfg, View())
    {
      needed := cfg.minIdleConns - |idle|;
      var canCreate := cfg.maxPoolSize - totalConns;
      if needed <= 0 || canCreate <= 0 {
        return 0;
      }
      if needed > canCreate {
        needed := canCreate;
      }
    }

    method Stock(pc: PooledConn) returns (stop: bool)
      modifies this
      ensures View() == StockSection(old(View()), pc) && stop == old(closed)
    {
      if closed {
        CloseConn(pc);
        return true;
      }
      idle := idle + [pc];
      return false;
    }
  }
}
