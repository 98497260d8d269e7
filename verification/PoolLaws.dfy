/** What the sections of the pool do to a connection, by its age: stated in times and places. */
module PoolLaws {
  import opened Base
  import opened PoolState

  /** Dialled longer ago than the lifetime, or untouched for longer than the idle timeout. */
  predicate Expired(cfg: Config, pc: PooledConn, now: Time) {
    now - pc.createdAt > cfg.maxConnLifetime || now - pc.lastUsedAt > cfg.idleTimeout
  }

  /** Everything above position n of the idle list has expired, by the clock of its check. */
  predicate ExpiredAbove(cfg: Config, idle: seq<PooledConn>, clock: Clock, n: int) {
    forall i :: 0 <= i < |idle| && n < i ==> Expired(cfg, idle[i], clock(|idle| - 1 - i))
  }

  /**
   * Acquire takes the topmost connection that has not expired, marks it as used now, closes those above it and leaves
   * those below alone. If all have expired it closes them all and reserves a slot, or queues last if none is free.
   */
  lemma AcquireOutcome(cfg: Config, p: Pool, call: Call, clock: Clock, now: Time) returns (n: int)
    requires cfg.maxConnLifetime > 0 && cfg.idleTimeout > 0 && !p.closed && p.inUse.Some?
    ensures -1 <= n < |p.idle| && ExpiredAbove(cfg, p.idle, clock, n)
    ensures n >= 0 ==> !Expired(cfg, p.idle[n], clock(|p.idle| - 1 - n))
    ensures var (q, r) := AcquireSection(cfg, p, call, clock, now);
            var closed := |p.idle| - 1 - n;
            var p' := p.(idle := p.idle[..if n < 0 then 0 else n], total := p.total - closed,
                         closes := p.closes + closed);
            if n >= 0 then
              var pc := p.idle[n].(lastUsedAt := now, usageCount := p.idle[n].usageCount + 1);
              r == FromIdle(pc) && q == p'.(inUse := Some(p.inUse.value[pc.conn := pc]))
            else if p.total - |p.idle| < cfg.maxPoolSize then r == Reserved && q == p'.(total := p.total - |p.idle| + 1)
            else r == Queued && q == p'.(waiters := p.waiters + [call])
  {
    var k := Unhealthy(cfg, p.idle, clock, 0);
    n := |p.idle| - 1 - k;
    forall i | 0 <= i < |p.idle| && n < i ensures Expired(cfg, p.idle[i], clock(|p.idle| - 1 - i)) {
      assert p.idle[|p.idle| - 1 - (|p.idle| - 1 - i)] == p.idle[i];
      assert !Healthy(cfg, p.idle[|p.idle| - 1 - (|p.idle| - 1 - i)], clock(|p.idle| - 1 - i));
    }
  }

  /**
   * Release closes a lent connection if and only if it has expired; note that it counts as untouched since it was
   * lent. Otherwise the oldest waiter is sent it unchanged, or it goes on top of the idle list, stamped now.
   */
  lemma ReleaseOutcome(cfg: Config, p: Pool, c: Conn, checkedAt: Time, now: Time)
    requires cfg.maxConnLifetime > 0 && cfg.idleTimeout > 0 && !p.closed && Lent(p, c)
    ensures var pc, q := p.inUse.value[c], ReleaseSection(cfg, p, c, checkedAt, now);
            var p' := p.(inUse := Some(p.inUse.value - {c}));
            && (q.closes == p.closes <==>
                  checkedAt - pc.createdAt <= cfg.maxConnLifetime && checkedAt - pc.lastUsedAt <= cfg.idleTimeout)
            && (Expired(cfg, pc, checkedAt) ==> q == p'.(total := p.total - 1, closes := p.closes + 1))
            && (!Expired(cfg, pc, checkedAt) ==>
                  q == if p.waiters != [] then p'.(waiters := p.waiters[1..], sent := p.sent[p.waiters[0] := pc])
                       else p'.(idle := p.idle + [pc.(lastUsedAt := now)]))
  {
  }

  /** The connection released last is lent first, for as long as it has not expired. */
  lemma LastInFirstOut(cfg: Config, p: Pool, c: Conn, checkedAt: Time, back: Time, call: Call, clock: Clock, now: Time)
    requires cfg.maxConnLifetime > 0 && cfg.idleTimeout > 0 && !p.closed && Lent(p, c) && p.waiters == []
    requires var pc := p.inUse.value[c];
             && !Expired(cfg, pc, checkedAt)
             && clock(0) - back <= cfg.idleTimeout && clock(0) - pc.createdAt <= cfg.maxConnLifetime
    ensures var pc := p.inUse.value[c];
            var (q, r) := AcquireSection(cfg, ReleaseSection(cfg, p, c, checkedAt, back), call, clock, now);
            && r == FromIdle(pc.(lastUsedAt := now, usageCount := pc.usageCount + 1))
            && q.idle == p.idle && q.total == p.total
  {
    ReleaseOutcome(cfg, p, c, checkedAt, back);
    var mid := ReleaseSection(cfg, p, c, checkedAt, back);
    var n := AcquireOutcome(cfg, mid, call, clock, now);
    var top := |mid.idle| - 1;
    assert mid.idle == p.idle + [p.inUse.value[c].(lastUsedAt := back)];
    assert !Expired(cfg, mid.idle[top], clock(0));
    assert mid.idle[..top] == p.idle;
  }

  /** So is a connection a replenisher has just stocked. */
  lemma StockedIsLent(cfg: Config, p: Pool, pc: PooledConn, call: Call, clock: Clock, now: Time)
    requires cfg.maxConnLifetime > 0 && cfg.idleTimeout > 0 && !p.closed && p.inUse.Some?
    requires !Expired(cfg, pc, clock(0))
    ensures var (q, r) := AcquireSection(cfg, StockSection(p, pc), call, clock, now);
            r == FromIdle(pc.(lastUsedAt := now, usageCount := pc.usageCount + 1)) && q.idle == p.idle
  {
    var mid := StockSection(p, pc);
    var n := AcquireOutcome(cfg, mid, call, clock, now);
    var top := |mid.idle| - 1;
    assert mid.idle == p.idle + [pc];
    assert !Expired(cfg, mid.idle[top], clock(0));
    assert mid.idle[..top] == p.idle;
  }

  lemma {:induction false} KeepAppend(cfg: Config, a: seq<PooledConn>, b: seq<PooledConn>, now: Time)
    ensures Keep(cfg, a + b, now) == Keep(cfg, a, now) + Keep(cfg, b, now)
    ensures |Keep(cfg, b, now)| + |Drop(cfg, b, now)| == |b|
  {
    if b == [] {
      assert a + b == a;
    } else {
      assert (a + b)[..|a + b| - 1] == a + b[..|b| - 1];
      KeepAppend(cfg, a, b[..|b| - 1], now);
    }
  }

  lemma KeepOne(cfg: Config, pc: PooledConn, now: Time)
    requires cfg.maxConnLifetime > 0 && cfg.idleTimeout > 0
    ensures Keep(cfg, [pc], now) == if Expired(cfg, pc, now) then [] else [pc]
  {
    assert [pc][..0] == [] && Keep(cfg, [], now) == [];
  }

  /** Each closed connection is counted down once. */
  lemma CleanupCounts(cfg: Config, p: Pool, now: Time)
    ensures var q := CleanupSection(cfg, p, now);
            && q == p.(idle := q.idle, total := q.total, closes := q.closes)
            && p.total - q.total == q.closes - p.closes == |p.idle| - |q.idle|
  {
    KeepAppend(cfg, [], p.idle, now);
  }

  /**
   * Cleanup closes exactly the idle connections that have expired and keeps the others in order: a list is cleaned
   * part by part, and a single connection stays if and only if it has not expired.
   */
  lemma CleanupOutcome(cfg: Config, p: Pool, now: Time, a: seq<PooledConn>, pc: PooledConn, b: seq<PooledConn>)
    requires cfg.maxConnLifetime > 0 && cfg.idleTimeout > 0 && !p.closed && p.idle == a + [pc] + b
    ensures CleanupSection(cfg, p, now).idle
            == CleanupSection(cfg, p.(idle := a), now).idle + (if Expired(cfg, pc, now) then [] else [pc])
               + CleanupSection(cfg, p.(idle := b), now).idle
  {
    KeepAppend(cfg, a + [pc], b, now);
    KeepAppend(cfg, a, [pc], now);
    KeepOne(cfg, pc, now);
  }

  /** A replenisher sets out to fill the idle minimum, as far as the pool size allows. */
  lemma NeededFills(cfg: Config, p: Pool)
    ensures var n := Needed(cfg, p);
            && (n > 0 ==> |p.idle| + n <= cfg.minIdleConns && p.total + n <= cfg.maxPoolSize)
            && (|p.idle| + n >= cfg.minIdleConns || p.total + n >= cfg.maxPoolSize)
  {
  }
}
