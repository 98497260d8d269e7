/**
 * The shared memory of a backend connection pool (internal/proxy/pool.go) and what each section under its mutex does
 * to it. Waiter channels have a one-element buffer; a channel is named by the Acquire call that made it.
 */
module PoolState {
  import opened Base

  type Conn = nat
  type Call = nat

  datatype Config = Config(maxPoolSize: int, minIdleConns: int, idleTimeout: Time, maxConnLifetime: Time)

  /** The defaults NewBackendPool fills in. */
  function WithDefaults(cfg: Config): (r: Config)
    ensures r.maxPoolSize > 0 && r.idleTimeout > 0 && r.maxConnLifetime > 0 && r.minIdleConns == cfg.minIdleConns
    ensures cfg.maxPoolSize > 0 ==> r.maxPoolSize == cfg.maxPoolSize
    ensures cfg.idleTimeout > 0 ==> r.idleTimeout == cfg.idleTimeout
    ensures cfg.maxConnLifetime > 0 ==> r.maxConnLifetime == cfg.maxConnLifetime
    ensures cfg.maxPoolSize <= 0 ==> r.maxPoolSize == 20
    ensures cfg.idleTimeout <= 0 ==> r.idleTimeout == 5 * 60 * SECOND
    ensures cfg.maxConnLifetime <= 0 ==> r.maxConnLifetime == 30 * 60 * SECOND
  {
    Config(if cfg.maxPoolSize <= 0 then 20 else cfg.maxPoolSize, cfg.minIdleConns,
           if cfg.idleTimeout <= 0 then 300 * SECOND else cfg.idleTimeout,
           if cfg.maxConnLifetime <= 0 then 1800 * SECOND else cfg.maxConnLifetime)
  }

  datatype PooledConn = PooledConn(conn: Conn, createdAt: Time, lastUsedAt: Time, usageCount: int)

  /**
   * sent is what the waiter channels hold and woken the channels Close has closed. closeConn closes a socket and
   * decrements the counter; closes counts its calls. inUse is None once Close set it to nil.
   */
  datatype Pool = Pool(idle: seq<PooledConn>, inUse: Option<map<Conn, PooledConn>>, waiters: seq<Call>,
                       sent: map<Call, PooledConn>, woken: set<Call>,
                       total: int, closed: bool, closes: nat)

  const EMPTY_POOL := Pool([], Some(map[]), [], map[], {}, 0, false, 0)

  /** The connections of a list. */
  function Ids(pcs: seq<PooledConn>): set<Conn> {
    set pc | pc in pcs :: pc.conn
  }

  function Members(s: seq<Call>): set<Call> {
    set w | w in s
  }

  predicate Healthy(cfg: Config, pc: PooledConn, now: Time) {
    && !(cfg.maxConnLifetime > 0 && now - pc.createdAt > cfg.maxConnLifetime)
    && !(cfg.idleTimeout > 0 && now - pc.lastUsedAt > cfg.idleTimeout)
  }

  function Use(pc: PooledConn, now: Time): PooledConn {
    pc.(lastUsedAt := now, usageCount := pc.usageCount + 1)
  }

  /** closeConn on each of some connections. */
  function Retire(p: Pool, pcs: seq<PooledConn>): Pool {
    p.(total := p.total - |pcs|, closes := p.closes + |pcs|)
  }

  // ---------------------------------------------------------------- Acquire

  /** The i-th health check of a section reads clock(i). */
  type Clock = nat -> Time

  /** How many connections the pop loop discards, counting from the top, before a healthy one or the bottom. */
  function Unhealthy(cfg: Config, idle: seq<PooledConn>, clock: Clock, k: nat): (n: nat)
    requires k <= |idle|
    ensures k <= n <= |idle|
    ensures forall i :: k <= i < n ==> !Healthy(cfg, idle[|idle| - 1 - i], clock(i))
    ensures n < |idle| ==> Healthy(cfg, idle[|idle| - 1 - n], clock(n))
    decreases |idle| - k
  {
    if k == |idle| || Healthy(cfg, idle[|idle| - 1 - k], clock(k)) then k else Unhealthy(cfg, idle, clock, k + 1)
  }

  datatype Acquired = PoolClosed | FromIdle(pc: PooledConn) | Reserved | Queued

  /** Discards the unhealthy connections on top of the idle stack. */
  function TrimIdle(cfg: Config, p: Pool, clock: Clock): Pool {
    var keep := |p.idle| - Unhealthy(cfg, p.idle, clock, 0);
    Retire(p, p.idle[keep..]).(idle := p.idle[..keep])
  }

  /** Pops a connection, reserves a slot for a dial, or queues. */
  function TakeOrQueue(cfg: Config, p: Pool, call: Call, now: Time): (Pool, Acquired)
    requires p.inUse.Some?
  {
    if |p.idle| > 0 then
      var pc := Use(p.idle[|p.idle| - 1], now);
      (p.(idle := p.idle[..|p.idle| - 1], inUse := Some(p.inUse.value[pc.conn := pc])), FromIdle(pc))
    else if p.total < cfg.maxPoolSize then (p.(total := p.total + 1), Reserved)
    else (p.(waiters := p.waiters + [call]), Queued)
  }

  /** The first section of Acquire. */
  function AcquireSection(cfg: Config, p: Pool, call: Call, clock: Clock, now: Time): (Pool, Acquired)
    requires p.closed || p.inUse.Some?
  {
    if p.closed then (p, PoolClosed) else TakeOrQueue(cfg, TrimIdle(cfg, p, clock), call, now)
  }

  /** The second section of Acquire; None is the panic of writing to a nil map. */
  function InsertSection(p: Pool, pc: PooledConn): Option<Pool> {
    if p.inUse.None? then None else Some(p.(inUse := Some(p.inUse.value[pc.conn := pc])))
  }

  function RemoveFirst(s: seq<Call>, x: Call): seq<Call> {
    if s == [] then [] else if s[0] == x then s[1..] else [s[0]] + RemoveFirst(s[1..], x)
  }

  /** A waiter that timed out or was cancelled takes itself off the queue, if it is still on it. */
  function GiveUpSection(p: Pool, call: Call): Pool {
    p.(waiters := RemoveFirst(p.waiters, call))
  }

  // ---------------------------------------------------------------- giving back

  predicate Lent(p: Pool, c: Conn) {
    p.inUse.Some? && c in p.inUse.value
  }

  function TakeBack(p: Pool, c: Conn): Pool
    requires Lent(p, c)
  {
    p.(inUse := Some(p.inUse.value - {c}))
  }

  /** A connection that is not lent is only closed. */
  function ReleaseSection(cfg: Config, p: Pool, c: Conn, checkedAt: Time, now: Time): Pool {
    if !Lent(p, c) then p
    else
      var pc := p.inUse.value[c];
      var q := TakeBack(p, c);
      if q.closed || !Healthy(cfg, pc, checkedAt) then Retire(q, [pc])
      else if |q.waiters| > 0 then q.(waiters := q.waiters[1..], sent := q.sent[q.waiters[0] := pc])
      else q.(idle := q.idle + [pc.(lastUsedAt := now)])
  }

  function DiscardSection(p: Pool, c: Conn): Pool {
    if Lent(p, c) then Retire(TakeBack(p, c), [p.inUse.value[c]]) else p
  }

  // ---------------------------------------------------------------- Close and maintenance

  function CloseSection(p: Pool): Pool
    requires p.closed || p.inUse.Some?
  {
    if p.closed then p
    else
      var lent := p.inUse.value.Keys;
      p.(closed := true, idle := [], inUse := None, waiters := [],
         woken := p.woken + Members(p.waiters),
         total := p.total - |p.idle| - |lent|, closes := p.closes + |p.idle| + |lent|)
  }

  function Keep(cfg: Config, idle: seq<PooledConn>, now: Time): seq<PooledConn> {
    if idle == [] then []
    else
      var init, last := idle[..|idle| - 1], idle[|idle| - 1];
      if Healthy(cfg, last, now) then Keep(cfg, init, now) + [last] else Keep(cfg, init, now)
  }

  function Drop(cfg: Config, idle: seq<PooledConn>, now: Time): seq<PooledConn> {
    if idle == [] then []
    else
      var init, last := idle[..|idle| - 1], idle[|idle| - 1];
      if Healthy(cfg, last, now) then Drop(cfg, init, now) else Drop(cfg, init, now) + [last]
  }

  function CleanupSection(cfg: Config, p: Pool, now: Time): Pool {
    if p.closed then p else Retire(p, Drop(cfg, p.idle, now)).(idle := Keep(cfg, p.idle, now))
  }

  /** How many connections a replenisher sets out to dial. */
  function Needed(cfg: Config, p: Pool): nat {
    var needed := cfg.minIdleConns - |p.idle|;
    var canCreate := cfg.maxPoolSize - p.total;
    if needed <= 0 || canCreate <= 0 then 0 else Min(needed, canCreate)
  }

  predicate MayDial(cfg: Config, p: Pool) {
    !p.closed && p.total < cfg.maxPoolSize
  }

  function StockSection(p: Pool, pc: PooledConn): Pool {
    if p.closed then Retire(p, [pc]) else p.(idle := p.idle + [pc])
  }
}
