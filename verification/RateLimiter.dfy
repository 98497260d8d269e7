/** The API server's token bucket (internal/api/server.go). Floats are modelled as reals, the clock as seconds. */
module RateLimiter {

  datatype Bucket = Bucket(tokens: real, maxTokens: real, refillRate: real, lastRefill: real)

  function Fresh(maxTokens: real, refillRate: real, now: real): Bucket {
    Bucket(maxTokens, maxTokens, refillRate, now)
  }

  function Refill(b: Bucket, now: real): Bucket {
    var t := b.tokens + (now - b.lastRefill) * b.refillRate;
    b.(tokens := if t > b.maxTokens then b.maxTokens else t, lastRefill := now)
  }

  /** One `allow` call: the bucket it leaves and its answer. */
  function Take(b: Bucket, now: real): (Bucket, bool) {
    var r := Refill(b, now);
    if r.tokens >= 1.0 then (r.(tokens := r.tokens - 1.0), true) else (r, false)
  }

  class Limiter {
    var tokens: real
    const maxTokens: real
    const refillRate: real
    var lastRefill: real

    function View(): Bucket
      reads this
    {
      Bucket(tokens, maxTokens, refillRate, lastRefill)
    }

    constructor (maxTokens: real, tokensPerSecond: real, now: real)
      ensures View() == Fresh(maxTokens, tokensPerSecond, now)
    {
      this.tokens := maxTokens;
      this.maxTokens := maxTokens;
      this.refillRate := tokensPerSecond;
      this.lastRefill := now;
    }

    method Allow(now: real) returns (ok: bool)
      modifies this
      ensures View() == Take(old(View()), now).0 && ok == Take(old(View()), now).1
    {
      var elapsed := now - lastRefill;
      tokens := tokens + elapsed * refillRate;
      if tokens > maxTokens {
        tokens := maxTokens;
      }
      lastRefill := now;
      assert View() == Refill(old(View()), now);
      if tokens >= 1.0 {
        tokens := tokens - 1.0;
        return true;
      }
      return false;
    }
  }

  // ---------------------------------------------------------------- runs

  ghost predicate Nondecreasing(times: seq<real>) {
    forall i, j :: 0 <= i <= j < |times| ==> times[i] <= times[j]
  }

  /** A limiter created at `start` that then serves calls at `times`. */
  ghost predicate IsRun(b: Bucket, times: seq<real>) {
    && 0.0 <= b.maxTokens && 0.0 <= b.refillRate
    && b.tokens == b.maxTokens
    && Nondecreasing([b.lastRefill] + times)
  }

  function After(b: Bucket, times: seq<real>, k: nat): Bucket
    requires k <= |times|
  {
    if k == 0 then b else Take(After(b, times, k - 1), times[k - 1]).0
  }

  predicate Granted(b: Bucket, times: seq<real>, k: nat)
    requires k < |times|
  {
    Take(After(b, times, k), times[k]).1
  }

  /** How many of the calls i, ..., k - 1 were allowed. */
  function Grants(b: Bucket, times: seq<real>, i: nat, k: nat): nat
    requires i <= k <= |times|
  {
    if i == k then 0
    else Grants(b, times, i, k - 1) + if Granted(b, times, k - 1) then 1 else 0
  }

  // ---------------------------------------------------------------- the credit clock
  //
  // Measured in credits (refillRate * time) the bucket is linear: it gains what the clock gains. The main argument is
  // made there; CreditClock carries it back.

  function Gained(rate: real, t: real): real {
    rate * t
  }

  function Credits(rate: real, times: seq<real>): (u: seq<real>)
    ensures |u| == |times|
  {
    seq(|times|, i requires 0 <= i < |times| => Gained(rate, times[i]))
  }

  /** The level right after the refill of call k, for calls at credits u on a bucket that starts full. */
  function Level(max: real, u: seq<real>, k: nat): real
    requires k < |u|
  {
    if k == 0 then max
    else
      var l := Level(max, u, k - 1);
      var spent := if l >= 1.0 then l - 1.0 else l;
      var t := spent + (u[k] - u[k - 1]);
      if t > max then max else t
  }

  function LevelGrants(max: real, u: seq<real>, i: nat, k: nat): nat
    requires i <= k <= |u|
  {
    if i == k then 0 else LevelGrants(max, u, i, k - 1) + if Level(max, u, k - 1) >= 1.0 then 1 else 0
  }

  /** What the window opened by call i still allows at call k. */
  function Headroom(max: real, u: seq<real>, i: nat, k: nat): real
    requires i <= k < |u|
  {
    max + (u[k] - u[i]) - LevelGrants(max, u, i, k) as real
  }

  /** The level is the least headroom over all windows ending at the call: none has less, and one has exactly it. */
  lemma {:induction false} LevelIsLeastHeadroom(max: real, u: seq<real>, k: nat) returns (w: nat)
    requires k < |u|
    ensures w <= k && Level(max, u, k) == Headroom(max, u, w, k)
    ensures forall i: nat :: i <= k ==> Level(max, u, k) <= Headroom(max, u, i, k)
  {
    w := k;
    if k > 0 {
      var w' := LevelIsLeastHeadroom(max, u, k - 1);
      forall i: nat | i < k
        ensures Headroom(max, u, i, k) == Headroom(max, u, i, k - 1) + (u[k] - u[k - 1])
                                          - if Level(max, u, k - 1) >= 1.0 then 1.0 else 0.0
      {
      }
      if Level(max, u, k) != max {
        w := w';
      }
    }
  }

  lemma {:induction false} LevelInRange(max: real, u: seq<real>, k: nat)
    requires 0.0 <= max && k < |u| && Nondecreasing(u)
    ensures 0.0 <= Level(max, u, k) <= max
  {
    if k > 0 {
      LevelInRange(max, u, k - 1);
      assert u[k - 1] <= u[k];
    }
  }

  lemma GainedMonotone(rate: real, s: real, t: real)
    requires 0.0 <= rate && s <= t
    ensures Gained(rate, s) <= Gained(rate, t)
  {
  }

  lemma CreditsNondecreasing(rate: real, times: seq<real>)
    requires 0.0 <= rate && Nondecreasing(times)
    ensures Nondecreasing(Credits(rate, times))
  {
  }

  ghost predicate OnCreditClock(b: Bucket, times: seq<real>, k: nat)
    requires k < |times|
  {
    var u := Credits(b.refillRate, times);
    var r := Refill(After(b, times, k), times[k]);
    r == Bucket(Level(b.maxTokens, u, k), b.maxTokens, b.refillRate, times[k])
  }

  lemma RefillByCredit(b: Bucket, now: real)
    ensures var t := b.tokens + (Gained(b.refillRate, now) - Gained(b.refillRate, b.lastRefill));
            Refill(b, now) == b.(tokens := if t > b.maxTokens then b.maxTokens else t, lastRefill := now)
  {
  }

  /** The bucket's own levels are those of the credit clock. */
  lemma {:induction false} CreditClock(b: Bucket, times: seq<real>, k: nat)
    requires IsRun(b, times) && k < |times|
    ensures OnCreditClock(b, times, k)
    ensures Granted(b, times, k) <==> Level(b.maxTokens, Credits(b.refillRate, times), k) >= 1.0
  {
    RefillByCredit(After(b, times, k), times[k]);
    if k == 0 {
      var all := [b.lastRefill] + times;
      assert all[0] <= all[1];
      GainedMonotone(b.refillRate, b.lastRefill, times[0]);
    } else {
      CreditClock(b, times, k - 1);
    }
  }

  lemma {:induction false} GrantsOnCreditClock(b: Bucket, times: seq<real>, i: nat, k: nat)
    requires IsRun(b, times) && i <= k <= |times|
    ensures Grants(b, times, i, k) == LevelGrants(b.maxTokens, Credits(b.refillRate, times), i, k)
  {
    if i < k {
      GrantsOnCreditClock(b, times, i, k - 1);
      CreditClock(b, times, k - 1);
    }
  }

  // ---------------------------------------------------------------- main results

  /** The requests a window of calls i..k may allow in total. */
  function Budget(b: Bucket, times: seq<real>, i: nat, k: nat): real
    requires i <= k < |times|
  {
    b.maxTokens + b.refillRate * (times[k] - times[i])
  }

  lemma BudgetByCredit(b: Bucket, times: seq<real>, i: nat, k: nat)
    requires i <= k < |times|
    ensures var u := Credits(b.refillRate, times);
            Budget(b, times, i, k) == b.maxTokens + (u[k] - u[i])
  {
  }

  lemma FitsIffHeadroom(b: Bucket, times: seq<real>, i: nat, k: nat)
    requires IsRun(b, times) && i <= k < |times|
    ensures var u := Credits(b.refillRate, times);
            Budget(b, times, i, k) - Grants(b, times, i, k) as real == Headroom(b.maxTokens, u, i, k)
  {
    BudgetByCredit(b, times, i, k);
    GrantsOnCreditClock(b, times, i, k);
  }

  /**
   * The limiter is exactly the greedy one: a call is allowed if and only if, for every call so far as the start of a
   * window, allowing it keeps that window within maxTokens + refillRate * length.
   */
  lemma AllowedIffEveryWindowFits(b: Bucket, times: seq<real>, k: nat)
    requires IsRun(b, times) && k < |times|
    ensures Granted(b, times, k) <==>
            forall i: nat :: i <= k ==> Grants(b, times, i, k) as real + 1.0 <= Budget(b, times, i, k)
  {
    var u := Credits(b.refillRate, times);
    var w := LevelIsLeastHeadroom(b.maxTokens, u, k);
    CreditClock(b, times, k);
    forall i: nat | i <= k
      ensures Budget(b, times, i, k) - Grants(b, times, i, k) as real == Headroom(b.maxTokens, u, i, k)
    {
      FitsIffHeadroom(b, times, i, k);
    }
    assert Budget(b, times, w, k) - Grants(b, times, w, k) as real == Level(b.maxTokens, u, k);
  }

  /** Any consecutive calls i, ..., k allow at most maxTokens + refillRate * (t_k - t_i) requests. */
  lemma {:induction false} WindowBound(b: Bucket, times: seq<real>, i: nat, k: nat)
    requires IsRun(b, times) && i <= k < |times|
    ensures Grants(b, times, i, k + 1) as real <= Budget(b, times, i, k)
    decreases k
  {
    if Granted(b, times, k) {
      AllowedIffEveryWindowFits(b, times, k);
    } else if i < k {
      WindowBound(b, times, i, k - 1);
      var all := [b.lastRefill] + times;
      assert all[k] <= all[k + 1];
      BudgetByCredit(b, times, i, k - 1);
      BudgetByCredit(b, times, i, k);
      GainedMonotone(b.refillRate, times[k - 1], times[k]);
    } else {
      BudgetByCredit(b, times, i, k);
    }
  }

  lemma RunTimes(b: Bucket, times: seq<real>)
    requires IsRun(b, times)
    ensures Nondecreasing(times)
  {
    var all := [b.lastRefill] + times;
    assert forall i :: 0 <= i < |times| ==> times[i] == all[i + 1];
  }

  /** The bucket never goes negative and never overfills. */
  lemma TokensStayInRange(b: Bucket, times: seq<real>, k: nat)
    requires IsRun(b, times) && k <= |times|
    ensures 0.0 <= After(b, times, k).tokens <= b.maxTokens
  {
    if k > 0 {
      RunTimes(b, times);
      CreditsNondecreasing(b.refillRate, times);
      LevelInRange(b.maxTokens, Credits(b.refillRate, times), k - 1);
      CreditClock(b, times, k - 1);
    }
  }

  lemma EnoughCredit(rate: real, s: real, t: real)
    requires rate > 0.0 && t - s >= 1.0 / rate
    ensures Gained(rate, t) - Gained(rate, s) >= 1.0
  {
  }

  lemma GainOfOneSuffices(max: real, u: seq<real>, k: nat)
    requires 1.0 <= max && 0 < k < |u| && Nondecreasing(u) && u[k] - u[k - 1] >= 1.0
    ensures Level(max, u, k) >= 1.0
  {
    LevelInRange(max, u, k - 1);
  }

  /** With room for one token, a caller that waits 1 / refillRate after the previous call is never refused. */
  lemma PatientCallerIsServed(b: Bucket, times: seq<real>, k: nat)
    requires IsRun(b, times) && 0 < k < |times|
    requires b.maxTokens >= 1.0 && b.refillRate > 0.0
    requires times[k] - times[k - 1] >= 1.0 / b.refillRate
    ensures Granted(b, times, k)
  {
    RunTimes(b, times);
    CreditsNondecreasing(b.refillRate, times);
    EnoughCredit(b.refillRate, times[k - 1], times[k]);
    GainOfOneSuffices(b.maxTokens, Credits(b.refillRate, times), k);
    CreditClock(b, times, k);
  }
}
