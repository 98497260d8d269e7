/** The ring buffer of health check results (internal/cluster/health.go). */
module HealthHistory {
  import opened Base

  datatype HealthStatus = HealthStatus(healthy: bool, isInRecovery: bool, replicationLag: int)

  datatype Entry = Entry(status: HealthStatus, timestamp: Time, duration: Time)

  datatype Summary = Summary(totalChecks: int, successCount: int, failureCount: int,
                             successRate: real, avgDurationMs: real)

  /** What a bounded log of the given capacity retains of everything that was ever added. */
  function Kept(log: seq<Entry>, cap: nat): seq<Entry> {
    log[|log| - Min(|log|, cap)..]
  }

  function Newest(log: seq<Entry>, cap: nat, n: nat): seq<Entry> {
    var all := Kept(log, cap);
    var m := Min(n, |all|);
    seq(m, i requires 0 <= i < m => all[|all| - 1 - i])
  }

  lemma NewestIs(log: seq<Entry>, cap: nat, n: nat, r: seq<Entry>)
    requires |r| == Min(n, Min(|log|, cap)) && forall k :: 0 <= k < |r| ==> r[k] == log[|log| - 1 - k]
    ensures r == Newest(log, cap, n)
  {
  }

  function Successes(s: seq<Entry>): nat {
    if s == [] then 0 else Successes(s[..|s| - 1]) + if s[|s| - 1].status.healthy then 1 else 0
  }

  function TotalDuration(s: seq<Entry>): Time {
    if s == [] then 0 else TotalDuration(s[..|s| - 1]) + s[|s| - 1].duration
  }

  /** `Duration.Milliseconds`: division that truncates toward zero. */
  function Milliseconds(d: Time): int {
    if d >= 0 then d / 1_000_000 else -((-d) / 1_000_000)
  }

  function Summarize(s: seq<Entry>): Summary {
    if s == [] then Summary(0, 0, 0, 0.0, 0.0)
    else Summary(|s|, Successes(s), |s| - Successes(s),
                 Successes(s) as real / |s| as real * 100.0,
                 Milliseconds(TotalDuration(s)) as real / |s| as real)
  }

  /** Kept is the newest part of the log, in order; Newest reads the log backwards. */
  lemma KeptIs(log: seq<Entry>, cap: nat, n: nat)
    ensures |Kept(log, cap)| == Min(|log|, cap) && |Newest(log, cap, n)| == Min(n, Min(|log|, cap))
    ensures forall i :: 0 <= i < Min(|log|, cap) ==> Kept(log, cap)[i] == log[|log| - Min(|log|, cap) + i]
    ensures forall i :: 0 <= i < Min(n, Min(|log|, cap)) ==> Newest(log, cap, n)[i] == log[|log| - 1 - i]
  {
  }

  function HealthyAt(s: seq<Entry>): set<int> {
    set i | 0 <= i < |s| && s[i].status.healthy
  }

  lemma {:induction false} SuccessesCount(s: seq<Entry>)
    ensures Successes(s) == |HealthyAt(s)| <= |s|
  {
    if s != [] {
      var n := |s| - 1;
      SuccessesCount(s[..n]);
      assert HealthyAt(s) == HealthyAt(s[..n]) + (if s[n].status.healthy then {n} else {});
    }
  }

  lemma MillisecondsTruncates(d: Time)
    ensures 0 <= d ==> 0 <= d - 1_000_000 * Milliseconds(d) < 1_000_000
    ensures d <= 0 ==> -1_000_000 < d - 1_000_000 * Milliseconds(d) <= 0
  {
  }

  /** What the figures mean: checks, healthy ones, the others, their share, and the mean duration. */
  lemma SummaryMeans(s: seq<Entry>)
    requires s != []
    ensures var r := Summarize(s);
            && r.totalChecks == |s| && r.successCount == |HealthyAt(s)| && r.failureCount == |s| - |HealthyAt(s)|
            && r.successRate == |HealthyAt(s)| as real / |s| as real * 100.0
            && r.avgDurationMs == Milliseconds(TotalDuration(s)) as real / |s| as real
  {
    SuccessesCount(s);
  }

  lemma {:induction false} TotalsAppend(a: seq<Entry>, b: seq<Entry>)
    ensures Successes(a + b) == Successes(a) + Successes(b)
    ensures TotalDuration(a + b) == TotalDuration(a) + TotalDuration(b)
    ensures forall e: Entry :: TotalDuration([e]) == e.duration
  {
    forall e: Entry ensures TotalDuration([e]) == e.duration {
      assert [e][..0] == [] && TotalDuration([]) == 0;
    }
    if b == [] {
      assert a + b == a;
    } else {
      assert (a + b)[..|a + b| - 1] == a + b[..|b| - 1];
      TotalsAppend(a, b[..|b| - 1]);
    }
  }

  /** Physical order does not matter to the summary: a rotation has the same counts and the same duration. */
  lemma SummaryOfRotation(s: seq<Entry>, k: nat)
    requires k <= |s|
    ensures Summarize(s[k..] + s[..k]) == Summarize(s)
  {
    TotalsAppend(s[k..], s[..k]);
    TotalsAppend(s[..k], s[k..]);
    assert s[..k] + s[k..] == s;
  }

  lemma KeptNext(log: seq<Entry>, cap: nat, entry: Entry)
    requires 0 < cap <= |log|
    ensures Kept(log + [entry], cap) == Kept(log, cap)[1..] + [entry]
  {
  }

  /** Overwriting the oldest slot and moving the head on drops the oldest entry and appends the new one. */
  lemma RotateNext(buf: seq<Entry>, head: nat, next: nat, entry: Entry)
    requires head < |buf| && next == (if head + 1 < |buf| then head + 1 else 0)
    ensures var b := buf[head := entry]; b[next..] + b[..next] == (buf[head..] + buf[..head])[1..] + [entry]
  {
  }

  /** A buffer that is not full holds the log in its first slots. */
  lemma FillNext(log: seq<Entry>, cap: nat, buf: seq<Entry>, entry: Entry)
    requires |log| < cap == |buf| && buf[..|log|] == log
    ensures buf[|log| := entry][..|log| + 1] == log + [entry]
    ensures |log| + 1 == cap ==> buf[|log| := entry] == Kept(log + [entry], cap)
  {
  }

  /** Indices wrap around at the capacity. */
  method Slot(x: int, cap: int) returns (idx: int)
    requires 0 <= x < 2 * cap
    ensures idx == if x < cap then x else x - cap
  {
    idx := x % cap;
  }

  class History {
    const entries: array<Entry>
    var head: nat
    var size: nat
    const cap: nat
    /** Everything ever added, oldest first. */
    ghost var log: seq<Entry>

    ghost predicate Valid()
      reads this, entries
    {
      && entries.Length == cap
      && size == Min(|log|, cap)
      && (size < cap ==> head == size && entries[..size] == log)
      && (size == cap ==>
            head <= cap && (cap > 0 ==> head < cap) && entries[head..] + entries[..head] == Kept(log, cap))
    }

    constructor (capacity: nat)
      ensures Valid() && fresh(entries) && cap == capacity && log == []
    {
      entries := new Entry[capacity](_ => Entry(HealthStatus(false, false, 0), ZERO_TIME, 0));
      cap := capacity;
      head, size := 0, 0;
      log := [];
    }

    /** With capacity zero the source indexes an empty slice, so it demands a positive capacity here. */
    method Add(entry: Entry)
      requires Valid() && cap > 0
      modifies this, entries
      ensures Valid() && log == old(log) + [entry]
    {
      ghost var buf, at := entries[..], head;
      entries[head] := entry;
      head := Slot(head + 1, cap);
      if size < cap {
        size := size + 1;
      }
      log := log + [entry];
      assert entries[..] == buf[at := entry];
      if |old(log)| >= cap {
        KeptNext(old(log), cap, entry);
        RotateNext(buf, at, head, entry);
        assert entries[head..] + entries[..head] == entries[..][head..] + entries[..][..head];
      } else {
        FillNext(old(log), cap, buf, entry);
        assert size == cap ==> entries[head..] + entries[..head] == entries[..];
      }
    }

    method GetAll() returns (result: array<Entry>)
      requires Valid()
      ensures result[..] == Kept(log, cap)
    {
      result := new Entry[size](_ => Entry(HealthStatus(false, false, 0), ZERO_TIME, 0));
      if size == 0 {
        return;
      }
      var start := if size == cap then head else 0;
      ghost var all := Kept(log, cap);
      for i := 0 to size
        invariant result.Length == size == |all|
        invariant result[..i] == all[..i]
      {
        var idx := Slot(start + i, cap);
        assert entries[idx] == all[i] by {
          assert size == cap ==> all[i] == (entries[head..] + entries[..head])[i];
        }
        result[i] := entries[idx];
      }
    }

    /** The i-th newest entry, counted from the slot before the head. */
    method NthNewest(i: nat) returns (entry: Entry)
      requires Valid() && i < size
      ensures entry == log[|log| - 1 - i]
    {
      var idx := Slot(head - 1 - i + cap, cap);
      entry := entries[idx];
      assert size == cap ==> Kept(log, cap)[size - 1 - i] == (entries[head..] + entries[..head])[size - 1 - i];
    }

    /** A negative n reaches `make` with a negative length in the source, so callers must not pass one. */
    method GetRecent(n: nat) returns (result: array<Entry>)
      requires Valid()
      ensures result[..] == Newest(log, cap, n)
    {
      var m := if n > size then size else n;
      result := new Entry[m](_ => Entry(HealthStatus(false, false, 0), ZERO_TIME, 0));
      for i := 0 to m
        invariant result.Length == m && fresh(result)
        invariant forall k :: 0 <= k < i ==> result[k] == log[|log| - 1 - k]
      {
        var entry := NthNewest(i);
        result[i] := entry;
      }
      NewestIs(log, cap, n, result[..]);
    }

    /** Scans the slots in physical order; the answer is that of the retained log. */
    method Stats() returns (s: Summary)
      requires Valid()
      ensures s == Summarize(Kept(log, cap))
    {
      if size == 0 {
        return Summary(0, 0, 0, 0.0, 0.0);
      }
      var successCount, failureCount, totalDuration := 0, 0, 0;
      for i := 0 to size
        invariant successCount == Successes(entries[..i]) && failureCount == i - successCount
        invariant totalDuration == TotalDuration(entries[..i])
      {
        assert entries[..i + 1][..i] == entries[..i];
        var entry := entries[i];
        if entry.status.healthy {
          successCount := successCount + 1;
        } else {
          failureCount := failureCount + 1;
        }
        totalDuration := totalDuration + entry.duration;
      }
      s := Summary(size, successCount, failureCount,
                   successCount as real / size as real * 100.0,
                   Milliseconds(totalDuration) as real / size as real);
      if size == cap {
        assert entries[..size] == entries[..];
        SummaryOfRotation(entries[..], head);
        assert entries[..][head..] + entries[..][..head] == Kept(log, cap);
      }
    }
  }
}
