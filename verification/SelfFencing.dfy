/** Self-fencing (internal/cluster/manager.go), stated over the history of quorum checks a node made. */
module SelfFencing {
  import opened Base
  import opened NodeManager
  import opened NodeRuns
  import opened NodeStates

  datatype Check = Check(hasQuorum: bool, at: Time)

  /** The recorded loss time after a history of checks. */
  function Lost(checks: seq<Check>): Time {
    if checks == [] then ZERO_TIME
    else
      var last := checks[|checks| - 1];
      LostAt(Lost(checks[..|checks| - 1]), last.hasQuorum, last.at)
  }

  /** A clock that is set and does not go back. */
  predicate Clocked(checks: seq<Check>) {
    && (forall i :: 0 <= i < |checks| ==> checks[i].at > ZERO_TIME)
    && (forall i, j :: 0 <= i <= j < |checks| ==> checks[i].at <= checks[j].at)
  }

  /** No check from j on saw a quorum. */
  predicate QuorumlessFrom(checks: seq<Check>, j: nat) {
    forall i :: j <= i < |checks| ==> !checks[i].hasQuorum
  }

  /** The recorded time is that of the first check of the unbroken run without quorum that ends the history. */
  lemma {:induction false} LostSinceRunStart(checks: seq<Check>) returns (start: nat)
    requires Clocked(checks)
    ensures start <= |checks| && QuorumlessFrom(checks, start) && (start > 0 ==> checks[start - 1].hasQuorum)
    ensures Lost(checks) == if start < |checks| then checks[start].at else ZERO_TIME
  {
    if checks == [] {
      return 0;
    }
    var n := |checks| - 1;
    start := LostSinceRunStart(checks[..n]);
    if checks[n].hasQuorum {
      start := n + 1;
    }
  }

  /** j is an earlier check, at least the timeout before now, since which no check saw a quorum. */
  predicate LongLost(checks: seq<Check>, now: Time, timeout: Time, j: nat) {
    j < |checks| && QuorumlessFrom(checks, j) && now - checks[j].at >= timeout
  }

  lemma FencesIffLongLost(checks: seq<Check>, now: Check, timeout: Time)
    requires Clocked(checks + [now])
    ensures SelfFences(Lost(checks), now.hasQuorum, now.at, timeout)
            <==> !now.hasQuorum && exists j: nat :: LongLost(checks, now.at, timeout, j)
  {
    assert forall i :: 0 <= i < |checks| ==> checks[i] == (checks + [now])[i];
    var start := LostSinceRunStart(checks);
    if start < |checks| && now.at - checks[start].at >= timeout {
      assert LongLost(checks, now.at, timeout, start);
    }
    forall j: nat | LongLost(checks, now.at, timeout, j)
      ensures start <= j && checks[start].at <= checks[j].at
    {
    }
  }

  // ---------------------------------------------------------------- the checks of a run

  /** A tick checks the quorum when protection is on and its own switch finds a healthy running primary. */
  predicate Checks(cfg: ManagerConfig, w: World, x: TickIn) {
    && cfg.splitBrainProtection && Opening(cfg, w, x).node.state == RunningPrimary
    && x.status.healthy && !x.status.isInRecovery
  }

  function CheckOf(x: TickIn): Check {
    Check(x.hasQuorum, x.quorumAt)
  }

  function StepChecks(cfg: ManagerConfig, w: World, step: Step): seq<Check> {
    if step.DoTick? && Checks(cfg, w, step.x) then [CheckOf(step.x)] else []
  }

  /** The checks of each step. */
  function Made(cfg: ManagerConfig, run: seq<World>, steps: seq<Step>): (made: seq<seq<Check>>)
    requires |steps| < |run|
    ensures |made| == |steps| && forall i :: 0 <= i < |steps| ==> made[i] == StepChecks(cfg, run[i], steps[i])
  {
    seq(|steps|, i requires 0 <= i < |steps| => StepChecks(cfg, run[i], steps[i]))
  }

  function Joined(made: seq<seq<Check>>, i: nat): seq<Check>
    requires i <= |made|
  {
    if i == 0 then [] else Joined(made, i - 1) + made[i - 1]
  }

  /** The checks made in the first i steps of a run. */
  function History(cfg: ManagerConfig, run: seq<World>, steps: seq<Step>, i: nat): seq<Check>
    requires i <= |steps| < |run|
  {
    Joined(Made(cfg, run, steps), i)
  }

  /** A tick fences the node by itself, as opposed to executing a FENCE. */
  predicate FencesItself(cfg: ManagerConfig, w: World, x: TickIn) {
    Opening(cfg, w, x).node.state != Fenced && Tick(cfg, w, x).node.state == Fenced
  }

  lemma CheckPrimaryKeepsLost(cfg: ManagerConfig, w: World, x: PrimaryIn)
    ensures var w' := CheckPrimary(cfg, w, x);
            && w'.node.quorumLostAt == w.node.quorumLostAt
            && (w.node.state != Fenced ==> w'.node.state != Fenced)
  {
  }

  lemma TickChecks(cfg: ManagerConfig, w: World, x: TickIn)
    ensures var lost := w.node.quorumLostAt;
            && Tick(cfg, w, x).node.quorumLostAt
               == (if Checks(cfg, w, x) then LostAt(lost, x.hasQuorum, x.quorumAt) else lost)
            && (FencesItself(cfg, w, x) <==>
                  Checks(cfg, w, x) && SelfFences(lost, x.hasQuorum, x.quorumAt, QuorumTimeout(cfg)))
  {
    OpeningLands(cfg, w, x);
    var w1 := Reported(cfg, w, x);
    assert w1.node == Opening(cfg, w, x).node && w1.node.quorumLostAt == w.node.quorumLostAt;
    if w1.node.state == RunningReplica {
      CheckPrimaryKeepsLost(cfg, Lagged(cfg, w1, x), x.primary);
    }
  }

  /** What the checks of one step, at most one, make of the recorded loss time. */
  function LostBy(lost: Time, checks: seq<Check>): Time {
    if checks == [] then lost else LostAt(lost, checks[0].hasQuorum, checks[0].at)
  }

  lemma StepKeepsLost(cfg: ManagerConfig, w: World, step: Step)
    ensures Next(cfg, w, step).node.quorumLostAt == LostBy(w.node.quorumLostAt, StepChecks(cfg, w, step))
    ensures |StepChecks(cfg, w, step)| <= 1
  {
    if step.DoTick? {
      TickChecks(cfg, w, step.x);
    }
  }

  /** A loss time that follows each step's checks is that of all of them together. */
  lemma {:induction false} LostOfJoined(made: seq<seq<Check>>, lost: seq<Time>, i: nat)
    requires i <= |made| < |lost| && lost[0] == ZERO_TIME
    requires forall k :: 0 <= k < |made| ==> |made[k]| <= 1 && lost[k + 1] == LostBy(lost[k], made[k])
    ensures lost[i] == Lost(Joined(made, i))
  {
    if i > 0 {
      LostOfJoined(made, lost, i - 1);
      var before := Joined(made, i - 1);
      if made[i - 1] == [] {
        assert before + made[i - 1] == before;
      } else {
        assert (before + made[i - 1])[..|before|] == before;
      }
    }
  }

  /** The node's recorded loss time is that of its check history. */
  lemma LostIsOfHistory(cfg: ManagerConfig, run: seq<World>, steps: seq<Step>, i: nat)
    requires Follows(cfg, run, steps) && run[0].node.quorumLostAt == ZERO_TIME && i <= |steps|
    ensures run[i].node.quorumLostAt == Lost(History(cfg, run, steps, i))
  {
    var lost := seq(|run|, k requires 0 <= k < |run| => run[k].node.quorumLostAt);
    var made := Made(cfg, run, steps);
    forall k | 0 <= k < |made| ensures |made[k]| <= 1 && lost[k + 1] == LostBy(lost[k], made[k]) {
      StepKeepsLost(cfg, run[k], steps[k]);
    }
    LostOfJoined(made, lost, i);
  }

  /**
   * In every run with a clock that does not go back, a tick self-fences exactly when it makes a check without quorum
   * and some earlier check lies at least the timeout back with no quorum seen by any check since. One check with
   * quorum restarts the count; ticks that make no check do not.
   */
  lemma SelfFencingIsExact(cfg: ManagerConfig, run: seq<World>, steps: seq<Step>, i: nat)
    requires IsRun(cfg, run, steps) && i < |steps| && steps[i].DoTick?
    requires Clocked(History(cfg, run, steps, i) + [CheckOf(steps[i].x)])
    ensures var x := steps[i].x;
            var timeout := if cfg.quorumLossTimeout == 0 then 30_000_000_000 else cfg.quorumLossTimeout;
            FencesItself(cfg, run[i], x) <==>
              Checks(cfg, run[i], x) && !x.hasQuorum
              && exists j: nat :: LongLost(History(cfg, run, steps, i), x.quorumAt, timeout, j)
  {
    var x := steps[i].x;
    LostIsOfHistory(cfg, run, steps, i);
    TickChecks(cfg, run[i], x);
    FencesIffLongLost(History(cfg, run, steps, i), CheckOf(x), QuorumTimeout(cfg));
  }
}
