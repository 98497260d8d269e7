/** The controller object: its fields are updated step by step, proved against modules Failover and Switchover. */
module FailoverController {
  import opened Base
  import opened Fsm
  import opened Store
  import opened Failover
  import opened Switchover

  class FailoverController {
    const cfg: Config
    var inFlight: bool
    var ids: seq<string>
    var startTime: Time
    var confirmationStart: Time
    /** The consensus store as this node sees it. */
    var store: Store

    function View(): Ctrl
      reads this
    {
      Ctrl(inFlight, ids, startTime, confirmationStart)
    }

    constructor (cfg: Config, store: Store)
      ensures View() == CLEARED && this.cfg == cfg && this.store == store
    {
      this.cfg, this.store := cfg, store;
      inFlight, ids, startTime, confirmationStart := false, [], ZERO_TIME, ZERO_TIME;
    }

    method ClearFailover()
      modifies this
      ensures View() == CLEARED && store == old(store)
    {
      inFlight, ids, startTime, confirmationStart := false, [], ZERO_TIME, ZERO_TIME;
    }

    method ShouldFailover(now: Time) returns (yes: bool)
      modifies this
      ensures (View(), yes) == Failover.ShouldFailover(cfg, old(View()), now) && store == old(store)
    {
      if inFlight {
        return false;
      }
      if confirmationStart == ZERO_TIME {
        confirmationStart := now;
        return false;
      }
      var elapsed := now - confirmationStart;
      if elapsed < cfg.confirmationPeriod {
        return false;
      }
      return true;
    }

    method SelectBestReplica(replicas: seq<NodeInfo>, exclude: string) returns (best: Option<NodeInfo>)
      ensures best == SelectBest(replicas, exclude)
    {
      best := None;
      for i := 0 to |replicas|
        invariant best == SelectBest(replicas[..i], exclude)
      {
        assert replicas[..i + 1][..i] == replicas[..i];
        var r := replicas[i];
        if r.name == exclude {
          continue;
        }
        if best.None? || r.lag < best.value.lag {
          best := Some(r);
        }
      }
      assert replicas[..|replicas|] == replicas;
    }

    method PublishFailoverDirectives(failed: string, target: string, x: FailoverIn) returns (ok: bool)
      modifies this
      ensures var (st, published) := PublishFailover(cfg, old(store), failed, target, x);
              && store == st && ok == published.Some?
              && (ok ==> View() == old(View()).(ids := published.value))
              && (!ok ==> View() == CLEARED)
    {
      var directiveIDs := [];
      if cfg.fencing {
        var fence := Order(Fence, failed, map[], x.now);
        store := Propose(store, x.fence, PublishDirective(fence));
        if !x.fence.Commits() {
          ClearFailover();
          return false;
        }
        directiveIDs := directiveIDs + [fence.id];
      }
      var promote := Order(Promote, target, map[], x.now);
      store := Propose(store, x.promote, PublishDirective(promote));
      if !x.promote.Commits() {
        ClearFailover();
        return false;
      }
      directiveIDs := directiveIDs + [promote.id];
      ids := directiveIDs;
      return true;
    }

    method ExecuteFailoverTo(failed: string, target: string, x: FailoverIn) returns (ok: bool)
      modifies this
      ensures (View(), store, ok) == FailoverTo(cfg, old(View()), old(store), failed, target, x)
    {
      inFlight, ids, startTime := true, [], x.startAt;
      ok := PublishFailoverDirectives(failed, target, x);
    }

    method ExecuteFailover(failed: string, replicas: seq<NodeInfo>, x: FailoverIn) returns (ok: bool)
      modifies this
      ensures (View(), store, ok) == Failover.ExecuteFailover(cfg, old(View()), old(store), failed, replicas, x)
    {
      inFlight, ids, startTime := true, [], x.startAt;
      var target := SelectBestReplica(replicas, failed);
      if target.None? {
        ClearFailover();
        return false;
      }
      ok := PublishFailoverDirectives(failed, target.value.name, x);
    }

    method WaitForDirective(id: string, polls: seq<seq<Entry>>) returns (ok: bool)
      modifies this`store
      ensures (store, ok) == AwaitDirective(old(store), id, polls)
    {
      for i := 0 to |polls|
        invariant AwaitDirective(old(store), id, polls) == AwaitDirective(store, id, polls[i..])
      {
        store := Hear(store, polls[i]);
        assert polls[i..][1..] == polls[i + 1..];
        if id !in store.fsm.directives {
          return false;
        }
        var status := store.fsm.directives[id].status;
        if status == Completed {
          return true;
        }
        if status == Failed {
          return false;
        }
      }
      return false;
    }

    method WaitForReplicaSync(target: string, polls: seq<seq<Entry>>) returns (ok: bool)
      modifies this`store
      ensures (store, ok) == AwaitSync(old(store), target, polls)
    {
      for i := 0 to |polls|
        invariant AwaitSync(old(store), target, polls) == AwaitSync(store, target, polls[i..])
      {
        store := Hear(store, polls[i]);
        assert polls[i..][1..] == polls[i + 1..];
        if target !in store.fsm.nodes {
          continue;
        }
        if store.fsm.nodes[target].lag <= MAX_LAG {
          return true;
        }
      }
      return false;
    }

    method ExecuteSwitchover(primary: string, target: string, x: SwitchIn) returns (ok: bool)
      modifies this
      ensures (View(), store, ok) == RunSwitchover(old(View()), old(store), primary, target, x)
    {
      inFlight, ids, startTime := true, [], x.startAt;
      var checkpoint := CheckpointOrder(primary, x);
      store := Propose(store, x.checkpoint, PublishDirective(checkpoint));
      if !x.checkpoint.Commits() {
        ClearFailover();
        return false;
      }
      var done := WaitForDirective(checkpoint.id, x.polls);
      if !done {
        ClearFailover();
        return false;
      }
      var synced := WaitForReplicaSync(target, x.syncPolls);
      if !synced {
        ClearFailover();
        return false;
      }
      var demote := DemoteOrder(primary, target, x);
      store := Propose(store, x.demote, PublishDirective(demote));
      if !x.demote.Commits() {
        ClearFailover();
        return false;
      }
      var promote := PromoteTarget(target, x);
      store := Propose(store, x.promote, PublishDirective(promote));
      if !x.promote.Commits() {
        ClearFailover();
        return false;
      }
      ids := [checkpoint.id, demote.id, promote.id];
      return true;
    }

    method MonitorDirectives(x: MonitorIn) returns (done: bool)
      modifies this
      ensures (View(), store, done) == Monitor(old(View()), old(store), x)
    {
      if !inFlight || |ids| == 0 {
        return false;
      }
      var timedOut := x.now - startTime > DIRECTIVE_TIMEOUT;
      var allDone := MonitorEach(timedOut, x);
      if allDone || timedOut {
        ClearFailover();
        return true;
      }
      return false;
    }

    method MonitorEach(timedOut: bool, x: MonitorIn) returns (allDone: bool)
      modifies this`store
      ensures (store, allDone) == MonitorAll(old(store), ids, timedOut, x)
    {
      allDone := true;
      for i := 0 to |ids|
        invariant (store, allDone) == MonitorAll(old(store), ids[..i], timedOut, x)
      {
        assert ids[..i + 1][..i] == ids[..i];
        store := Hear(store, x.heard(i));
        if ids[i] in store.fsm.directives && store.fsm.directives[ids[i]].status == Pending {
          if timedOut {
            store := Propose(store, x.write(i), CompleteDirective(ids[i], TIMEOUT_MESSAGE));
          } else {
            allDone := false;
          }
        }
      }
      assert ids[..|ids|] == ids;
    }
  }
}
