/** The FSM object itself: the fields that Apply updates in place, proved against the functions of module Fsm. */
module ClusterFsm {
  import opened Base
  import opened Fsm

  ghost predicate ListsDirectives(r: seq<Directive>, m: map<string, Directive>) {
    && (forall i :: 0 <= i < |r| ==> r[i].id in m && m[r[i].id] == r[i])
    && (forall i, j :: 0 <= i < j < |r| ==> r[i].id != r[j].id)
    && (forall id :: id in m ==> m[id] in r)
  }

  ghost predicate ListsNodes(r: seq<NodeInfo>, m: map<string, NodeInfo>) {
    && (forall i :: 0 <= i < |r| ==> r[i].name in m && m[r[i].name] == r[i])
    && (forall i, j :: 0 <= i < j < |r| ==> r[i].name != r[j].name)
    && (forall k :: k in m ==> m[k] in r)
  }

  class ClusterFSM {
    var nodes: map<string, NodeInfo>
    var primaryName: string
    var splitBrain: bool
    var pg: PgConfig
    var directives: map<string, Directive>

    function View(): State
      reads this
    {
      State(nodes, primaryName, splitBrain, pg, directives)
    }

    constructor ()
      ensures View() == INITIAL
    {
      nodes, primaryName, splitBrain := map[], "", false;
      pg := PgConfig(map[], 0, ZERO_TIME, "");
      directives := map[];
    }

    method Apply(cmd: Command, now: Time) returns (resp: Response)
      modifies this
      ensures View() == Fsm.Apply(old(View()), cmd, now)
      ensures resp == if cmd.Undecodable? then Rejected
                      else if cmd.CleanupDirectives? then Cleaned(|old(directives)| - |directives|)
                      else Done
    {
      resp := Done;
      match cmd {
        case SetPrimary(node) =>
          nodes := nodes[node.name := node.(role := Primary)];
          primaryName := node.name;
        case SetReplica(node) =>
          nodes := nodes[node.name := node.(role := Replica)];
        case AddNode(node) =>
          nodes := nodes[node.name := node];
        case RemoveNode(name) =>
          nodes := nodes - {name};
          if primaryName == name {
            primaryName := "";
          }
        case UpdateNodeHealth(node) =>
          if node.name in nodes {
            nodes := nodes[node.name := UpdateHealth(nodes[node.name], node)];
          }
        case SetClusterConfig(flag) =>
          splitBrain := flag;
        case PublishDirective(d) =>
          directives := directives[d.id := d];
        case CompleteDirective(id, error) =>
          if id in directives {
            directives := directives[id := Finish(directives[id], error, now)];
          }
        case CleanupDirectives(maxAge) =>
          var cleaned := RemoveStale(Cutoff(maxAge, now));
          resp := Cleaned(cleaned);
        case SetPostgreSQLConfig(cfg) =>
          pg := cfg;
        case PatchPostgreSQLConfig(patch, updatedBy) =>
          Merge(patch);
          pg := pg.(version := pg.version + 1, updatedAt := now, updatedBy := updatedBy);
        case Undecodable =>
          resp := Rejected;
      }
    }

    /** Deletes while iterating, in whatever order the map yields its keys. */
    method RemoveStale(cutoff: Time) returns (cleaned: int)
      modifies this`directives
      ensures directives == Fresh(old(directives), cutoff)
      ensures cleaned == |old(directives)| - |directives|
    {
      cleaned := 0;
      var todo := directives.Keys;
      while todo != {}
        invariant todo <= directives.Keys <= old(directives).Keys
        invariant forall id :: id in old(directives) && id !in todo ==>
                    (id in directives <==> !Stale(old(directives)[id], cutoff))
        invariant forall id :: id in directives ==> directives[id] == old(directives)[id]
        invariant cleaned == |old(directives)| - |directives|
        decreases |todo|
      {
        var id :| id in todo;
        if Stale(directives[id], cutoff) {
          ghost var before := directives;
          directives := directives - {id};
          assert directives.Keys == before.Keys - {id};
          cleaned := cleaned + 1;
        }
        todo := todo - {id};
      }
      assert directives == Fresh(old(directives), cutoff);
    }

    /** The result does not depend on the order in which the patch is iterated. */
    method Merge(patch: map<string, string>)
      modifies this`pg
      ensures pg == old(pg).(parameters := Patched(old(pg).parameters, patch))
    {
      var todo := patch.Keys;
      while todo != {}
        invariant todo <= patch.Keys
        invariant pg == old(pg).(parameters := pg.parameters)
        invariant pg.parameters == Patched(old(pg).parameters, patch - todo)
        decreases |todo|
      {
        var k :| k in todo;
        var v := patch[k];
        if v == "" {
          pg := pg.(parameters := pg.parameters - {k});
        } else {
          pg := pg.(parameters := pg.parameters[k := v]);
        }
        todo := todo - {k};
      }
      assert patch - todo == patch;
    }

    method GetReplicas() returns (replicas: seq<NodeInfo>)
      requires WellKeyed(View())
      ensures ListsNodes(replicas, Replicas(View()))
    {
      replicas := [];
      var todo := nodes.Keys;
      while todo != {}
        invariant todo <= nodes.Keys
        invariant forall i :: 0 <= i < |replicas| ==>
                    replicas[i].name in nodes && replicas[i].name !in todo && nodes[replicas[i].name] == replicas[i]
                    && replicas[i].role == Replica
        invariant forall i, j :: 0 <= i < j < |replicas| ==> replicas[i].name != replicas[j].name
        invariant forall k :: k in nodes && k !in todo && nodes[k].role == Replica ==> nodes[k] in replicas
        decreases |todo|
      {
        var k :| k in todo;
        if nodes[k].role == Replica {
          replicas := replicas + [nodes[k]];
        }
        todo := todo - {k};
      }
    }

    method GetDirectivesForNode(node: string) returns (result: seq<Directive>)
      requires WellKeyed(View())
      ensures ListsDirectives(result, PendingFor(View(), node))
    {
      result := [];
      var todo := directives.Keys;
      while todo != {}
        invariant todo <= directives.Keys
        invariant forall i :: 0 <= i < |result| ==>
                    result[i].id in directives && result[i].id !in todo && directives[result[i].id] == result[i]
                    && result[i].target == node && result[i].status == Pending
        invariant forall i, j :: 0 <= i < j < |result| ==> result[i].id != result[j].id
        invariant forall id | id in PendingFor(View(), node) && id !in todo :: directives[id] in result
        decreases |todo|
      {
        var id :| id in todo;
        if directives[id].target == node && directives[id].status == Pending {
          result := result + [directives[id]];
        }
        todo := todo - {id};
      }
    }

    /** What GetStaleDirectiveIDs reports is exactly what a cleanup with the same cutoff would remove. */
    method GetStaleDirectiveIDs(maxAge: Time, now: Time) returns (stale: set<string>)
      ensures stale == directives.Keys - Fresh(directives, now - maxAge).Keys
    {
      stale := {};
      var todo := directives.Keys;
      while todo != {}
        invariant todo <= directives.Keys
        invariant stale == set id | id in directives.Keys - todo && Stale(directives[id], now - maxAge)
        decreases |todo|
      {
        var id :| id in todo;
        if Stale(directives[id], now - maxAge) {
          stale := stale + {id};
        }
        todo := todo - {id};
      }
    }
  }
}
