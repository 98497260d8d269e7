/** The replicated cluster state and its commands (internal/consensus/fsm.go), as values. */
module Fsm {
  import opened Base

  datatype Role = Primary | Replica | OtherRole(name: string)

  datatype NodeInfo = NodeInfo(name: string, host: string, port: int, role: Role, state: string,
                               lag: int, timeline: int, lastSeen: Time)

  datatype Kind = Fence | Promote | Demote | Checkpoint | Rewind | Basebackup | OtherKind(name: string)

  datatype Status = Pending | Completed | Failed | OtherStatus(name: string)

  datatype Directive = Directive(id: string, kind: Kind, target: string, params: map<string, string>,
                                 status: Status, createdAt: Time, completedAt: Time, error: string)

  /** A nil parameter map reads like an empty one and PATCH replaces it before writing, so both are the empty map. */
  datatype PgConfig = PgConfig(parameters: map<string, string>, version: int, updatedAt: Time, updatedBy: string)

  datatype State = State(nodes: map<string, NodeInfo>, primaryName: string, splitBrain: bool,
                         pg: PgConfig, directives: map<string, Directive>)

  /** A decoded log entry; Undecodable is malformed data or an unknown type, which Apply rejects. */
  datatype Command =
    | SetPrimary(node: NodeInfo)
    | SetReplica(node: NodeInfo)
    | AddNode(node: NodeInfo)
    | RemoveNode(name: string)
    | UpdateNodeHealth(node: NodeInfo)
    | SetClusterConfig(splitBrain: bool)
    | PublishDirective(d: Directive)
    | CompleteDirective(id: string, error: string)
    | CleanupDirectives(maxAge: Time)
    | SetPostgreSQLConfig(cfg: PgConfig)
    | PatchPostgreSQLConfig(patch: map<string, string>, updatedBy: string)
    | Undecodable

  datatype Response = Done | Cleaned(count: int) | Rejected

  const DIRECTIVE_MAX_AGE: Time := 24 * 3600 * SECOND

  const INITIAL := State(map[], "", false, PgConfig(map[], 0, ZERO_TIME, ""), map[])

  function UpdateHealth(existing: NodeInfo, report: NodeInfo): NodeInfo {
    existing.(state := report.state, lag := report.lag, lastSeen := report.lastSeen)
  }

  function Finish(d: Directive, error: string, now: Time): Directive {
    if error != "" then d.(completedAt := now, status := Failed, error := error)
    else d.(completedAt := now, status := Completed)
  }

  predicate Stale(d: Directive, cutoff: Time) {
    d.status != Pending && d.completedAt != ZERO_TIME && d.completedAt < cutoff
  }

  function Cutoff(maxAge: Time, now: Time): Time {
    now - (if maxAge == 0 then DIRECTIVE_MAX_AGE else maxAge)
  }

  /** An empty value deletes the parameter. */
  function Patched(params: map<string, string>, patch: map<string, string>): map<string, string> {
    map k | k in params.Keys + patch.Keys && !(k in patch && patch[k] == "")
      :: if k in patch then patch[k] else params[k]
  }

  /** Applies a command on a replica whose clock reads `now`. */
  function Apply(s: State, c: Command, now: Time): State {
    match c
    case SetPrimary(node) => s.(nodes := s.nodes[node.name := node.(role := Primary)], primaryName := node.name)
    case SetReplica(node) => s.(nodes := s.nodes[node.name := node.(role := Replica)])
    case AddNode(node) => s.(nodes := s.nodes[node.name := node])
    case RemoveNode(name) =>
      s.(nodes := s.nodes - {name}, primaryName := if s.primaryName == name then "" else s.primaryName)
    case UpdateNodeHealth(node) =>
      if node.name in s.nodes
      then s.(nodes := s.nodes[node.name := UpdateHealth(s.nodes[node.name], node)])
      else s
    case SetClusterConfig(flag) => s.(splitBrain := flag)
    case PublishDirective(d) => s.(directives := s.directives[d.id := d])
    case CompleteDirective(id, error) =>
      if id in s.directives
      then s.(directives := s.directives[id := Finish(s.directives[id], error, now)])
      else s
    case CleanupDirectives(maxAge) => s.(directives := Fresh(s.directives, Cutoff(maxAge, now)))
    case SetPostgreSQLConfig(cfg) => s.(pg := cfg)
    case PatchPostgreSQLConfig(patch, updatedBy) =>
      s.(pg := PgConfig(Patched(s.pg.parameters, patch), s.pg.version + 1, now, updatedBy))
    case Undecodable => s
  }

  function Fresh(directives: map<string, Directive>, cutoff: Time): map<string, Directive> {
    map id | id in directives && !Stale(directives[id], cutoff) :: directives[id]
  }

  /** A log with one local clock reading per entry. */
  datatype Entry = Entry(cmd: Command, now: Time)

  function Run(s: State, entries: seq<Entry>): State {
    if entries == [] then s
    else
      var last := entries[|entries| - 1];
      Apply(Run(s, entries[..|entries| - 1]), last.cmd, last.now)
  }

  // ---------------------------------------------------------------- reads

  function GetPrimary(s: State): Option<NodeInfo> {
    if s.primaryName != "" && s.primaryName in s.nodes then Some(s.nodes[s.primaryName]) else None
  }

  function Replicas(s: State): map<string, NodeInfo> {
    map k | k in s.nodes && s.nodes[k].role == Replica :: s.nodes[k]
  }

  function PendingFor(s: State, node: string): map<string, Directive> {
    map id | id in s.directives && s.directives[id].target == node && s.directives[id].status == Pending
      :: s.directives[id]
  }

  predicate IsPending(s: State, id: string) {
    id in s.directives && s.directives[id].status == Pending
  }

  /** Nodes and directives are stored under their own names. */
  ghost predicate WellKeyed(s: State) {
    && (forall k :: k in s.nodes ==> s.nodes[k].name == k)
    && (forall id :: id in s.directives ==> s.directives[id].id == id)
  }

  lemma ApplyKeepsKeys(s: State, c: Command, now: Time)
    requires WellKeyed(s)
    ensures WellKeyed(Apply(s, c, now))
  {
  }

  // ---------------------------------------------------------------- snapshots

  /** The encoded state. An empty directive map is omitted, and decodes to nil. */
  datatype Snapshot = Snapshot(nodes: Option<map<string, NodeInfo>>, primaryName: string, splitBrain: bool,
                               pg: PgConfig, directives: Option<map<string, Directive>>)

  function TakeSnapshot(s: State): Snapshot {
    Snapshot(Some(s.nodes), s.primaryName, s.splitBrain, s.pg,
             if s.directives == map[] then None else Some(s.directives))
  }

  /** Restore turns nil maps into empty ones. */
  function Restore(shot: Snapshot): State {
    State(if shot.nodes.None? then map[] else shot.nodes.value, shot.primaryName, shot.splitBrain, shot.pg,
          if shot.directives.None? then map[] else shot.directives.value)
  }

  // ---------------------------------------------------------------- one directive over one command

  /** Only a PUBLISH of the same ID makes a directive pending (again). */
  lemma PendingOnlyByPublish(s: State, c: Command, now: Time, id: string)
    requires !IsPending(s, id) && !(c.PublishDirective? && c.d.id == id)
    ensures !IsPending(Apply(s, c, now), id)
  {
  }
}
