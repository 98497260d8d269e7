/** What a log makes of each part of the replicated state, entry by entry: independent of how Apply computes it. */
module LogLaws {
  import opened Base
  import opened Fsm
  import opened ReplicatedLog

  // ---------------------------------------------------------------- PostgreSQL parameters

  /** The entry decides parameter k: a SET decides all of them, a PATCH those it names. */
  predicate Decides(c: Command, k: string) {
    match c
    case SetPostgreSQLConfig(_) => true
    case PatchPostgreSQLConfig(patch, _) => k in patch
    case _ => false
  }

  /** The entry gives parameter k the value v; an empty value in a PATCH deletes it. */
  predicate Gives(c: Command, k: string, v: string) {
    match c
    case SetPostgreSQLConfig(cfg) => k in cfg.parameters && cfg.parameters[k] == v
    case PatchPostgreSQLConfig(patch, _) => k in patch && patch[k] == v && v != ""
    case _ => false
  }

  predicate GivenAt(log: seq<Command>, i: nat, k: string, v: string)
    requires i < |log|
  {
    Gives(log[i], k, v) && forall j :: i < j < |log| ==> !Decides(log[j], k)
  }

  predicate HasParameter(s: State, k: string, v: string) {
    k in s.pg.parameters && s.pg.parameters[k] == v
  }

  lemma ParameterStep(s: State, c: Command, now: Time, k: string, v: string)
    ensures HasParameter(Apply(s, c, now), k, v) <==> Gives(c, k, v) || (HasParameter(s, k, v) && !Decides(c, k))
  {
  }

  lemma {:induction false} CoreParameter(log: seq<Command>, k: string, v: string)
    ensures HasParameter(Core(log), k, v) <==> exists i: nat :: i < |log| && GivenAt(log, i, k, v)
  {
    if log != [] {
      var n := |log| - 1;
      var init, last := log[..n], log[n];
      CoreParameter(init, k, v);
      ParameterStep(Core(init), last, ZERO_TIME, k, v);
      assert forall i: nat :: i < n ==> (GivenAt(log, i, k, v) <==> GivenAt(init, i, k, v) && !Decides(last, k)) by {
        forall i: nat | i < n ensures GivenAt(log, i, k, v) <==> GivenAt(init, i, k, v) && !Decides(last, k) {
          assert log[n] == last;
        }
      }
      assert GivenAt(log, n, k, v) <==> Gives(last, k, v);
    }
  }

  /** A parameter has a value if and only if the last entry that decides it gives it that value. */
  lemma ParameterByLog(s: State, log: seq<Command>, k: string, v: string)
    requires Conforms(s, log)
    ensures HasParameter(s, k, v) <==> exists i: nat :: i < |log| && GivenAt(log, i, k, v)
  {
    CoreParameter(log, k, v);
    SamePg(s, log);
  }

  lemma SamePg(s: State, log: seq<Command>)
    requires Clockless(s) == Core(log)
    ensures s.pg.(updatedAt := ZERO_TIME) == Core(log).pg
  {
  }

  /** The PATCH entries from i on. */
  function Patches(log: seq<Command>, i: nat): nat
    requires i <= |log|
  {
    if i == |log| then 0
    else Patches(log[..|log| - 1], i) + if log[|log| - 1].PatchPostgreSQLConfig? then 1 else 0
  }

  predicate LastSet(log: seq<Command>, i: nat)
    requires i < |log|
  {
    log[i].SetPostgreSQLConfig? && forall j :: i < j < |log| ==> !log[j].SetPostgreSQLConfig?
  }

  lemma {:induction false} VersionSinceSet(log: seq<Command>, i: nat)
    requires i < |log| && LastSet(log, i)
    ensures Core(log).pg.version == log[i].cfg.version + Patches(log, i + 1)
  {
    var n := |log| - 1;
    if i < n {
      assert !log[n].SetPostgreSQLConfig?;
      assert forall j :: 0 <= j < n ==> log[..n][j] == log[j];
      VersionSinceSet(log[..n], i);
    }
  }

  lemma {:induction false} VersionFromStart(log: seq<Command>)
    requires forall i :: 0 <= i < |log| ==> !log[i].SetPostgreSQLConfig?
    ensures Core(log).pg.version == Patches(log, 0)
  {
    if log != [] {
      var n := |log| - 1;
      assert !log[n].SetPostgreSQLConfig?;
      VersionFromStart(log[..n]);
    }
  }

  /** The version is that of the last SET, or zero, plus the number of PATCHes since. */
  lemma VersionByLog(s: State, log: seq<Command>)
    requires Conforms(s, log)
    ensures forall i: nat :: i < |log| && LastSet(log, i) ==> s.pg.version == log[i].cfg.version + Patches(log, i + 1)
    ensures (forall i :: 0 <= i < |log| ==> !log[i].SetPostgreSQLConfig?) ==> s.pg.version == Patches(log, 0)
  {
    SamePg(s, log);
    forall i: nat | i < |log| && LastSet(log, i)
      ensures Core(log).pg.version == log[i].cfg.version + Patches(log, i + 1)
    {
      VersionSinceSet(log, i);
    }
    if forall i :: 0 <= i < |log| ==> !log[i].SetPostgreSQLConfig? {
      VersionFromStart(log);
    }
  }

  /** The author is that of the last SET or PATCH. */
  lemma {:induction false} AuthorByLog(log: seq<Command>, i: nat)
    requires i < |log| && (log[i].SetPostgreSQLConfig? || log[i].PatchPostgreSQLConfig?)
    requires forall j :: i < j < |log| ==> !log[j].SetPostgreSQLConfig? && !log[j].PatchPostgreSQLConfig?
    ensures Core(log).pg.updatedBy == if log[i].SetPostgreSQLConfig? then log[i].cfg.updatedBy else log[i].updatedBy
  {
    var n := |log| - 1;
    if i < n {
      AuthorByLog(log[..n], i);
      assert log[n] == log[|log| - 1];
    }
  }

  // ---------------------------------------------------------------- nodes

  /** The record an entry puts down for a node. */
  function Registration(c: Command): Option<NodeInfo> {
    match c
    case SetPrimary(node) => Some(node.(role := Primary))
    case SetReplica(node) => Some(node.(role := Replica))
    case AddNode(node) => Some(node)
    case _ => None
  }

  predicate Registers(c: Command, k: string) {
    Registration(c).Some? && Registration(c).value.name == k
  }

  predicate Removes(c: Command, k: string) {
    c.RemoveNode? && c.name == k
  }

  /** Entry i puts the node on record, and no later entry does so again or removes it. */
  predicate RegisteredAt(log: seq<Command>, i: nat, k: string)
    requires i < |log|
  {
    Registers(log[i], k) && forall j :: i < j < |log| ==> !Registers(log[j], k) && !Removes(log[j], k)
  }

  /** Entry j reports on the node, and no later entry concerns it. */
  predicate ReportedAt(log: seq<Command>, j: nat, k: string)
    requires j < |log|
  {
    && log[j].UpdateNodeHealth? && log[j].node.name == k
    && forall l :: j < l < |log| ==> !Registers(log[l], k) && !Removes(log[l], k)
                                     && !(log[l].UpdateNodeHealth? && log[l].node.name == k)
  }

  /** What a node is: where it runs, its role and timeline. Health reports do not change it. */
  predicate SameIdentity(a: NodeInfo, b: NodeInfo) {
    a.name == b.name && a.host == b.host && a.port == b.port && a.role == b.role && a.timeline == b.timeline
  }

  predicate SameHealth(a: NodeInfo, b: NodeInfo) {
    a.state == b.state && a.lag == b.lag && a.lastSeen == b.lastSeen
  }

  lemma NodeStep(s: State, c: Command, now: Time, k: string)
    ensures var t := Apply(s, c, now);
            && (k in t.nodes <==> Registers(c, k) || (k in s.nodes && !Removes(c, k)))
            && (Registers(c, k) ==> t.nodes[k] == Registration(c).value)
            && (k in t.nodes && !Registers(c, k) ==> SameIdentity(t.nodes[k], s.nodes[k]))
            && (k in t.nodes && !Registers(c, k) ==>
                  if c.UpdateNodeHealth? && c.node.name == k then SameHealth(t.nodes[k], c.node)
                  else t.nodes[k] == s.nodes[k])
  {
  }

  lemma RegisteredStep(log: seq<Command>, k: string)
    requires log != []
    ensures var n := |log| - 1;
            var init, last := log[..n], log[n];
            && (RegisteredAt(log, n, k) <==> Registers(last, k))
            && forall i: nat :: i < n ==>
                 (RegisteredAt(log, i, k) <==> RegisteredAt(init, i, k) && !Registers(last, k) && !Removes(last, k))
  {
    var n := |log| - 1;
    forall i: nat | i < n
      ensures RegisteredAt(log, i, k) <==>
                RegisteredAt(log[..n], i, k) && !Registers(log[n], k) && !Removes(log[n], k)
    {
      assert forall j :: i < j < n ==> log[..n][j] == log[j];
    }
  }

  lemma {:induction false} CoreNode(log: seq<Command>, k: string)
    ensures k in Core(log).nodes <==> exists i: nat :: i < |log| && RegisteredAt(log, i, k)
    ensures forall i: nat :: i < |log| && RegisteredAt(log, i, k) ==>
              k in Core(log).nodes && SameIdentity(Core(log).nodes[k], Registration(log[i]).value)
  {
    if log != [] {
      var n := |log| - 1;
      CoreNode(log[..n], k);
      NodeStep(Core(log[..n]), log[n], ZERO_TIME, k);
      RegisteredStep(log, k);
    }
  }

  lemma {:induction false} CoreHealth(log: seq<Command>, k: string)
    ensures forall j: nat :: j < |log| && k in Core(log).nodes && ReportedAt(log, j, k) ==>
              SameHealth(Core(log).nodes[k], log[j].node)
    ensures forall i: nat :: i < |log| && Registers(log[i], k) && Untold(log, i, k) ==>
              k in Core(log).nodes && Core(log).nodes[k] == Registration(log[i]).value
  {
    if log != [] {
      var n := |log| - 1;
      CoreHealth(log[..n], k);
      NodeStep(Core(log[..n]), log[n], ZERO_TIME, k);
      forall j: nat | j < n && ReportedAt(log, j, k) ensures ReportedAt(log[..n], j, k) && !Registers(log[n], k) {
      }
      forall i: nat | i < n && Untold(log, i, k) ensures Untold(log[..n], i, k) && !Tells(log[n], k) {
      }
    }
  }

  /** The entry concerns the node. */
  predicate Tells(c: Command, k: string) {
    Registers(c, k) || Removes(c, k) || (c.UpdateNodeHealth? && c.node.name == k)
  }

  predicate Untold(log: seq<Command>, i: nat, k: string) {
    forall l :: i < l < |log| ==> !Tells(log[l], k)
  }

  /**
   * A node is on record if and only if some entry registered it and none removed it since; its identity is that of the
   * last registration, and its state, lag and time of report are those of the last entry that concerns it.
   */
  lemma NodeByLog(s: State, log: seq<Command>, k: string)
    requires Conforms(s, log)
    ensures k in s.nodes <==> exists i: nat :: i < |log| && RegisteredAt(log, i, k)
    ensures forall i: nat :: i < |log| && RegisteredAt(log, i, k) ==>
              SameIdentity(s.nodes[k], Registration(log[i]).value)
    ensures forall j: nat :: j < |log| && k in s.nodes && ReportedAt(log, j, k) ==> SameHealth(s.nodes[k], log[j].node)
    ensures forall i: nat :: i < |log| && Registers(log[i], k) && Untold(log, i, k) ==>
              k in s.nodes && SameHealth(s.nodes[k], Registration(log[i]).value)
  {
    CoreNode(log, k);
    CoreHealth(log, k);
    SameNodesAs(s, log);
  }

  lemma SameNodesAs(s: State, log: seq<Command>)
    requires Clockless(s) == Core(log)
    ensures s.nodes == Core(log).nodes && s.primaryName == Core(log).primaryName && s.splitBrain == Core(log).splitBrain
  {
  }

  /** The replicas are the nodes whose last registration said so. */
  lemma ReplicaByLog(s: State, log: seq<Command>, k: string)
    requires Conforms(s, log)
    ensures k in Replicas(s) <==>
              exists i: nat :: i < |log| && RegisteredAt(log, i, k)
                               && (log[i].SetReplica? || (log[i].AddNode? && log[i].node.role == Replica))
  {
    NodeByLog(s, log, k);
  }

  // ---------------------------------------------------------------- primary and cluster configuration

  /** Entry i makes p the primary; no later entry makes another one so, or removes p. */
  predicate PrimaryAt(log: seq<Command>, i: nat, p: string)
    requires i < |log|
  {
    && log[i].SetPrimary? && log[i].node.name == p
    && forall j :: i < j < |log| ==> !log[j].SetPrimary? && !Removes(log[j], p)
  }

  lemma {:induction false} CorePrimary(log: seq<Command>, p: string)
    requires p != ""
    ensures Core(log).primaryName == p <==> exists i: nat :: i < |log| && PrimaryAt(log, i, p)
  {
    if log != [] {
      var n := |log| - 1;
      var init, last := log[..n], log[n];
      CorePrimary(init, p);
      forall i: nat | i < n
        ensures PrimaryAt(log, i, p) <==> PrimaryAt(init, i, p) && !last.SetPrimary? && !Removes(last, p)
      {
        assert forall j :: i < j < n ==> init[j] == log[j];
      }
      assert PrimaryAt(log, n, p) <==> last.SetPrimary? && last.node.name == p;
      assert Core(log).primaryName == p <==>
        || (last.SetPrimary? && last.node.name == p)
        || (Core(init).primaryName == p && !last.SetPrimary? && !Removes(last, p));
    }
  }

  /** The primary is the node of the last SET_PRIMARY, unless that node was removed since. */
  lemma PrimaryByLog(s: State, log: seq<Command>, p: string)
    requires Conforms(s, log) && p != ""
    ensures s.primaryName == p <==> exists i: nat :: i < |log| && PrimaryAt(log, i, p)
    ensures s.primaryName == p && p in s.nodes <==> GetPrimary(s).Some? && GetPrimary(s).value.name == p
  {
    CorePrimary(log, p);
    SameNodesAs(s, log);
  }

  predicate FlagAt(log: seq<Command>, i: nat)
    requires i < |log|
  {
    log[i] == SetClusterConfig(true) && forall j :: i < j < |log| ==> !log[j].SetClusterConfig?
  }

  lemma {:induction false} CoreFlag(log: seq<Command>)
    ensures Core(log).splitBrain <==> exists i: nat :: i < |log| && FlagAt(log, i)
  {
    if log != [] {
      var n := |log| - 1;
      CoreFlag(log[..n]);
      forall i: nat | i < n ensures FlagAt(log, i) <==> FlagAt(log[..n], i) && !log[n].SetClusterConfig? {
        assert forall j :: i < j < n ==> log[..n][j] == log[j];
      }
      assert FlagAt(log, n) <==> log[n] == SetClusterConfig(true);
    }
  }

  /** The split-brain flag is that of the last SET_CLUSTER_CONFIG. */
  lemma FlagByLog(s: State, log: seq<Command>)
    requires Conforms(s, log)
    ensures s.splitBrain <==> exists i: nat :: i < |log| && FlagAt(log, i)
  {
    CoreFlag(log);
    SameNodesAs(s, log);
  }

  // ---------------------------------------------------------------- directives

  predicate PublishedAt(log: seq<Command>, i: nat, id: string)
    requires i < |log|
  {
    && log[i].PublishDirective? && log[i].d.id == id
    && forall j :: i < j < |log| ==> !(log[j].PublishDirective? && log[j].d.id == id)
  }

  /** Entry j completes the ID, and no later entry touches it. */
  predicate CompletedAt(log: seq<Command>, j: nat, id: string)
    requires j < |log|
  {
    log[j].CompleteDirective? && log[j].id == id && forall l :: j < l < |log| ==> !Touches(log[l], id)
  }

  predicate UntouchedAfter(log: seq<Command>, i: nat, id: string) {
    forall l :: i < l < |log| ==> !Touches(log[l], id)
  }

  predicate SameOrder(a: Directive, b: Directive) {
    a.id == b.id && a.kind == b.kind && a.target == b.target && a.params == b.params && a.createdAt == b.createdAt
  }

  lemma {:induction false} BookOrder(log: seq<Command>, id: string)
    ensures forall i: nat :: i < |log| && PublishedAt(log, i, id) ==>
              id in Book(log) && SameOrder(Book(log)[id].d, log[i].d)
    ensures forall i: nat :: i < |log| && PublishedAt(log, i, id) && UntouchedAfter(log, i, id) ==>
              id in Book(log) && Book(log)[id].d == log[i].d
  {
    if log != [] {
      var n := |log| - 1;
      BookOrder(log[..n], id);
      forall i: nat | i < n && PublishedAt(log, i, id) ensures PublishedAt(log[..n], i, id) {
        assert forall j :: i < j < n ==> log[..n][j] == log[j];
      }
    }
  }

  lemma {:induction false} BookOutcome(log: seq<Command>, id: string)
    ensures forall j: nat :: j < |log| && id in Book(log) && CompletedAt(log, j, id) ==>
              && (log[j].error == "" ==> Book(log)[id].d.status == Completed)
              && (log[j].error != "" ==> Book(log)[id].d.status == Failed && Book(log)[id].d.error == log[j].error)
  {
    if log != [] {
      var n := |log| - 1;
      BookOutcome(log[..n], id);
      forall j: nat | j < n && CompletedAt(log, j, id) ensures CompletedAt(log[..n], j, id) && !Touches(log[n], id) {
        assert forall l :: j < l < n ==> log[..n][l] == log[l];
        assert log[n] == log[|log| - 1];
      }
    }
  }

  /**
   * A directive that a replica still has is the one last published under its ID. Untouched since, it is as published;
   * completed since, it is completed if the last COMPLETE carries no error, and else failed with that error.
   */
  lemma DirectiveByLog(s: State, log: seq<Command>, id: string)
    requires Conforms(s, log) && id in s.directives
    ensures forall i: nat :: i < |log| && PublishedAt(log, i, id) ==> SameOrder(s.directives[id], log[i].d)
    ensures forall i: nat :: i < |log| && PublishedAt(log, i, id) && UntouchedAfter(log, i, id) ==>
              s.directives[id].status == log[i].d.status && s.directives[id].error == log[i].d.error
    ensures forall j: nat :: j < |log| && CompletedAt(log, j, id) ==>
              && (log[j].error == "" ==> s.directives[id].status == Completed)
              && (log[j].error != "" ==> s.directives[id].status == Failed && s.directives[id].error == log[j].error)
  {
    BookOrder(log, id);
    BookOutcome(log, id);
    LikeBook(s, log, id);
  }

  lemma LikeBook(s: State, log: seq<Command>, id: string)
    requires Matches(s.directives, Book(log)) && id in s.directives
    ensures id in Book(log) && SameButTime(s.directives[id], Book(log)[id].d)
  {
  }

  // ---------------------------------------------------------------- cleanup

  /** A cleanup at this clock reading is more than its age, by default a day, past the given time. */
  predicate Outlives(e: Entry, t: Time) {
    e.cmd.CleanupDirectives? && t < e.now - (if e.cmd.maxAge == 0 then 24 * 3600 * SECOND else e.cmd.maxAge)
  }

  /**
   * A finished directive is kept by a replica until the first cleanup that comes more than its age after the
   * completion, by the replica's own clock; younger ones, pending ones and ones without a completion time are spared.
   */
  lemma {:induction false} ForgottenIff(s: State, entries: seq<Entry>, id: string)
    requires id in s.directives && forall i :: 0 <= i < |entries| ==> !Touches(entries[i].cmd, id)
    ensures var d := s.directives[id];
            var t := Run(s, entries);
            && (id !in t.directives <==>
                  d.status != Pending && d.completedAt != ZERO_TIME
                  && exists i :: 0 <= i < |entries| && Outlives(entries[i], d.completedAt))
            && (id in t.directives ==> t.directives[id] == d)
  {
    if entries != [] {
      var init, last := entries[..|entries| - 1], entries[|entries| - 1];
      ForgottenIff(s, init, id);
      assert forall i :: 0 <= i < |init| ==> init[i] == entries[i];
      assert last == entries[|entries| - 1];
    }
  }

  /** Completions and patches are stamped with the replica's clock. */
  lemma StampedByClock(s: State, id: string, error: string, patch: map<string, string>, author: string, now: Time)
    ensures id in s.directives ==> Apply(s, CompleteDirective(id, error), now).directives[id].completedAt == now
    ensures Apply(s, PatchPostgreSQLConfig(patch, author), now).pg.updatedAt == now
  {
  }
}
