/** Applying the cluster-wide PostgreSQL configuration (internal/cluster/pgconfig.go); detecting changes by version. */
module ConfigApplier {
  import opened Base
  import opened Fsm
  import AlterSystem

  /**
   * What the outside world does to one apply: whether it connects, which statements succeed, what needs a restart, and
   * the order in which the parameter map is iterated.
   */
  datatype Outcome = Outcome(connects: bool, accepted: set<string>, postmaster: set<string>, order: seq<string>)

  /** The applier's fields, and the settings ALTER SYSTEM has written on its server. */
  datatype Applier = Applier(lastAppliedVersion: int, pendingRestart: bool, pendingRestartParams: seq<string>,
                             settings: map<string, string>)

  const NEW_APPLIER := Applier(0, false, [], map[])

  function Applied(cfg: PgConfig, o: Outcome): set<string> {
    set name | name in cfg.parameters && AlterSystem.ValidName(name) && name in o.accepted
  }

  function Overwrite(settings: map<string, string>, cfg: PgConfig, names: set<string>): map<string, string>
    requires names <= cfg.parameters.Keys
  {
    settings + map name | name in names :: cfg.parameters[name]
  }

  /** Those of a list that are in a set, in the order of the list. */
  function Picked(order: seq<string>, names: set<string>): seq<string> {
    if order == [] then []
    else
      var init, last := Picked(order[..|order| - 1], names), order[|order| - 1];
      if last in names then init + [last] else init
  }

  /** The order visits every parameter exactly once. */
  predicate Visits(order: seq<string>, cfg: PgConfig) {
    Elements(order) == cfg.parameters.Keys && NoRepeats(order)
  }

  /** ApplyConfig with the configuration it read; the second result is false for an error return. */
  function Step(a: Applier, cfg: PgConfig, o: Outcome): (Applier, bool) {
    if cfg.version <= a.lastAppliedVersion then (a, true)
    else if cfg.parameters == map[] then (a.(lastAppliedVersion := cfg.version), true)
    else if !o.connects then (a, false)
    else
      var names := Applied(cfg, o);
      var restart := Picked(o.order, names * o.postmaster);
      (Applier(cfg.version, a.pendingRestart || restart != [],
               if restart != [] then restart else a.pendingRestartParams,
               Overwrite(a.settings, cfg, names)), true)
  }

  function Elements(s: seq<string>): set<string> {
    set x | x in s
  }

  predicate NoRepeats(s: seq<string>) {
    forall i, j :: 0 <= i < j < |s| ==> s[i] != s[j]
  }

  class ConfigApplier {
    var lastAppliedVersion: int
    var pendingRestart: bool
    /** In the order in which the parameters were visited. */
    var pendingRestartParams: seq<string>
    var settings: map<string, string>

    function View(): Applier
      reads this
    {
      Applier(lastAppliedVersion, pendingRestart, pendingRestartParams, settings)
    }

    constructor ()
      ensures View() == NEW_APPLIER
    {
      lastAppliedVersion, pendingRestart, pendingRestartParams, settings := 0, false, [], map[];
    }

    method ApplyConfig(cfg: PgConfig, o: Outcome) returns (ok: bool)
      requires Visits(o.order, cfg)
      modifies this
      ensures View() == Step(old(View()), cfg, o).0 && ok == Step(old(View()), cfg, o).1
    {
      if cfg.version <= lastAppliedVersion {
        return true;
      }
      if cfg.parameters == map[] {
        lastAppliedVersion := cfg.version;
        return true;
      }
      if !o.connects {
        return false;
      }
      var restartRequired := ApplyParameters(cfg, o);
      lastAppliedVersion := cfg.version;
      if restartRequired != [] {
        pendingRestart := true;
        pendingRestartParams := restartRequired;
      }
      return true;
    }

    /** Visits the parameters in the order the map yields them; a refused one is logged and skipped. */
    method ApplyParameters(cfg: PgConfig, o: Outcome) returns (restartRequired: seq<string>)
      requires Visits(o.order, cfg)
      modifies this`settings
      ensures settings == Overwrite(old(settings), cfg, Applied(cfg, o))
      ensures restartRequired == Picked(o.order, Applied(cfg, o) * o.postmaster)
    {
      restartRequired := [];
      for i := 0 to |o.order|
        invariant settings == Overwrite(old(settings), cfg, Visited(cfg, o, i))
        invariant restartRequired == Picked(o.order[..i], Applied(cfg, o) * o.postmaster)
      {
        var name := o.order[i];
        assert name in Elements(o.order);
        var ok := Accepts(cfg, o, name);
        ApplyOne(old(settings), cfg, o, i);
        if ok {
          settings := settings[name := cfg.parameters[name]];
          if name in o.postmaster {
            restartRequired := restartRequired + [name];
          }
        }
      }
      assert o.order[..|o.order|] == o.order;
      assert Visited(cfg, o, |o.order|) == Applied(cfg, o);
    }

    /** applyParameter: checks the name, then sends the statement. */
    method Accepts(cfg: PgConfig, o: Outcome, name: string) returns (ok: bool)
      requires name in cfg.parameters
      ensures ok <==> name in Applied(cfg, o)
    {
      ok := AlterSystem.IsValidParameterName(name);
      ok := ok && name in o.accepted;
    }
  }

  /** The parameters applied after i of them were visited. */
  function Visited(cfg: PgConfig, o: Outcome, i: nat): (r: set<string>)
    requires i <= |o.order|
    ensures r <= cfg.parameters.Keys
  {
    Applied(cfg, o) * Elements(o.order[..i])
  }

  lemma VisitOne(cfg: PgConfig, o: Outcome, i: nat)
    requires i < |o.order|
    ensures var before, name := Visited(cfg, o, i), o.order[i];
            Visited(cfg, o, i + 1) == if name in Applied(cfg, o) then before + {name} else before
  {
    assert o.order[..i + 1] == o.order[..i] + [o.order[i]];
  }

  /** What visiting one more parameter adds. */
  lemma ApplyOne(was: map<string, string>, cfg: PgConfig, o: Outcome, i: nat)
    requires i < |o.order| && o.order[i] in cfg.parameters
    ensures var name := o.order[i];
            var before := Overwrite(was, cfg, Visited(cfg, o, i));
            Overwrite(was, cfg, Visited(cfg, o, i + 1))
            == if name in Applied(cfg, o) then before[name := cfg.parameters[name]] else before
    ensures var name, names := o.order[i], Applied(cfg, o) * o.postmaster;
            Picked(o.order[..i + 1], names) == Picked(o.order[..i], names) + if name in names then [name] else []
  {
    VisitOne(cfg, o, i);
    OverwriteOne(was, cfg, Visited(cfg, o, i), o.order[i]);
    assert o.order[..i + 1][..i] == o.order[..i];
  }

  lemma OverwriteOne(settings: map<string, string>, cfg: PgConfig, names: set<string>, name: string)
    requires names <= cfg.parameters.Keys && name in cfg.parameters
    ensures Overwrite(settings, cfg, names + {name}) == Overwrite(settings, cfg, names)[name := cfg.parameters[name]]
  {
  }

  // ---------------------------------------------------------------- runs

  /**
   * The replicated configuration, the applier, the copy an apply in progress has read, and the parameter map that the
   * last effective apply saw. Commands may land between the read and the end of an apply.
   */
  datatype Sys = Sys(state: State, applier: Applier, reading: Option<PgConfig>, seen: map<string, string>)

  const START := Sys(INITIAL, NEW_APPLIER, None, map[])

  datatype Action = Command(cmd: Fsm.Command, now: Time) | Read | Finish(o: Outcome)

  /** What a caller of SET must observe of the current configuration: raise the version, or repeat version and map. */
  predicate Noticeable(pg: PgConfig, cfg: PgConfig) {
    cfg.version > pg.version || (cfg.version == pg.version && cfg.parameters == pg.parameters)
  }

  predicate Observes(s: State, c: Fsm.Command) {
    c.SetPostgreSQLConfig? ==> Noticeable(s.pg, c.cfg)
  }

  predicate Enabled(s: Sys, a: Action) {
    match a
    case Command(c, _) => true
    case Read => s.reading.None?
    case Finish(_) => s.reading.Some?
  }

  function Next(s: Sys, a: Action): Sys
    requires Enabled(s, a)
  {
    match a
    case Command(c, now) => s.(state := Apply(s.state, c, now))
    case Read => s.(reading := Some(s.state.pg))
    case Finish(o) =>
      var cfg := s.reading.value;
      var (applier, _) := Step(s.applier, cfg, o);
      s.(applier := applier, reading := None,
         seen := if applier.lastAppliedVersion != s.applier.lastAppliedVersion then cfg.parameters else s.seen)
  }

  /** Equal versions mean the last effective apply saw the current parameters. */
  predicate Detects(s: Sys) {
    && s.applier.lastAppliedVersion <= s.state.pg.version
    && (s.applier.lastAppliedVersion == s.state.pg.version ==> s.seen == s.state.pg.parameters)
  }

  ghost predicate Inv(s: Sys) {
    && Detects(s)
    && (s.reading.Some? ==>
          && s.reading.value.version <= s.state.pg.version
          && (s.reading.value.version == s.state.pg.version ==> s.reading.value.parameters == s.state.pg.parameters))
  }

  function After(s: Sys, actions: seq<Action>): Option<Sys> {
    if actions == [] then Some(s)
    else
      match After(s, actions[..|actions| - 1])
      case None => None
      case Some(t) =>
        var a := actions[|actions| - 1];
        if Enabled(t, a) && (a.Command? ==> Observes(t.state, a.cmd)) then Some(Next(t, a)) else None
  }

  lemma StepKeepsInv(s: Sys, a: Action)
    requires Inv(s) && Enabled(s, a) && (a.Command? ==> Observes(s.state, a.cmd))
    ensures Inv(Next(s, a))
  {
  }

  /** In every run of PATCHes and noticeable SETs, comparing versions detects every change. */
  lemma {:induction false} VersionsDetectChanges(actions: seq<Action>)
    requires After(START, actions).Some?
    ensures Inv(After(START, actions).value)
  {
    if actions != [] {
      var init := actions[..|actions| - 1];
      VersionsDetectChanges(init);
      StepKeepsInv(After(START, init).value, actions[|actions| - 1]);
    }
  }

  /**
   * What whoever issues a SET must do, not knowing what any applier has done: detection survives the SET for every
   * applier if and only if the SET raises the current version, or repeats it with the same parameters.
   */
  lemma SetKeepsDetectionIff(pg: PgConfig, cfg: PgConfig, now: Time)
    ensures (forall s :: Inv(s) && s.state.pg == pg ==> Detects(Next(s, Command(SetPostgreSQLConfig(cfg), now))))
            <==> Noticeable(pg, cfg)
    ensures Noticeable(pg, cfg) ==>
              forall s :: Inv(s) && s.state.pg == pg ==> Inv(Next(s, Command(SetPostgreSQLConfig(cfg), now)))
  {
    var upToDate := Sys(INITIAL.(pg := pg), NEW_APPLIER.(lastAppliedVersion := pg.version), None, pg.parameters);
    assert Inv(upToDate);
    assert Noticeable(pg, cfg) || !Detects(Next(upToDate, Command(SetPostgreSQLConfig(cfg), now)));
  }

  /** A SET that reuses the version goes unnoticed: the applier is idle although the parameters changed. */
  lemma SetMayGoUnnoticed()
    ensures var s := Next(START, Command(SetPostgreSQLConfig(PgConfig(map["a" := "1"], 0, ZERO_TIME, "")), 1));
            && !Detects(s)
            && forall o :: Step(s.applier, s.state.pg, o) == (s.applier, true)
  {
    assert "a" in map["a" := "1"];
    assert map["a" := "1"] != map[];
  }

  // ---------------------------------------------------------------- the server side

  /** The parameters an apply gets written on the server. */
  function Written(cfg: PgConfig, o: Outcome): set<string> {
    if o.connects then Applied(cfg, o) else {}
  }

  /**
   * After an apply of a new version the server's settings equal the map if and only if no earlier setting was dropped
   * from the map, and every parameter was written now or already had its value.
   */
  lemma ServerMatchesIff(a: Applier, cfg: PgConfig, o: Outcome)
    requires cfg.version > a.lastAppliedVersion
    ensures Step(a, cfg, o).0.settings == cfg.parameters <==>
              && a.settings.Keys <= cfg.parameters.Keys
              && forall name :: name in cfg.parameters && name !in Written(cfg, o) ==>
                   name in a.settings && a.settings[name] == cfg.parameters[name]
  {
    var after := Step(a, cfg, o).0.settings;
    assert Written(cfg, o) <= cfg.parameters.Keys;
    assert after == Overwrite(a.settings, cfg, Written(cfg, o));
    assert after.Keys == a.settings.Keys + Written(cfg, o);
  }

  /**
   * What an apply of a new version writes: exactly the valid names of the map that the server accepts, with their
   * values there. No name that is not a valid one is ever written.
   */
  lemma AppliesExactly(a: Applier, cfg: PgConfig, o: Outcome, name: string)
    requires cfg.version > a.lastAppliedVersion
    ensures var after := Step(a, cfg, o).0.settings;
            if o.connects && name in cfg.parameters && AlterSystem.ValidName(name) && name in o.accepted
            then name in after && after[name] == cfg.parameters[name]
            else (name in after <==> name in a.settings) && (name in after ==> after[name] == a.settings[name])
  {
    var after := Step(a, cfg, o).0.settings;
    assert after == Overwrite(a.settings, cfg, Written(cfg, o));
  }

  /** Only a connection failure is an error, and then nothing changes; otherwise the version counts as applied. */
  lemma AppliedIff(a: Applier, cfg: PgConfig, o: Outcome)
    ensures !Step(a, cfg, o).1 <==> cfg.version > a.lastAppliedVersion && cfg.parameters != map[] && !o.connects
    ensures !Step(a, cfg, o).1 ==> Step(a, cfg, o).0 == a
    ensures Step(a, cfg, o).1 ==>
              Step(a, cfg, o).0.lastAppliedVersion
              == if cfg.version > a.lastAppliedVersion then cfg.version else a.lastAppliedVersion
  {
  }

  // ---------------------------------------------------------------- pending restarts

  lemma {:induction false} PickedAppend(a: seq<string>, b: seq<string>, names: set<string>)
    ensures Picked(a + b, names) == Picked(a, names) + Picked(b, names)
  {
    if b == [] {
      assert a + b == a;
    } else {
      assert (a + b)[..|a + b| - 1] == a + b[..|b| - 1];
      PickedAppend(a, b[..|b| - 1], names);
    }
  }

  lemma {:induction false} PickedHas(order: seq<string>, names: set<string>)
    ensures forall name :: name in Picked(order, names) <==> name in order && name in names
    ensures forall name :: Picked([name], names) == if name in names then [name] else []
  {
    if order != [] {
      PickedHas(order[..|order| - 1], names);
      assert order == order[..|order| - 1] + [order[|order| - 1]];
    }
    forall name ensures Picked([name], names) == if name in names then [name] else [] {
      assert [name][..0] == [] && Picked([], names) == [];
    }
  }

  /** This apply writes the parameter, and the server can use it only after a restart. */
  predicate NeedsRestart(a: Applier, cfg: PgConfig, o: Outcome, name: string) {
    && cfg.version > a.lastAppliedVersion && o.connects && name in cfg.parameters && AlterSystem.ValidName(name)
    && name in o.accepted && name in o.postmaster
  }

  ghost predicate SomeNeedRestart(a: Applier, cfg: PgConfig, o: Outcome) {
    exists name :: NeedsRestart(a, cfg, o, name)
  }

  lemma PickedFrom(order: seq<string>, cfg: PgConfig, names: set<string>)
    requires Visits(order, cfg) && names <= cfg.parameters.Keys
    ensures forall name :: name in Picked(order, names) <==> name in names
    ensures Picked(order, names) == [] <==> names == {}
  {
    PickedHas(order, names);
    assert forall name :: name in cfg.parameters ==> name in Elements(order);
    var picked := Picked(order, names);
    assert picked != [] ==> picked[0] in names;
    assert picked == [] ==> forall name :: name in names ==> name in picked;
  }

  lemma RestartStep(a: Applier, cfg: PgConfig, o: Outcome)
    requires Visits(o.order, cfg)
    ensures var a' := Step(a, cfg, o).0;
            && (a'.pendingRestart <==> a.pendingRestart || SomeNeedRestart(a, cfg, o))
            && (SomeNeedRestart(a, cfg, o) ==>
                  forall name :: name in a'.pendingRestartParams <==> NeedsRestart(a, cfg, o, name))
            && (!SomeNeedRestart(a, cfg, o) ==> a'.pendingRestartParams == a.pendingRestartParams)
  {
    var names := Applied(cfg, o) * o.postmaster;
    PickedFrom(o.order, cfg, names);
    if cfg.version > a.lastAppliedVersion && o.connects {
      assert forall name :: NeedsRestart(a, cfg, o, name) <==> name in names;
      if name :| name in names {
        assert NeedsRestart(a, cfg, o, name);
      }
    }
  }

  /** The i-th apply, after those before it, writes a parameter that needs a restart. */
  ghost predicate NeedsRestartAt(later: seq<(PgConfig, Outcome)>, i: nat) {
    i < |later| && SomeNeedRestart(StepAll(NEW_APPLIER, later[..i]), later[i].0, later[i].1)
  }

  /** A restart is pending if and only if some apply so far wrote a parameter that needs one. */
  lemma {:induction false} RestartPendingIff(later: seq<(PgConfig, Outcome)>)
    requires forall i :: 0 <= i < |later| ==> Visits(later[i].1.order, later[i].0)
    ensures StepAll(NEW_APPLIER, later).pendingRestart <==> exists i: nat :: NeedsRestartAt(later, i)
  {
    if later != [] {
      var n := |later| - 1;
      RestartPendingIff(later[..n]);
      RestartStep(StepAll(NEW_APPLIER, later[..n]), later[n].0, later[n].1);
      forall i: nat | i < n ensures NeedsRestartAt(later[..n], i) <==> NeedsRestartAt(later, i) {
        assert later[..n][..i] == later[..i];
      }
      assert NeedsRestartAt(later, n) <==> SomeNeedRestart(StepAll(NEW_APPLIER, later[..n]), later[n].0, later[n].1);
    }
  }

  // ---------------------------------------------------------------- repeated applies

  function StepAll(a: Applier, later: seq<(PgConfig, Outcome)>): Applier {
    if later == [] then a
    else
      var last := later[|later| - 1];
      Step(StepAll(a, later[..|later| - 1]), last.0, last.1).0
  }

  /** A refused parameter counts as applied: no apply before the next version retries it, or changes anything. */
  lemma {:induction false} RefusedIsNotRetried(a: Applier, cfg: PgConfig, o: Outcome, later: seq<(PgConfig, Outcome)>)
    requires Step(a, cfg, o).1 && forall i :: 0 <= i < |later| ==> later[i].0.version <= cfg.version
    ensures StepAll(Step(a, cfg, o).0, later) == Step(a, cfg, o).0
    ensures cfg.version <= Step(a, cfg, o).0.lastAppliedVersion
    ensures forall name :: name in cfg.parameters && name !in Applied(cfg, o) && name !in a.settings ==>
              name !in StepAll(Step(a, cfg, o).0, later).settings
  {
    if later != [] {
      RefusedIsNotRetried(a, cfg, o, later[..|later| - 1]);
    }
  }

  /** Deleting a parameter advances the version, is "applied", and leaves the old value on the server. */
  lemma DeletedParameterStaysOnServer()
    ensures var done := Finish(Outcome(true, {"a"}, {}, ["a"]));
            var s1 := Next(START, Command(PatchPostgreSQLConfig(map["a" := "1"], ""), 1));
            var s2 := Next(Next(s1, Read), done);
            var s3 := Next(s2, Command(PatchPostgreSQLConfig(map["a" := ""], ""), 2));
            var s4 := Next(Next(s3, Read), done);
            && s4.applier.lastAppliedVersion == s4.state.pg.version == 2
            && s4.state.pg.parameters == map[]
            && s4.applier.settings == map["a" := "1"]
  {
  }
}
