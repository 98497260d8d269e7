/**
 * The consensus store as one node sees it (internal/consensus/store.go): the committed log it has applied and its own
 * FSM. Raft is an ordered log; a write commits or fails, and commands of other nodes may land in between.
 */
module Store {
  import opened Base
  import opened Fsm
  import opened ReplicatedLog

  /** A committed command; own marks the ones this node proposed. */
  datatype Logged = Logged(cmd: Command, own: bool)

  datatype Store = Store(log: seq<Logged>, fsm: State)

  /**
   * What happens around one write: others' commands applied before it, whether this node then leads Raft, whether Raft
   * accepts the command, and the local clock. A node that does not lead is refused at once.
   */
  datatype Turn = Turn(others: seq<Entry>, leads: bool, accepted: bool, at: Time) {
    predicate Commits() {
      leads && accepted
    }
  }

  function Append(st: Store, cmd: Command, own: bool, now: Time): Store {
    Store(st.log + [Logged(cmd, own)], Apply(st.fsm, cmd, now))
  }

  function Hear(st: Store, others: seq<Entry>): Store {
    if others == [] then st
    else
      var last := others[|others| - 1];
      Append(Hear(st, others[..|others| - 1]), last.cmd, false, last.now)
  }

  /** A write through the store. A failed write is not committed. */
  function Propose(st: Store, turn: Turn, cmd: Command): Store {
    var heard := Hear(st, turn.others);
    if turn.Commits() then Append(heard, cmd, true, turn.at) else heard
  }

  function Cmds(log: seq<Logged>): (r: seq<Command>)
    ensures |r| == |log|
    ensures forall i :: 0 <= i < |log| ==> r[i] == log[i].cmd
  {
    if log == [] then [] else Cmds(log[..|log| - 1]) + [log[|log| - 1].cmd]
  }

  lemma CmdsGrow(early: seq<Logged>, late: seq<Logged>)
    requires early <= late
    ensures Cmds(early) <= Cmds(late)
  {
    assert forall i :: 0 <= i < |early| ==> Cmds(early)[i] == Cmds(late)[i];
  }

  /** The FSM is what the log says. */
  ghost predicate Valid(st: Store) {
    Conforms(st.fsm, Cmds(st.log))
  }

  lemma AppendValid(st: Store, cmd: Command, own: bool, now: Time)
    requires Valid(st)
    ensures Valid(Append(st, cmd, own, now))
  {
    ConformsStep(st.fsm, Cmds(st.log), cmd, now);
    assert (st.log + [Logged(cmd, own)])[..|st.log|] == st.log;
  }

  lemma {:induction false} HearValid(st: Store, others: seq<Entry>)
    requires Valid(st)
    ensures Valid(Hear(st, others))
  {
    if others != [] {
      var last := others[|others| - 1];
      HearValid(st, others[..|others| - 1]);
      AppendValid(Hear(st, others[..|others| - 1]), last.cmd, false, last.now);
    }
  }

  lemma ProposeValid(st: Store, turn: Turn, cmd: Command)
    requires Valid(st)
    ensures Valid(Propose(st, turn, cmd))
  {
    HearValid(st, turn.others);
    AppendValid(Hear(st, turn.others), cmd, true, turn.at);
  }

  // ---------------------------------------------------------------- what this node committed

  /** The node's own commands, in log order. */
  function Own(log: seq<Logged>): seq<Command> {
    if log == [] then []
    else
      var init, last := log[..|log| - 1], log[|log| - 1];
      if last.own then Own(init) + [last.cmd] else Own(init)
  }

  predicate Extends(s: Store, t: Store) {
    s.log <= t.log
  }

  lemma {:induction false} HearOwn(st: Store, others: seq<Entry>)
    ensures Own(Hear(st, others).log) == Own(st.log) && Extends(st, Hear(st, others))
  {
    if others != [] {
      HearOwn(st, others[..|others| - 1]);
    }
  }

  lemma ProposeOwn(st: Store, turn: Turn, cmd: Command)
    ensures Own(Propose(st, turn, cmd).log) == Own(st.log) + if turn.Commits() then [cmd] else []
    ensures Extends(st, Propose(st, turn, cmd))
  {
    HearOwn(st, turn.others);
  }

  // ---------------------------------------------------------------- directives nobody else republishes

  predicate Republishes(c: Command, id: string) {
    c.PublishDirective? && c.d.id == id
  }

  /** Commands of other nodes that leave the publication of these IDs alone. */
  predicate Spares(others: seq<Entry>, ids: seq<string>) {
    forall i, j :: 0 <= i < |others| && 0 <= j < |ids| ==> !Republishes(others[i].cmd, ids[j])
  }

  lemma {:induction false} HearKeepsFinished(st: Store, others: seq<Entry>, id: string)
    requires !IsPending(st.fsm, id) && forall i :: 0 <= i < |others| ==> !Republishes(others[i].cmd, id)
    ensures !IsPending(Hear(st, others).fsm, id)
  {
    if others != [] {
      var init, last := others[..|others| - 1], others[|others| - 1];
      HearKeepsFinished(st, init, id);
      PendingOnlyByPublish(Hear(st, init).fsm, last.cmd, last.now, id);
    }
  }
}
