/** What one agent does to its durable record and to its kernel, move by move. The reconciler is
    proved to make no other moves; fleets and exchanges are built from them. */
module AgentMoves {
  import opened Spec

  /** A published generation; `content` stands for what the checksum covers. */
  datatype Snapshot = Snapshot(generation: nat, content: NodeState)

  /** Generation 0 is nothing at all. */
  function Nothing(): Snapshot {
    Snapshot(0, EmptyState())
  }

  /** The durable record, and what the kernel runs. */
  datatype Agent = Agent(applied: Snapshot, pending: Option<Snapshot>, running: Snapshot)

  function Blank(): Agent {
    Agent(Nothing(), None, Nothing())
  }

  /** A snapshot is written ahead; the kernel switches to it, or back; it is committed. A machine
      restart makes the kernel forget. */
  datatype AgentMove = Fetch(snapshot: Snapshot) | Switch | Revert | Commit | Forget

  function Top(a: Agent): Snapshot {
    if a.pending.Some? then a.pending.value else a.applied
  }

  /** Only what is newer than the record, or in it already, is written ahead. */
  predicate Accepts(a: Agent, s: Snapshot) {
    && (a.applied.generation < s.generation || s == a.applied)
    && (a.pending.Some? ==> a.pending.value.generation < s.generation || s == a.pending.value)
  }

  function Moved(a: Agent, m: AgentMove): Agent {
    match m
    case Fetch(s) => if Accepts(a, s) then a.(pending := Some(s)) else a
    case Switch => if a.pending.Some? then a.(running := a.pending.value) else a
    case Revert => a.(running := a.applied)
    case Commit => if a.pending == Some(a.running) then Agent(a.running, None, a.running) else a
    case Forget => a.(running := Nothing())
  }

  function Played(a: Agent, moves: seq<AgentMove>): Agent
    decreases |moves|
  {
    if moves == [] then a else Played(Moved(a, moves[0]), moves[1..])
  }

  lemma {:induction false} PlayedMore(a: Agent, s: seq<AgentMove>, t: seq<AgentMove>)
    ensures Played(a, s + t) == Played(Played(a, s), t)
    decreases |s|
  {
    hide Moved;
    if s == [] {
      assert s + t == t;
    } else {
      assert (s + t)[1..] == s[1..] + t;
      PlayedMore(Moved(a, s[0]), s[1..], t);
    }
  }

  lemma {:induction false} PlayedOne(a: Agent, s: seq<AgentMove>, m: AgentMove)
    ensures Played(a, s + [m]) == Moved(Played(a, s), m)
  {
    hide Moved;
    PlayedMore(a, s, [m]);
    assert [m][1..] == [];
  }

  /** What one operation of an agent may do: write `s` ahead, switch, revert and commit. */
  predicate Converging(m: AgentMove, s: Snapshot) {
    m.Switch? || m.Revert? || m.Commit? || m == Fetch(s)
  }

  predicate Adds(before: seq<AgentMove>, after: seq<AgentMove>, s: Snapshot) {
    before <= after && forall i :: |before| <= i < |after| ==> Converging(after[i], s)
  }

  lemma AddsMore(a: seq<AgentMove>, b: seq<AgentMove>, c: seq<AgentMove>, s: Snapshot)
    requires Adds(a, b, s) && Adds(b, c, s)
    ensures Adds(a, c, s)
  {
    hide Converging;
    forall i | |a| <= i < |c|
      ensures Converging(c[i], s)
    {
      assert i < |b| ==> c[i] == b[i];
    }
  }
}
