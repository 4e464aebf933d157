/** What the agent keeps on disk, what the kernel holds, and what the two owe each other. */
module AgentModel {
  import opened Spec
  import Meter
  import Moves = AgentMoves

  const MAX_USAGE_OUTBOX: nat := 10000

  /** A desired state as delivered; its checksum stands for all of it. */
  datatype Desired = Desired(node: Id, generation: nat, body: NodeState)

  /** An nft program is determined by the desired state and the lifecycles its clock implies. */
  datatype Program = Program(desired: Desired, fingerprint: string)

  /** Fabric links, routes and rules by their kernel key. */
  type Resources = map<string, string>

  /** `program`, `traffic` and `fabric` are filled in when the snapshot is converged. */
  datatype Snapshot = Snapshot(
    desired: Desired, program: Option<Program>, traffic: Option<string>, fabric: Option<Resources>, cleaned: bool)

  /** `deltas` is keyed by the stable name of a counter: forward, protocol and direction. */
  datatype UsageBatch = UsageBatch(
    node: Id, epoch: Program, sequence: nat, generation: nat, observedAt: int, deltas: map<string, Meter.Delta>)

  datatype Record = Record(
    applied: Option<Snapshot>, pending: Option<Snapshot>, meter: Meter.State<Program>, outbox: seq<UsageBatch>)

  function EmptyRecord(): Record {
    Record(None, None, Meter.Initial(), [])
  }

  /** The three compilers, as functions of the desired state and, for nft, the time. */
  datatype Compiler = Compiler(
    compiles: Desired -> bool,
    fingerprint: (Desired, nat) -> string,
    counters: Desired -> set<string>,
    traffic: Desired -> string,
    resources: Desired -> Resources,
    forced: Desired -> bool)
  {
    function ProgramAt(d: Desired, now: nat): Program {
      Program(d, fingerprint(d, now))
    }
  }

  datatype Table = Absent | Foreign | Managed(program: Program, counters: map<string, Meter.Value>)

  function Top(r: Record): Option<Snapshot> {
    if r.pending.Some? then r.pending else r.applied
  }

  predicate ValidDesired(d: Desired) {
    d.generation > 0 && ValidNode(d.node, d.body)
  }

  predicate Increasing(outbox: seq<UsageBatch>) {
    forall i, j :: 0 <= i < j < |outbox| ==> outbox[i].sequence < outbox[j].sequence
  }

  /** The check a record has to pass before it is written. */
  predicate Storable(r: Record) {
    && (r.applied.Some? ==> ValidDesired(r.applied.value.desired))
    && (r.pending.Some? ==> ValidDesired(r.pending.value.desired))
    && (r.applied.Some? && r.pending.Some? ==>
          var a, p := r.applied.value.desired, r.pending.value.desired;
          && a.generation <= p.generation && a.node == p.node
          && (a.generation == p.generation ==> a == p))
    && |r.outbox| <= MAX_USAGE_OUTBOX
    && Increasing(r.outbox)
  }

  /** What can be stored: valid states of one node, the pending one newer than the applied one or the same, and a
      bounded outbox in sequence. */
  lemma StorableMeans(r: Record)
    requires Storable(r)
    ensures r.applied.Some? ==> var d := r.applied.value.desired; d.generation > 0 && ValidNode(d.node, d.body)
    ensures r.pending.Some? ==> var d := r.pending.value.desired; d.generation > 0 && ValidNode(d.node, d.body)
    ensures r.applied.Some? && r.pending.Some? ==>
      var a, p := r.applied.value.desired, r.pending.value.desired;
      p.node == a.node && (p == a || p.generation > a.generation)
    ensures |r.outbox| <= 10000 && forall i, j :: 0 <= i < j < |r.outbox| ==> r.outbox[i].sequence < r.outbox[j].sequence
  {
  }

  /** Every outbox batch was numbered by the meter. */
  predicate Numbered(r: Record) {
    forall b :: b in r.outbox ==> b.sequence <= r.meter.sequence
  }

  /** The batch an observation makes; sequence 0 if nothing moved. */
  function NewBatch(meter: Meter.State<Program>, d: Desired, epoch: Program, samples: map<string, Meter.Value>, now: int): UsageBatch {
    var b := Meter.BatchOf(meter, epoch, samples);
    UsageBatch(d.node, epoch, b.sequence, d.generation, now, b.deltas)
  }

  /** Meter and outbox after an observation: they change together. */
  function Observed(r: Record, d: Desired, epoch: Program, samples: map<string, Meter.Value>, now: int): Record {
    var b := NewBatch(r.meter, d, epoch, samples, now);
    r.(meter := Meter.After(r.meter, epoch, samples), outbox := if b.sequence != 0 then r.outbox + [b] else r.outbox)
  }

  /** The batch of an observation names the node and generation that were applied, the program that counted,
      and the time, and its number is the next one. */
  lemma BatchSays(r: Record, d: Desired, epoch: Program, samples: map<string, Meter.Value>, now: int)
    ensures var next := Observed(r, d, epoch, samples, now);
            && next.applied == r.applied && next.pending == r.pending
            && (next.outbox == r.outbox ||
                (|next.outbox| == |r.outbox| + 1 && next.outbox[..|r.outbox|] == r.outbox
                 && var b := next.outbox[|r.outbox|];
                    && b.node == d.node && b.generation == d.generation && b.epoch == epoch && b.observedAt == now
                    && b.sequence == r.meter.sequence + 1 == next.meter.sequence
                    && b.deltas.Keys == samples.Keys))
            && (next.outbox == r.outbox <==> forall n :: n in samples ==> Meter.DeltaOf(r.meter, epoch, n, samples[n]).amount == Meter.Zero())
            && next.meter.values == samples && next.meter.epoch == Some(epoch)
  {
    hide Meter.DeltaOf;
    var deltas := Meter.DeltasOf(r.meter, epoch, samples);
    assert forall n :: n in samples ==> deltas[n] == Meter.DeltaOf(r.meter, epoch, n, samples[n]);
  }

  /** What the installed table shows of the counters of the applied program. */
  function SamplesOf(c: Compiler, applied: Desired, table: Table): map<string, Meter.Value> {
    if table.Managed? then map n | n in table.counters && n in c.counters(applied) :: table.counters[n] else map[]
  }

  function EpochOf(c: Compiler, applied: Snapshot, now: nat): Program {
    if applied.program.Some? then applied.program.value else c.ProgramAt(applied.desired, now)
  }

  /** The generations this agent ever wrote ahead, each with the one content it had. */
  type Journal = map<nat, Desired>

  predicate Journaled(r: Record, journal: Journal) {
    && (r.applied.Some? ==> InJournal(r.applied.value.desired, journal))
    && (r.pending.Some? ==> InJournal(r.pending.value.desired, journal))
    && forall g :: g in journal ==> Top(r).Some? && g <= Top(r).value.desired.generation
  }

  predicate InJournal(d: Desired, journal: Journal) {
    d.generation in journal && journal[d.generation] == d
  }

  /** Write-ahead safety: nothing runs in the kernel that the durable record does not know of. */
  predicate WrittenAhead(table: Table, r: Record, journal: Journal) {
    table.Managed? ==> InJournal(table.program.desired, journal)
  }

  function AppliedGeneration(r: Record): nat {
    if r.applied.Some? then r.applied.value.desired.generation else 0
  }

  /** What may be converged next: what was written ahead, else what was applied, or a desired state
      newer than both. */
  predicate Targetable(r: Record, t: Snapshot) {
    && ValidDesired(t.desired)
    && (r.applied.Some? ==> r.applied.value.desired.node == t.desired.node)
    && (Top(r).Some? ==> Top(r).value.desired == t.desired || Top(r).value.desired.generation < t.desired.generation)
  }

  /** Usage can be read before the applied program is replaced. */
  predicate Collectable(c: Compiler, r: Record, table: Table) {
    r.applied.Some? ==>
      && |r.outbox| < MAX_USAGE_OUTBOX
      && (c.counters(r.applied.value.desired) == {} ||
          (table.Managed? && table.counters.Keys * c.counters(r.applied.value.desired) != {}))
  }

  function Prepared(c: Compiler, t: Snapshot, now: nat): Snapshot {
    t.(program := Some(c.ProgramAt(t.desired, now)), traffic := Some(c.traffic(t.desired)),
       fabric := Some(c.resources(t.desired)))
  }

  predicate NftCurrent(c: Compiler, table: Table, t: Snapshot, now: nat) {
    table.Managed? && table.program == c.ProgramAt(t.desired, now)
  }

  predicate TrafficCurrent(c: Compiler, r: Record, traffic: Option<string>, t: Snapshot) {
    && r.applied.Some? && r.applied.value.desired.generation == t.desired.generation
    && r.applied.value.traffic == Some(c.traffic(t.desired)) && traffic == Some(c.traffic(t.desired))
  }

  predicate Present(fabric: Resources, wanted: Resources) {
    forall k :: k in wanted ==> k in fabric && fabric[k] == wanted[k]
  }

  predicate FabricCurrent(c: Compiler, r: Record, fabric: Resources, t: Snapshot) {
    r.applied.Some? && r.applied.value.fabric == Some(c.resources(t.desired)) && Present(fabric, c.resources(t.desired))
  }

  predicate CleanupNeeded(c: Compiler, t: Snapshot) {
    c.forced(t.desired) && !t.cleaned
  }

  predicate AllCurrent(c: Compiler, r: Record, table: Table, traffic: Option<string>, fabric: Resources, t: Snapshot, now: nat) {
    && NftCurrent(c, table, t, now) && TrafficCurrent(c, r, traffic, t) && FabricCurrent(c, r, fabric, t)
    && !CleanupNeeded(c, t)
  }

  predicate Compilable(c: Compiler, r: Record, t: Snapshot) {
    c.compiles(t.desired) && (r.applied.Some? ==> c.compiles(r.applied.value.desired))
  }

  /** Reading usage does not stand in the way. */
  predicate Unblocked(c: Compiler, r: Record, table: Table, t: Snapshot, now: nat) {
    r.applied.Some? && r.applied.value.program != Some(c.ProgramAt(t.desired, now)) ==> Collectable(c, r, table)
  }

  /** Exactly what a fault-free convergence needs. */
  predicate Ready(c: Compiler, hasCleaner: bool, r: Record, table: Table, traffic: Option<string>, fabric: Resources,
                  t: Snapshot, now: nat)
  {
    && Compilable(c, r, t) && table != Foreign
    && (AllCurrent(c, r, table, traffic, fabric, t, now) ||
        (Unblocked(c, r, table, t, now) && (CleanupNeeded(c, t) ==> hasCleaner)))
  }

  /** Everything the target asks for is there: the record says so, and the kernel still agrees. */
  ghost predicate UpToDate(c: Compiler, r: Record, table: Table, traffic: Option<string>, fabric: Resources, t: Snapshot, now: nat) {
    && table.Managed? && table.program == Program(t.desired, c.fingerprint(t.desired, now))
    && r.applied.Some? && r.applied.value.desired.generation == t.desired.generation
    && r.applied.value.traffic == Some(c.traffic(t.desired)) == traffic
    && r.applied.value.fabric == Some(c.resources(t.desired))
    && (forall k :: k in c.resources(t.desired) ==> k in fabric && fabric[k] == c.resources(t.desired)[k])
    && (c.forced(t.desired) ==> t.cleaned)
  }

  /** The usage of a program that is about to be replaced can be read: there is room for it, and some counter of it
      is left, or it had none. */
  predicate UsageReadable(c: Compiler, r: Record, table: Table, t: Snapshot, now: nat) {
    r.applied.Some? && r.applied.value.program != Some(Program(t.desired, c.fingerprint(t.desired, now))) ==>
      && |r.outbox| < 10000
      && (c.counters(r.applied.value.desired) == {} ||
          (table.Managed? && exists n :: n in c.counters(r.applied.value.desired) && n in table.counters))
  }

  /** `Ready`, on the record and the kernel themselves: both states compile, no foreign table is in the way, and either
      nothing is left to do, or usage can be read and there is a cleaner if one is needed. */
  lemma ReadyExactly(c: Compiler, hasCleaner: bool, r: Record, table: Table, traffic: Option<string>, fabric: Resources,
                     t: Snapshot, now: nat)
    ensures Ready(c, hasCleaner, r, table, traffic, fabric, t, now) <==>
            && c.compiles(t.desired) && (r.applied.Some? ==> c.compiles(r.applied.value.desired)) && table != Foreign
            && (UpToDate(c, r, table, traffic, fabric, t, now) ||
                (UsageReadable(c, r, table, t, now) && (c.forced(t.desired) && !t.cleaned ==> hasCleaner)))
  {
    if r.applied.Some? && table.Managed? {
      var all := c.counters(r.applied.value.desired);
      assert table.counters.Keys * all != {} <==> exists n :: n in all && n in table.counters by {
        if n :| n in all && n in table.counters {
          assert n in table.counters.Keys * all;
        }
      }
    }
  }

  /** The kernel runs this desired state. */
  predicate Runs(c: Compiler, table: Table, traffic: Option<string>, fabric: Resources, d: Desired, now: nat) {
    && table.Managed? && table.program == c.ProgramAt(d, now)
    && traffic == Some(c.traffic(d))
    && Present(fabric, c.resources(d))
  }

  /** The record says that `d` is applied as compiled now, that nothing is pending, and that what had to be
      cleaned up for it was. */
  predicate Confirmed(c: Compiler, r: Record, d: Desired, now: nat) {
    && r.pending.None? && r.applied.Some?
    && var a := r.applied.value;
       && a.desired == d && a.program == Some(Program(d, c.fingerprint(d, now)))
       && a.traffic == Some(c.traffic(d)) && a.fabric == Some(c.resources(d)) && (c.forced(d) ==> a.cleaned)
  }

  /** A snapshot on top of the record is converged to as it was recorded. */
  predicate AsRecorded(r: Record, t: Snapshot) {
    Top(r).Some? && Top(r).value.desired == t.desired ==> t == Top(r).value
  }

  /** What a rollback restores: the applied state, or nothing at all. */
  function Emptied(d: Desired): Desired {
    d.(body := d.body.(forwards := map[], policies := map[], links := map[], cidrs := {}))
  }

  function LastGood(r: Record, target: Desired): Desired {
    if r.applied.Some? then r.applied.value.desired else Emptied(target)
  }

  /** The state of the target's node and generation that forwards nothing and has no policies, links or
      service ranges. */
  predicate Bare(d: Desired, target: Desired) {
    && d.node == target.node && d.generation == target.generation
    && d.body.forwards == map[] && d.body.policies == map[] && d.body.links == map[] && d.body.cidrs == {}
    && d.body.schema == target.body.schema && d.body.domain == target.body.domain
    && d.body.checks == target.body.checks && d.body.blocks == target.body.blocks
  }

  /** Traffic control and fabric serve `d`, and what only the failed target needed is gone. */
  predicate BackAt(c: Compiler, traffic: Option<string>, fabric: Resources, d: Desired, target: Desired) {
    && traffic == Some(c.traffic(d)) && Present(fabric, c.resources(d))
    && forall k :: k in c.resources(target) && k !in c.resources(d) ==> k !in fabric
  }

  /** The kernel is where it was before the target: at the applied state, or, if there is none, without
      a table and without anything to forward. */
  ghost predicate Restored(c: Compiler, r: Record, table: Table, traffic: Option<string>, fabric: Resources, target: Desired, now: nat) {
    if r.applied.Some? then
      table.Managed? && table.program == c.ProgramAt(r.applied.value.desired, now)
      && BackAt(c, traffic, fabric, r.applied.value.desired, target)
    else
      table == Absent && exists d :: Bare(d, target) && BackAt(c, traffic, fabric, d, target)
  }

  // ---------------------------------------------------------------- the agent as others see it

  function Version(d: Desired): Moves.Snapshot {
    Moves.Snapshot(d.generation, d.body)
  }

  /** The generations in the record, and the one the nft table runs. */
  function Shadow(r: Record, table: Table): Moves.Agent {
    Moves.Agent(
      if r.applied.Some? then Version(r.applied.value.desired) else Moves.Nothing(),
      if r.pending.Some? then Some(Version(r.pending.value.desired)) else None,
      if table.Managed? then Version(table.program.desired) else Moves.Nothing())
  }

  /** Record and table are what these moves lead to. */
  ghost predicate Shows(moves: seq<Moves.AgentMove>, r: Record, table: Table) {
    Moves.Played(Moves.Blank(), moves) == Shadow(r, table)
  }

  lemma {:induction false} ShowsOne(moves: seq<Moves.AgentMove>, r: Record, table: Table, m: Moves.AgentMove, s: Record, next: Table)
    requires Shows(moves, r, table) && Shadow(s, next) == Moves.Moved(Shadow(r, table), m)
    ensures Shows(moves + [m], s, next)
  {
    hide Shadow;
    Moves.PlayedOne(Moves.Blank(), moves, m);
  }

  lemma SameShadow(moves: seq<Moves.AgentMove>, r: Record, table: Table, s: Record, next: Table)
    requires Shows(moves, r, table) && Shadow(s, next) == Shadow(r, table)
    ensures Shows(moves, s, next)
  {
  }

  lemma WrittenAheadIsFetched(r: Record, table: Table, t: Snapshot)
    requires Storable(r) && Targetable(r, t)
    ensures Shadow(r.(pending := Some(t)), table) == Moves.Moved(Shadow(r, table), Moves.Fetch(Version(t.desired)))
  {
    hide ValidNode, Increasing;
  }

  lemma CommittedIsCommitted(r: Record, table: Table, t: Snapshot, journal: Journal)
    requires Storable(r) && Targetable(r, t) && Journaled(r, journal) && InJournal(t.desired, journal)
    requires table.Managed? && table.program.desired == t.desired
    ensures Shadow(r.(applied := Some(t), pending := None), table) == Moves.Moved(Shadow(r, table), Moves.Commit)
  {
    hide ValidNode, Increasing;
  }
}
