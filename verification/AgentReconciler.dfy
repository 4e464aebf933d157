/** The reconciler: it writes a snapshot ahead, changes three kernel subsystems one after the
    other, and commits; every call may fail and the process may stop anywhere. */
module AgentReconciler {
  import opened Spec
  import opened AgentModel
  import Meter
  import UsageLedger
  import Moves = AgentMoves

  /** A call succeeds, reports an error, or never returns because the process died. */
  datatype Outcome = Ok | Fails | Crashes

  datatype Reason =
    | InvalidState | NodeChanged | StaleGeneration | GenerationConflict
    | NotCompilable | ForeignTable | KernelAhead | KernelConflict
    | InspectError | PreflightError | OutboxFull | NoCounters | UsageError
    | SaveRefused | SaveError | CleanerMissing | CleanerError

  datatype Verdict = Idle | Converged(changed: bool) | Rejected(reason: Reason) | Aborted(restored: bool) | Crashed

  datatype Collection = Collected | Full | Nothing | Broken | Died

  predicate Known(r: Record, d: Desired) {
    (r.applied.Some? && r.applied.value.desired == d) || (r.pending.Some? && r.pending.value.desired == d)
  }

  /** validateIncomingGeneration: why a delivered state is refused, if it is. */
  function Refusal(r: Record, d: Desired): Option<Reason> {
    if r.applied.Some? && r.applied.value.desired.node != d.node then Some(NodeChanged)
    else if r.applied.None? && r.pending.Some? && r.pending.value.desired.node != d.node then Some(NodeChanged)
    else if r.applied.Some? && d.generation < r.applied.value.desired.generation then Some(StaleGeneration)
    else if r.applied.Some? && d.generation == r.applied.value.desired.generation && d != r.applied.value.desired
    then Some(GenerationConflict)
    else if r.pending.Some? && d.generation < r.pending.value.desired.generation then Some(StaleGeneration)
    else if r.pending.Some? && d.generation == r.pending.value.desired.generation && d != r.pending.value.desired
    then Some(GenerationConflict)
    else None
  }

  /** The snapshot a delivered state converges to: a known one keeps what was recorded with it. */
  function TargetFor(r: Record, d: Desired): Snapshot {
    if r.pending.Some? && r.pending.value.desired == d then r.pending.value
    else if r.applied.Some? && r.applied.value.desired == d then r.applied.value
    else Snapshot(d, None, None, None, false)
  }

  /** Exactly the states that are new, or the very one on top of the record, get through. */
  lemma AcceptedIsNewOrTop(r: Record, d: Desired)
    requires Storable(r) && ValidDesired(d)
    ensures Refusal(r, d).None? <==>
              Targetable(r, TargetFor(r, d)) && TargetFor(r, d).desired == d
              && (Top(r).Some? ==> Top(r).value.desired.node == d.node)
  {
    hide ValidNode;
  }

  /** Why a state is refused: it is for another node, or older than what is recorded, or it gives a
      recorded generation another content. */
  lemma RefusalMeans(r: Record, d: Desired)
    requires Storable(r) && ValidDesired(d)
    ensures var clash := r.applied.Some? && r.applied.value.desired.generation == d.generation && r.applied.value.desired != d;
            var older := (r.applied.Some? && d.generation < r.applied.value.desired.generation) ||
                         (r.pending.Some? && d.generation < r.pending.value.desired.generation);
            var other := Top(r).Some? && Top(r).value.desired.node != d.node;
            && (Refusal(r, d) == Some(NodeChanged) <==> other)
            && (Refusal(r, d) == Some(StaleGeneration) <==> !other && older && !clash)
            && (Refusal(r, d) == Some(GenerationConflict) <==>
                  !other && (clash || (!older && r.pending.Some? && r.pending.value.desired.generation == d.generation
                                       && r.pending.value.desired != d)))
            && (Refusal(r, d).Some? ==> Refusal(r, d).value in {NodeChanged, StaleGeneration, GenerationConflict})
  {
    hide ValidNode;
  }

  /** Whatever table is installed was written ahead, so it is never newer than what is converged. */
  lemma InstalledIsKnown(table: Table, r: Record, journal: Journal, t: Snapshot)
    requires Journaled(r, journal) && WrittenAhead(table, r, journal) && Targetable(r, t)
    ensures table.Managed? ==> table.program.desired.generation <= t.desired.generation
    ensures table.Managed? && table.program.desired.generation == t.desired.generation ==>
      table.program.desired == t.desired && InJournal(t.desired, journal)
  {
    hide ValidNode;
  }

  /** A suffix of the outbox is as good a record as the whole of it. */
  lemma RestCanBeStored(r: Record, rest: seq<UsageBatch>)
    requires Storable(r) && Numbered(r) && UsageLedger.Suffix(rest, r.outbox)
    ensures Storable(r.(outbox := rest)) && Numbered(r.(outbox := rest))
  {
    hide ValidDesired, Increasing;
    SuffixIncreases(rest, r.outbox);
  }

  lemma SuffixIncreases(rest: seq<UsageBatch>, outbox: seq<UsageBatch>)
    requires UsageLedger.Suffix(rest, outbox) && Increasing(outbox)
    ensures Increasing(rest) && forall b :: b in rest ==> b in outbox
  {
    var d := |outbox| - |rest|;
    assert forall i :: 0 <= i < |rest| ==> rest[i] == outbox[d + i];
  }

  /** The meter now holds what the installed table shows of the counters of the applied state. */
  ghost predicate ReadsTable(c: Compiler, before: Record, after: Record, table: Table, now: nat) {
    && before.applied.Some? && table.Managed?
    && after.meter.epoch == (if before.applied.value.program.Some? then before.applied.value.program
                             else Some(Program(before.applied.value.desired, c.fingerprint(before.applied.value.desired, now))))
    && (forall n :: n in after.meter.values <==> n in table.counters && n in c.counters(before.applied.value.desired))
    && forall n :: n in after.meter.values ==> after.meter.values[n] == table.counters[n]
  }

  lemma ObservedReads(c: Compiler, r: Record, table: Table, now: nat)
    requires r.applied.Some?
    ensures var samples, epoch := SamplesOf(c, r.applied.value.desired, table), EpochOf(c, r.applied.value, now);
            samples != map[] ==> ReadsTable(c, r, Observed(r, r.applied.value.desired, epoch, samples, now), table, now)
  {
  }

  /** The meter numbers a batch above all the outbox holds, so it can always be stored if there is room. */
  lemma ObservedCanBeStored(r: Record, d: Desired, epoch: Program, samples: map<string, Meter.Value>, now: int)
    requires Storable(r) && Numbered(r) && |r.outbox| < MAX_USAGE_OUTBOX
    ensures var next := Observed(r, d, epoch, samples, now);
            Storable(next) && Numbered(next) && next.applied == r.applied && next.pending == r.pending
            && |next.outbox| <= |r.outbox| + 1
  {
    hide ValidNode, Meter.DeltasOf, Meter.Moved;
  }

  /** What it means that each part is current, and that a confirmed and running target is. */
  lemma CurrentMeans(c: Compiler, r: Record, table: Table, traffic: Option<string>, fabric: Resources, t: Snapshot, now: nat)
    ensures NftCurrent(c, table, t, now) ==> table.Managed? && table.program == c.ProgramAt(t.desired, now)
    ensures TrafficCurrent(c, r, traffic, t) ==> r.applied.Some? && traffic == Some(c.traffic(t.desired))
    ensures FabricCurrent(c, r, fabric, t) ==> r.applied.Some? && Present(fabric, c.resources(t.desired))
    ensures Confirmed(c, r, t.desired, now) && Runs(c, table, traffic, fabric, t.desired, now) && AsRecorded(r, t) ==>
      && NftCurrent(c, table, t, now) && TrafficCurrent(c, r, traffic, t) && FabricCurrent(c, r, fabric, t)
      && !CleanupNeeded(c, t) && r.applied == Some(Prepared(c, t, now))
  {
    hide Present;
  }

  datatype Op =
    | ApplyOp(desired: Desired)
    | RecoverOp
    | AuditOp
    | RefreshOp
    | CollectOp
    | AckOp(key: UsageLedger.Key)
    | Reboot
    | Count(counters: map<string, Meter.Value>)

  class Agent {
    var record: Record
    var table: Table
    var traffic: Option<string>
    var fabric: Resources
    ghost var journal: Journal
    ghost var moves: seq<Moves.AgentMove>
    const compiler: Compiler
    const hasCleaner: bool

    ghost predicate Valid()
      reads this
    {
      && Storable(record) && Numbered(record) && Journaled(record, journal)
      && WrittenAhead(table, record, journal) && Shows(moves, record, table)
    }

    /** Nothing this agent ever wrote ahead is forgotten or changed, its moves are not taken back, and
        it never goes back. */
    twostate predicate Progresses()
      reads this
    {
      && AppliedGeneration(old(record)) <= AppliedGeneration(record) && old(moves) <= moves
      && forall g :: g in old(journal) ==> g in journal && journal[g] == old(journal)[g]
    }

    constructor (compiler: Compiler, hasCleaner: bool, foreign: bool)
      ensures Valid() && record == EmptyRecord() && journal == map[] && moves == []
      ensures this.compiler == compiler && this.hasCleaner == hasCleaner
      ensures table == if foreign then Foreign else Absent
    {
      this.compiler, this.hasCleaner := compiler, hasCleaner;
      record, journal, moves := EmptyRecord(), map[], [];
      table, traffic, fabric := if foreign then Foreign else Absent, None, map[];
    }

    // -------------------------------------------------------------- primitive steps

    /** Any outcome at all, unless the environment is healthy. */
    method Attempt(healthy: bool) returns (o: Outcome)
      ensures healthy ==> o == Ok
    {
      o := *;
      if healthy {
        o := Ok;
      }
    }

    /** A transaction over one table: it is applied as a whole or not at all, even if the result
        is never heard of. The leading delete of a replacing script needs an existing table. */
    method ApplyTable(program: Program, replace: bool, healthy: bool) returns (o: Outcome)
      modifies this`table
      ensures table == old(table) || (table.Managed? && table.program == program && (replace ==> old(table) != Absent))
      ensures o == Ok ==> table.Managed? && table.program == program
      ensures healthy ==> (o == Ok <==> !(replace && old(table) == Absent)) && (o != Ok ==> o == Fails)
    {
      o := Attempt(healthy);
      var lost := Attempt(false);
      if replace && table == Absent {
        if o == Ok { o := Fails; }
        return;
      }
      if o == Ok || lost == Ok {
        table := Managed(program, map n | n in compiler.counters(program.desired) :: Meter.Zero());
      }
    }

    method DeleteTable(healthy: bool) returns (o: Outcome)
      modifies this`table
      ensures table == old(table) || table == Absent
      ensures o == Ok ==> table == Absent
      ensures healthy ==> (o == Ok <==> old(table) != Absent) && (o != Ok ==> o == Fails)
    {
      o := Attempt(healthy);
      if table == Absent {
        if o == Ok { o := Fails; }
        return;
      }
      var lost := Attempt(false);
      if o == Ok || lost == Ok {
        table := Absent;
      }
    }

    /** A failed traffic-control batch may leave anything behind. */
    method ApplyTraffic(program: string, healthy: bool) returns (o: Outcome)
      modifies this`traffic
      ensures o == Ok ==> traffic == Some(program)
      ensures healthy ==> o == Ok
    {
      o := Attempt(healthy);
      traffic := *;
      if o == Ok {
        traffic := Some(program);
      }
    }

    /** Adds or replaces resources; on an error any part of them. */
    method PrepareFabric(wanted: Resources, healthy: bool) returns (o: Outcome)
      modifies this`fabric
      ensures o == Ok ==> fabric == old(fabric) + wanted
      ensures healthy ==> o == Ok
    {
      o := Attempt(healthy);
      var done: set<string> := *;
      fabric := fabric + if o == Ok then wanted else map k | k in wanted && k in done :: wanted[k];
    }

    /** Removes what only the previous program needs; on an error any part of it. */
    method CleanupFabric(previous: Resources, wanted: Resources, healthy: bool) returns (o: Outcome)
      modifies this`fabric
      ensures Present(old(fabric), wanted) ==> Present(fabric, wanted)
      ensures o == Ok ==> fabric == old(fabric) - (previous.Keys - wanted.Keys)
      ensures healthy ==> o == Ok
    {
      o := Attempt(healthy);
      var done: set<string> := *;
      var gone := previous.Keys - wanted.Keys;
      fabric := fabric - if o == Ok then gone else gone * done;
    }

    method VerifyTraffic(program: string, healthy: bool) returns (o: Outcome)
      ensures o == Ok ==> traffic == Some(program)
      ensures healthy ==> (o == Ok <==> traffic == Some(program)) && o != Crashes
    {
      o := Attempt(healthy);
      if o == Ok && traffic != Some(program) {
        o := Fails;
      }
    }

    method VerifyFabric(wanted: Resources, healthy: bool) returns (o: Outcome)
      ensures o == Ok ==> Present(fabric, wanted)
      ensures healthy ==> (o == Ok <==> Present(fabric, wanted)) && o != Crashes
    {
      o := Attempt(healthy);
      if o == Ok && !Present(fabric, wanted) {
        o := Fails;
      }
    }

    /** The durable record is replaced atomically; an error leaves the old or the new one. */
    method Save(next: Record, healthy: bool) returns (o: Outcome, refused: bool)
      modifies this`record
      ensures record == old(record) || record == next
      ensures refused <==> !Storable(next)
      ensures o == Ok ==> record == next && !refused
      ensures healthy && Storable(next) ==> o == Ok
    {
      refused := !Storable(next);
      if refused {
        return Fails, true;
      }
      o := Attempt(healthy);
      var written := Attempt(false);
      if o == Ok || written == Ok {
        record := next;
      }
    }

    // -------------------------------------------------------------- usage

    /** collectUsageLocked: turns the applied program's counters into an outbox batch. */
    method Collect(current: Record, now: nat, healthy: bool) returns (c: Collection, next: Record)
      requires Storable(current) && Numbered(current) && record == current
      modifies this`record
      ensures record == current || record == next
      ensures next.applied == current.applied && next.pending == current.pending
      ensures Storable(next) && Numbered(next)
      ensures c == Collected ==> record == next
      ensures c == Collected && current.applied.Some? && compiler.counters(current.applied.value.desired) != {} ==>
        next == Observed(current, current.applied.value.desired, EpochOf(compiler, current.applied.value, now),
                         SamplesOf(compiler, current.applied.value.desired, table), now)
      ensures next == current || (current.applied.Some? && SamplesOf(compiler, current.applied.value.desired, table) != map[] &&
        next == Observed(current, current.applied.value.desired, EpochOf(compiler, current.applied.value, now),
                         SamplesOf(compiler, current.applied.value.desired, table), now))
      ensures c != Collected ==> next == current || c == Broken || c == Died
      ensures Collectable(compiler, current, table) ==> c != Full && c != Nothing
      ensures c == Full <==> current.applied.Some? && |current.outbox| >= 10000
      ensures healthy ==> c != Broken && c != Died && (c == Collected <==> Collectable(compiler, current, table))
    {
      hide ValidNode, Storable, Numbered, Observed;
      next := current;
      if current.applied.None? {
        return Collected, next;
      }
      var applied := current.applied.value;
      if |current.outbox| >= MAX_USAGE_OUTBOX {
        return Full, next;
      }
      var o := Attempt(healthy);
      if o != Ok {
        return if o == Fails then Broken else Died, next;
      }
      var bindings := compiler.counters(applied.desired);
      if bindings == {} {
        return Collected, next;
      }
      var samples := SamplesOf(compiler, applied.desired, table);
      assert samples.Keys == if table.Managed? then table.counters.Keys * bindings else {};
      if samples == map[] {
        return Nothing, next;
      }
      assert samples.Keys != {};
      var epoch := EpochOf(compiler, applied, now);
      next := Observed(current, applied.desired, epoch, samples, now);
      ObservedCanBeStored(current, applied.desired, epoch, samples, now);
      var refused;
      o, refused := Save(next, healthy);
      return if o == Ok then Collected else if o == Fails then Broken else Died, next;
    }

    /** CollectUsage: a collection on its own. Whatever it builds can be stored. */
    method CollectUsage(now: nat, healthy: bool) returns (c: Collection)
      requires Valid()
      modifies this`record
      ensures Valid() && Progresses()
      ensures record == old(record) || (old(record).applied.Some? &&
        record == Observed(old(record), old(record).applied.value.desired, EpochOf(compiler, old(record).applied.value, now),
                           SamplesOf(compiler, old(record).applied.value.desired, table), now))
      ensures record != old(record) ==>
        ReadsTable(compiler, old(record), record, table, now)
      ensures healthy ==> (c == Collected <==> Collectable(compiler, old(record), table))
    {
      hide ValidNode, Increasing;
      if record.applied.Some? {
        ObservedReads(compiler, record, table, now);
      }
      hide Observed, ReadsTable, SamplesOf, EpochOf;
      var next;
      c, next := Collect(record, now, healthy);
    }

    /** AckUsage: cuts the outbox after the acknowledged batch. Whatever it builds can be stored. */
    method AckUsage(key: UsageLedger.Key, healthy: bool) returns (o: Outcome, refused: bool)
      requires Valid()
      modifies this`record
      ensures Valid() && Progresses()
      ensures !refused
      ensures record == old(record) || record == old(record).(outbox := UsageLedger.Acknowledged(old(record).outbox, key))
      ensures o == Ok ==> record.outbox == UsageLedger.Acknowledged(old(record).outbox, key)
      ensures healthy ==> o == Ok
    {
      hide ValidNode, UsageLedger.Acknowledged;
      var outbox := UsageLedger.Acknowledged(record.outbox, key);
      if outbox == record.outbox {
        return Ok, false;
      }
      RestCanBeStored(record, outbox);
      o, refused := Save(record.(outbox := outbox), healthy);
    }

    // -------------------------------------------------------------- converge

    /** rollbackDataplane: every step is tried even if an earlier one failed. */
    method RollbackDataplane(target: Desired, now: nat, healthy: bool) returns (o: Outcome)
      requires record.applied.Some? ==> InJournal(record.applied.value.desired, journal)
      requires WrittenAhead(table, record, journal) && Shows(moves, record, table)
      modifies this`table, this`traffic, this`fabric, this`moves
      ensures WrittenAhead(table, record, journal) && Shows(moves, record, table)
      ensures moves == old(moves) || moves == old(moves) + [Moves.Revert]
      ensures o == Ok ==> Restored(compiler, record, table, traffic, fabric, target, now)
      ensures healthy ==> (o == Ok <==> old(table) != Absent) && o != Crashes
    {
      hide Shows, WrittenAhead, InJournal;
      var good := LastGood(record, target);
      assert record.applied.None? ==> Bare(good, target);
      var failed := false;
      o := PrepareFabric(compiler.resources(good), healthy);
      if o == Crashes { return; }
      failed := o == Fails;
      o := RestoreTable(good, now, healthy);
      if o == Crashes { return; }
      failed := failed || o == Fails;
      o := ApplyTraffic(compiler.traffic(good), healthy);
      if o == Crashes { return; }
      failed := failed || o == Fails;
      o := CleanupFabric(compiler.resources(target), compiler.resources(good), healthy);
      if o == Crashes { return; }
      failed := failed || o == Fails;
      o := VerifyFabric(compiler.resources(good), healthy);
      if o == Crashes { return; }
      failed := failed || o == Fails;
      o := if failed then Fails else Ok;
    }

    /** Puts back the table of what is applied, or removes it if nothing is. */
    method RestoreTable(good: Desired, now: nat, healthy: bool) returns (o: Outcome)
      requires record.applied.Some? ==> record.applied.value.desired == good && InJournal(good, journal)
      requires WrittenAhead(table, record, journal) && Shows(moves, record, table)
      modifies this`table, this`moves
      ensures WrittenAhead(table, record, journal) && Shows(moves, record, table)
      ensures moves == old(moves) || moves == old(moves) + [Moves.Revert]
      ensures o == Ok && record.applied.Some? ==> table.Managed? && table.program == compiler.ProgramAt(good, now)
      ensures o == Ok && record.applied.None? ==> table == Absent
      ensures healthy ==> (o == Ok <==> old(table) != Absent) && o != Crashes
    {
      hide Shows;
      ghost var before := table;
      if record.applied.Some? {
        o := ApplyTable(compiler.ProgramAt(good, now), true, healthy);
      } else {
        o := DeleteTable(healthy);
      }
      if table != before {
        ShowsOne(moves, record, before, Moves.Revert, record, table);
        moves := moves + [Moves.Revert];
      }
    }

    /** Puts the target's table in place. */
    method SwitchTable(target: Desired, now: nat, replace: bool, healthy: bool) returns (o: Outcome)
      requires InJournal(target, journal) && WrittenAhead(table, record, journal) && Shows(moves, record, table)
      requires record.pending.Some? && record.pending.value.desired == target
      requires replace <==> table != Absent
      modifies this`table, this`moves
      ensures WrittenAhead(table, record, journal) && Shows(moves, record, table)
      ensures moves == old(moves) || moves == old(moves) + [Moves.Switch]
      ensures o == Ok ==> table.Managed? && table.program == compiler.ProgramAt(target, now)
      ensures healthy ==> o == Ok
    {
      hide Shows;
      ghost var before := table;
      o := ApplyTable(compiler.ProgramAt(target, now), replace, healthy);
      if table != before {
        ShowsOne(moves, record, before, Moves.Switch, record, table);
        moves := moves + [Moves.Switch];
      }
    }

    /** The kernel steps after the write-ahead: fabric first, then nft, then traffic control, then
        the removal of superseded fabric, then verification of all three. */
    method Install(target: Desired, now: nat, nftCurrent: bool, tcCurrent: bool, fabricCurrent: bool, replace: bool, healthy: bool)
      returns (o: Outcome)
      requires InJournal(target, journal) && WrittenAhead(table, record, journal) && Shows(moves, record, table)
      requires record.pending.Some? && record.pending.value.desired == target
      requires replace <==> table != Absent
      modifies this`table, this`traffic, this`fabric, this`moves
      ensures WrittenAhead(table, record, journal) && Shows(moves, record, table)
      ensures moves == old(moves) || moves == old(moves) + [Moves.Switch]
      ensures o == Ok ==> Runs(compiler, table, traffic, fabric, target, now)
      ensures o == Ok && !fabricCurrent && record.applied.Some? ==>
        forall k :: k in compiler.resources(record.applied.value.desired) && k !in compiler.resources(target) ==> k !in fabric
      ensures healthy && (nftCurrent ==> old(table).Managed? && old(table).program == compiler.ProgramAt(target, now))
                      && (tcCurrent ==> old(traffic) == Some(compiler.traffic(target)))
                      && (fabricCurrent ==> Present(old(fabric), compiler.resources(target)))
              ==> o == Ok
    {
      hide Shows, WrittenAhead, InJournal;
      var wanted := compiler.resources(target);
      if !fabricCurrent {
        o := PrepareFabric(wanted, healthy);
        if o != Ok { return; }
      }
      if !nftCurrent {
        o := SwitchTable(target, now, replace, healthy);
        if o != Ok { return; }
      }
      if !tcCurrent {
        o := ApplyTraffic(compiler.traffic(target), healthy);
        if o != Ok { return; }
      }
      if !fabricCurrent {
        var previous := if record.applied.Some? then compiler.resources(record.applied.value.desired) else map[];
        o := CleanupFabric(previous, wanted, healthy);
        if o != Ok { return; }
      }
      o := Attempt(healthy);
      if o != Ok { return; }
      if !table.Managed? || table.program != compiler.ProgramAt(target, now) {
        return Fails;
      }
      o := VerifyTraffic(compiler.traffic(target), healthy);
      if o != Ok { return; }
      o := VerifyFabric(wanted, healthy);
    }

    /** Writes the target ahead; the journal gains its generation if the record really changed. */
    method WriteAhead(current: Record, target: Snapshot, healthy: bool) returns (o: Outcome, refused: bool)
      requires Valid() && record == current && Targetable(current, target)
      modifies this`record, this`journal, this`moves
      ensures Valid() && Progresses()
      ensures moves == old(moves) || moves == old(moves) + [Moves.Fetch(Version(target.desired))]
      ensures record == current || record == current.(pending := Some(target))
      ensures record == current ==> journal == old(journal)
      ensures !refused
      ensures o == Ok ==> record == current.(pending := Some(target)) && InJournal(target.desired, journal)
      ensures healthy ==> o == Ok
    {
      hide ValidNode, Shows;
      var next := current.(pending := Some(target));
      WrittenAheadIsFetched(current, table, target);
      o, refused := Save(next, healthy);
      if record == next {
        journal := journal[target.desired.generation := target.desired];
        ShowsOne(moves, current, table, Moves.Fetch(Version(target.desired)), next, table);
        moves := moves + [Moves.Fetch(Version(target.desired))];
      }
    }

    /** The record after a successful convergence: the target applied, nothing pending. */
    method Commit(current: Record, target: Snapshot, healthy: bool) returns (o: Outcome, refused: bool)
      requires Valid() && record == current && Targetable(current, target)
      requires InJournal(target.desired, journal) && table.Managed? && table.program.desired == target.desired
      modifies this`record, this`moves
      ensures Valid() && Progresses()
      ensures moves == old(moves) || moves == old(moves) + [Moves.Commit]
      ensures !refused
      ensures record == current || record == current.(applied := Some(target), pending := None)
      ensures o == Ok ==> record == current.(applied := Some(target), pending := None)
      ensures healthy ==> o == Ok
    {
      hide ValidNode, Shows;
      var next := current.(applied := Some(target), pending := None);
      CommittedIsCommitted(current, table, target, journal);
      o, refused := Save(next, healthy);
      if record == next {
        ShowsOne(moves, current, table, Moves.Commit, next, table);
        moves := moves + [Moves.Commit];
      }
    }

    /** Everything is already in place: only the record may have to catch up. */
    method ConfirmCurrent(current: Record, target: Snapshot, healthy: bool) returns (v: Verdict)
      requires Valid() && record == current && Targetable(current, target)
      requires InJournal(target.desired, journal) && table.Managed? && table.program.desired == target.desired
      requires current.applied.Some?
      requires current.pending.None? ==>
        current.applied.value.desired == target.desired && current.applied.value.cleaned == target.cleaned
      modifies this`record, this`moves
      ensures Valid() && Progresses() && Moves.Adds(old(moves), moves, Version(target.desired))
      ensures record.outbox == current.outbox
      ensures v == Converged(false) || v == Rejected(SaveError) || v == Crashed
      ensures v.Converged? ==> record.pending.None? && record.applied == Some(target)
      ensures current.pending.None? && current.applied == Some(target) ==> record == current
      ensures healthy ==> v.Converged?
    {
      var applied := current.applied.value;
      if current.pending.Some? || applied.desired != target.desired || applied.program != target.program ||
         applied.traffic != target.traffic || applied.fabric != target.fabric {
        var o, refused := Commit(current, target, healthy);
        if o != Ok {
          return if o == Fails then Rejected(SaveError) else Crashed;
        }
      }
      return Converged(false);
    }

    /** Read-only preflight of the subsystems that are about to change. */
    method Preflight(nftCurrent: bool, tcCurrent: bool, fabricCurrent: bool, healthy: bool) returns (o: Outcome)
      ensures healthy ==> o == Ok
    {
      o := Ok;
      if !nftCurrent { o := Attempt(healthy); }
      if o == Ok && !tcCurrent { o := Attempt(healthy); }
      if o == Ok && !fabricCurrent { o := Attempt(healthy); }
    }

    /** The kernel switches to the target, or is sent back to the last-known-good state. */
    method SwitchKernel(target: Desired, now: nat, nftCurrent: bool, tcCurrent: bool, fabricCurrent: bool, healthy: bool)
      returns (o: Outcome, restored: bool)
      requires Valid() && InJournal(target, journal)
      requires record.pending.Some? && record.pending.value.desired == target
      modifies this`table, this`traffic, this`fabric, this`moves
      ensures Valid() && Moves.Adds(old(moves), moves, Version(target))
      ensures o == Ok ==> Runs(compiler, table, traffic, fabric, target, now)
      ensures o == Fails && restored ==> Restored(compiler, record, table, traffic, fabric, target, now)
      ensures healthy && (nftCurrent ==> old(table).Managed? && old(table).program == compiler.ProgramAt(target, now))
                      && (tcCurrent ==> old(traffic) == Some(compiler.traffic(target)))
                      && (fabricCurrent ==> Present(old(fabric), compiler.resources(target)))
              ==> o == Ok
    {
      hide ValidNode, Storable, Numbered, Increasing, Restored, Runs, Present, Shows;
      restored := false;
      o := Install(target, now, nftCurrent, tcCurrent, fabricCurrent, table != Absent, healthy);
      if o == Fails {
        o := RollbackDataplane(target, now, healthy);
        restored := o == Ok;
        o := if o == Crashes then Crashes else Fails;
      }
    }

    /** Counters disappear with the table that holds them, so usage is read before the applied
        program is replaced. */
    method CollectBefore(before: Record, t: Snapshot, now: nat, healthy: bool) returns (c: Collection, current: Record)
      requires Valid() && record == before && Targetable(before, t) && t == Prepared(compiler, t, now)
      modifies this`record
      ensures Valid() && Progresses()
      ensures |record.outbox| <= |before.outbox| + 1 && |current.outbox| <= |before.outbox| + 1
      ensures current.applied == before.applied && current.pending == before.pending
      ensures c == Collected ==> record == current
      ensures healthy ==> (c == Collected <==> Unblocked(compiler, before, table, t, now))
      ensures healthy && c != Collected ==> record == before
    {
      c, current := Collected, before;
      if before.applied.Some? && before.applied.value.program != t.program {
        c, current := Collect(before, now, healthy);
      }
    }

    function Blocked(c: Collection): Verdict
      requires c != Collected
    {
      match c
      case Full => Rejected(OutboxFull)
      case Nothing => Rejected(NoCounters)
      case Broken => Rejected(UsageError)
      case Died => Crashed
    }

    /** Conntrack cleanup of explicitly deleted forwards, and the commit of the record. */
    method Finish(t: Snapshot, cleanup: bool, changed: bool, healthy: bool) returns (v: Verdict)
      requires Valid() && Targetable(record, t) && InJournal(t.desired, journal)
      requires table.Managed? && table.program.desired == t.desired
      modifies this`record, this`moves
      ensures Valid() && Progresses() && Moves.Adds(old(moves), moves, Version(t.desired))
      ensures record.outbox == old(record).outbox
      ensures v == Converged(changed) || v == Crashed
              || v == Rejected(CleanerMissing) || v == Rejected(CleanerError) || v == Rejected(SaveError)
      ensures v.Converged? ==> record.pending.None? && record.applied == Some(if cleanup then t.(cleaned := true) else t)
      ensures healthy ==> (v.Converged? <==> (cleanup ==> hasCleaner))
    {
      hide ValidNode, Storable, Numbered, Shows;
      var target := t;
      if cleanup {
        if !hasCleaner {
          return Rejected(CleanerMissing);
        }
        var o := Attempt(healthy);
        if o != Ok {
          return if o == Fails then Rejected(CleanerError) else Crashed;
        }
        target := t.(cleaned := true);
      }
      var o, refused := Commit(record, target, healthy);
      if o != Ok {
        return if o == Fails then Rejected(SaveError) else Crashed;
      }
      return Converged(changed);
    }

    /** The rest of converge, once something has to change. */
    method Replace(before: Record, t: Snapshot, now: nat, nftCurrent: bool, tcCurrent: bool, fabricCurrent: bool, cleanup: bool, healthy: bool)
      returns (v: Verdict)
      requires Valid() && record == before && Targetable(before, t) && t == Prepared(compiler, t, now) && table != Foreign
      requires cleanup <==> CleanupNeeded(compiler, t)
      requires nftCurrent ==> NftCurrent(compiler, table, t, now)
      requires tcCurrent ==> traffic == Some(compiler.traffic(t.desired))
      requires fabricCurrent ==> Present(fabric, compiler.resources(t.desired))
      modifies this
      ensures Valid() && Progresses() && Moves.Adds(old(moves), moves, Version(t.desired))
      ensures |record.outbox| <= |before.outbox| + 1
      ensures v != Rejected(KernelAhead) && v != Rejected(KernelConflict) && v != Rejected(SaveRefused) && v != Idle
      ensures v.Converged? ==>
        Confirmed(compiler, record, t.desired, now) && Runs(compiler, table, traffic, fabric, t.desired, now)
      ensures v == Aborted(true) ==>
        && record.applied == before.applied && record.pending == Some(t)
        && Restored(compiler, record, table, traffic, fabric, t.desired, now)
      ensures healthy ==> (v.Converged? <==> Unblocked(compiler, before, old(table), t, now) && (cleanup ==> hasCleaner))
      ensures healthy && !Unblocked(compiler, before, old(table), t, now) ==>
        record == before && table == old(table) && traffic == old(traffic) && fabric == old(fabric)
    {
      hide ValidNode, Storable, Numbered, Increasing, Restored, Present, Unblocked, Journaled, WrittenAhead, Shows;
      var o := Preflight(nftCurrent, tcCurrent, fabricCurrent, healthy);
      if o != Ok {
        return if o == Fails then Rejected(PreflightError) else Crashed;
      }
      var c, current := CollectBefore(before, t, now, healthy);
      if c != Collected {
        return Blocked(c);
      }
      var refused;
      o, refused := WriteAhead(current, t, healthy);
      if o != Ok {
        return if o == Fails then Rejected(SaveError) else Crashed;
      }
      var restored;
      o, restored := SwitchKernel(t.desired, now, nftCurrent, tcCurrent, fabricCurrent, healthy);
      if o != Ok {
        return if o == Crashes then Crashed else Aborted(restored);
      }
      ghost var switched := moves;
      v := Finish(t, cleanup, !nftCurrent || !tcCurrent || !fabricCurrent || cleanup, healthy);
      Moves.AddsMore(old(moves), switched, moves, Version(t.desired));
    }

    /** converge. `enforceOrder` additionally checks the installed generation against the record. */
    method Converge(t: Snapshot, enforceOrder: bool, now: nat, healthy: bool) returns (v: Verdict)
      requires Valid() && Targetable(record, t) && AsRecorded(record, t)
      modifies this
      ensures Valid() && Progresses() && Moves.Adds(old(moves), moves, Version(t.desired))
      ensures |record.outbox| <= |old(record).outbox| + 1
      ensures v != Rejected(KernelAhead) && v != Rejected(KernelConflict) && v != Rejected(SaveRefused) && v != Idle
      ensures v.Converged? ==>
        Confirmed(compiler, record, t.desired, now) && Runs(compiler, table, traffic, fabric, t.desired, now)
      ensures v == Aborted(true) ==>
        && record.applied == old(record).applied
        && record.pending == Some(Prepared(compiler, t, now))
        && Restored(compiler, record, table, traffic, fabric, t.desired, now)
      ensures healthy ==>
        (v.Converged? <==> Ready(compiler, hasCleaner, old(record), old(table), old(traffic), old(fabric), t, now))
      ensures healthy && !Unblocked(compiler, old(record), old(table), t, now) && !v.Converged? ==>
        record == old(record) && table == old(table) && traffic == old(traffic) && fabric == old(fabric)
      ensures healthy && Confirmed(compiler, old(record), t.desired, now) && compiler.compiles(t.desired)
              && Runs(compiler, old(table), old(traffic), old(fabric), t.desired, now) ==>
        v == Converged(false) && record == old(record) && table == old(table) && traffic == old(traffic) && fabric == old(fabric)
    {
      hide ValidNode, Storable, Numbered, Journaled, WrittenAhead, InJournal, Shows;
      var current := record;
      InstalledIsKnown(table, record, journal, t);
      if !Compilable(compiler, current, t) {
        return Rejected(NotCompilable);
      }
      var target := Prepared(compiler, t, now);
      var o := Attempt(healthy);
      if o != Ok {
        return if o == Fails then Rejected(InspectError) else Crashed;
      }
      if table == Foreign {
        return Rejected(ForeignTable);
      }
      if table.Managed? && table.program.desired.generation > t.desired.generation {
        return Rejected(KernelAhead);
      }
      if enforceOrder && table.Managed? && table.program.desired.generation == t.desired.generation &&
         table.program.desired != t.desired && !Known(current, t.desired) {
        return Rejected(KernelConflict);
      }
      v := Examine(current, t, target, now, healthy);
    }

    /** What the kernel already has decides what is left to do. */
    method Examine(current: Record, t: Snapshot, target: Snapshot, now: nat, healthy: bool) returns (v: Verdict)
      requires Valid() && record == current && Targetable(current, t) && AsRecorded(current, t) && Compilable(compiler, current, t)
      requires target == Prepared(compiler, t, now) && table != Foreign
      modifies this
      ensures Valid() && Progresses() && Moves.Adds(old(moves), moves, Version(t.desired))
      ensures |record.outbox| <= |current.outbox| + 1
      ensures v != Rejected(KernelAhead) && v != Rejected(KernelConflict) && v != Rejected(SaveRefused) && v != Idle
      ensures v.Converged? ==>
        Confirmed(compiler, record, t.desired, now) && Runs(compiler, table, traffic, fabric, t.desired, now)
      ensures v == Aborted(true) ==>
        && record.applied == current.applied && record.pending == Some(target)
        && Restored(compiler, record, table, traffic, fabric, t.desired, now)
      ensures healthy ==>
        (v.Converged? <==> Ready(compiler, hasCleaner, current, old(table), old(traffic), old(fabric), t, now))
      ensures healthy && !Unblocked(compiler, current, old(table), t, now) && !v.Converged? ==>
        record == current && table == old(table) && traffic == old(traffic) && fabric == old(fabric)
      ensures healthy && Confirmed(compiler, current, t.desired, now)
              && Runs(compiler, old(table), old(traffic), old(fabric), t.desired, now) ==>
        v == Converged(false) && record == current && table == old(table) && traffic == old(traffic) && fabric == old(fabric)
    {
      hide ValidNode, Storable, Numbered, Journaled, WrittenAhead, InJournal, Shows, Present;
      InstalledIsKnown(table, record, journal, t);
      var nftCurrent := NftCurrent(compiler, table, t, now);
      var tcCurrent, fabricCurrent, died := StillCurrent(current, t, target, now, healthy);
      if died { return Crashed; }
      hide TrafficCurrent, FabricCurrent, NftCurrent, CleanupNeeded;
      CurrentMeans(compiler, current, table, traffic, fabric, t, now);
      var cleanup := CleanupNeeded(compiler, t);
      if nftCurrent && tcCurrent && fabricCurrent && !cleanup {
        v := ConfirmCurrent(current, target, healthy);
        return;
      }
      v := Replace(current, target, now, nftCurrent, tcCurrent, fabricCurrent, cleanup, healthy);
    }

    /** Whether traffic control and fabric still are what the record says of the target. */
    method StillCurrent(current: Record, t: Snapshot, target: Snapshot, now: nat, healthy: bool)
      returns (tcCurrent: bool, fabricCurrent: bool, died: bool)
      requires target == Prepared(compiler, t, now)
      ensures !died && tcCurrent ==> TrafficCurrent(compiler, current, traffic, t)
      ensures !died && fabricCurrent ==> FabricCurrent(compiler, current, fabric, t)
      ensures healthy ==> !died && (tcCurrent <==> TrafficCurrent(compiler, current, traffic, t))
                          && (fabricCurrent <==> FabricCurrent(compiler, current, fabric, t))
    {
      hide Present;
      died, fabricCurrent := false, false;
      tcCurrent := current.applied.Some? && current.applied.value.desired.generation == t.desired.generation &&
                   current.applied.value.traffic == target.traffic;
      var o;
      if tcCurrent {
        o := VerifyTraffic(compiler.traffic(t.desired), healthy);
        if o == Crashes { return false, false, true; }
        tcCurrent := o == Ok;
      }
      fabricCurrent := current.applied.Some? && current.applied.value.fabric == target.fabric;
      if fabricCurrent {
        o := VerifyFabric(compiler.resources(t.desired), healthy);
        if o == Crashes { return false, false, true; }
        fabricCurrent := o == Ok;
      }
    }

    // -------------------------------------------------------------- entry points

    /** A delivered state: an old one, or another content for a known generation, changes nothing, and
        delivering it twice is delivering it once. */
    method Apply(d: Desired, now: nat, healthy: bool) returns (v: Verdict)
      requires Valid()
      modifies this
      ensures Valid() && Progresses() && Moves.Adds(old(moves), moves, Version(d))
      ensures |record.outbox| <= |old(record).outbox| + 1
      ensures v != Rejected(KernelAhead) && v != Rejected(KernelConflict) && v != Rejected(SaveRefused)
      ensures ValidDesired(d) && Refusal(old(record), d).Some? ==> v == Rejected(Refusal(old(record), d).value)
      ensures !ValidDesired(d) || Refusal(old(record), d).Some? ==>
        record == old(record) && table == old(table) && traffic == old(traffic) && fabric == old(fabric)
      ensures v.Converged? ==> Confirmed(compiler, record, d, now) && Runs(compiler, table, traffic, fabric, d, now)
      ensures healthy && ValidDesired(d) && Confirmed(compiler, old(record), d, now) && compiler.compiles(d)
              && Runs(compiler, old(table), old(traffic), old(fabric), d, now) ==>
        v == Converged(false) && record == old(record) && table == old(table) && traffic == old(traffic) && fabric == old(fabric)
      ensures healthy && ValidDesired(d) && Refusal(old(record), d).None? ==>
        (v.Converged? <==> Ready(compiler, hasCleaner, old(record), old(table), old(traffic), old(fabric),
                                 TargetFor(old(record), d), now))
    {
      hide Ready, Runs, Restored, ValidNode, WrittenAhead, Journaled, Unblocked;
      if !ValidDesired(d) {
        return Rejected(InvalidState);
      }
      var refusal := Refusal(record, d);
      if refusal.Some? {
        return Rejected(refusal.value);
      }
      AcceptedIsNewOrTop(record, d);
      v := Converge(TargetFor(record, d), true, now, healthy);
    }

    /** After a crash the agent finishes what it wrote ahead, or restores what it had applied. One
        fault-free pass succeeds exactly when nothing stands in the way of reading usage. */
    method Recover(now: nat, healthy: bool) returns (v: Verdict)
      requires Valid()
      modifies this
      ensures Valid() && Progresses() && Moves.Adds(old(moves), moves, Moves.Top(Shadow(old(record), old(table))))
      ensures v != Rejected(KernelAhead) && v != Rejected(KernelConflict) && v != Rejected(SaveRefused)
      ensures v == Idle <==> Top(old(record)).None?
      ensures v.Converged? ==>
        && Confirmed(compiler, record, Top(old(record)).value.desired, now)
        && Runs(compiler, table, traffic, fabric, record.applied.value.desired, now)
      ensures v == Idle ==> record == old(record) && table == old(table) && traffic == old(traffic) && fabric == old(fabric)
      ensures healthy && Top(old(record)).Some? ==>
        (v.Converged? <==> Ready(compiler, hasCleaner, old(record), old(table), old(traffic), old(fabric),
                                 Top(old(record)).value, now))
      ensures healthy && Top(old(record)).Some? && !Unblocked(compiler, old(record), old(table), Top(old(record)).value, now)
              && !v.Converged? ==>
        record == old(record) && table == old(table) && traffic == old(traffic) && fabric == old(fabric)
    {
      hide Ready, Runs, Restored, ValidNode, WrittenAhead, Unblocked;
      var target := Top(record);
      if target.None? {
        return Idle;
      }
      v := Converge(target.value, false, now, healthy);
    }

    /** Verifies every subsystem and repairs drift, without the controller. */
    method Audit(now: nat, healthy: bool) returns (v: Verdict)
      requires Valid()
      modifies this
      ensures Valid() && Progresses() && Moves.Adds(old(moves), moves, Moves.Top(Shadow(old(record), old(table))))
      ensures v != Rejected(KernelAhead) && v != Rejected(KernelConflict) && v != Rejected(SaveRefused)
      ensures v.Converged? ==>
        && Top(old(record)).Some? && Confirmed(compiler, record, Top(old(record)).value.desired, now)
        && Runs(compiler, table, traffic, fabric, record.applied.value.desired, now)
    {
      hide Ready, Runs, Restored, ValidNode, WrittenAhead, Unblocked;
      if record.pending.Some? {
        v := Converge(record.pending.value, false, now, healthy);
      } else if record.applied.Some? {
        v := Converge(record.applied.value, false, now, healthy);
      } else {
        v := Idle;
      }
    }

    /** Follows the wall clock: converges again only if the program changes with it. */
    method Refresh(now: nat, healthy: bool) returns (v: Verdict)
      requires Valid()
      modifies this
      ensures Valid() && Progresses() && Moves.Adds(old(moves), moves, Moves.Top(Shadow(old(record), old(table))))
      ensures v != Rejected(KernelAhead) && v != Rejected(KernelConflict) && v != Rejected(SaveRefused)
      ensures old(record).pending.None? && old(record).applied.Some?
              && old(record).applied.value.program == Some(compiler.ProgramAt(old(record).applied.value.desired, now)) ==>
        v == Idle && record == old(record) && table == old(table)
      ensures v.Converged? ==>
        && Top(old(record)).Some? && Confirmed(compiler, record, Top(old(record)).value.desired, now)
        && Runs(compiler, table, traffic, fabric, Top(old(record)).value.desired, now)
    {
      hide Ready, Runs, Restored, ValidNode, WrittenAhead, Unblocked;
      if record.pending.Some? {
        v := Converge(record.pending.value, false, now, healthy);
        return;
      }
      if record.applied.None? {
        return Idle;
      }
      if record.applied.value.program == Some(compiler.ProgramAt(record.applied.value.desired, now)) {
        return Idle;
      }
      v := Converge(record.applied.value, false, now, healthy);
    }

    // -------------------------------------------------------------- whole runs

    /** What may happen to the node between two calls: the machine restarts and the kernel forgets
        everything, or counters move. */
    method Environment(op: Op)
      requires Valid()
      modifies this`table, this`traffic, this`fabric, this`moves
      ensures Valid() && Progresses()
      ensures moves == if op.Reboot? then old(moves) + [Moves.Forget] else old(moves)
      ensures op.Reboot? ==> table == (if old(table) == Foreign then Foreign else Absent) && traffic.None? && fabric == map[]
      ensures !op.Reboot? ==> traffic == old(traffic) && fabric == old(fabric)
      ensures !op.Reboot? ==> table == if op.Count? && old(table).Managed? then old(table).(counters := op.counters) else old(table)
    {
      hide Shows;
      if op.Reboot? {
        ghost var before := table;
        table := if table.Foreign? then Foreign else Absent;
        traffic, fabric := None, map[];
        ShowsOne(moves, record, before, Moves.Forget, record, table);
        moves := moves + [Moves.Forget];
      } else if op.Count? && table.Managed? {
        ghost var before := table;
        table := table.(counters := op.counters);
        SameShadow(moves, record, before, record, table);
      }
    }

    /** Any number of deliveries, restarts, audits, collections, acknowledgements and crashes, in any order: the durable applied
        generation never decreases and a generation never carries two contents. */
    method Live(ops: seq<Op>, times: seq<nat>, healthy: seq<bool>)
      requires Valid() && |ops| == |times| == |healthy|
      modifies this
      ensures Valid() && Progresses()
      ensures table.Managed? ==> Top(record).Some? && table.program.desired.generation <= Top(record).value.desired.generation
      ensures table.Managed? && table.program.desired.generation == Top(record).value.desired.generation ==>
        table.program.desired == Top(record).value.desired
    {
      hide Ready, Runs, Restored, ValidNode, Unblocked, Storable, Numbered, Shows;
      ghost var start, first, made := journal, AppliedGeneration(record), moves;
      for i := 0 to |ops|
        invariant Valid()
        invariant first <= AppliedGeneration(record) && made <= moves
        invariant forall g :: g in start ==> g in journal && journal[g] == start[g]
      {
        match ops[i]
        case ApplyOp(d) => var v := Apply(d, times[i], healthy[i]);
        case RecoverOp => var v := Recover(times[i], healthy[i]);
        case AuditOp => var v := Audit(times[i], healthy[i]);
        case RefreshOp => var v := Refresh(times[i], healthy[i]);
        case CollectOp => var c := CollectUsage(times[i], healthy[i]);
        case AckOp(key) => var o, refused := AckUsage(key, healthy[i]);
        case Reboot => Environment(ops[i]);
        case Count(_) => Environment(ops[i]);
      }
    }
  }

  /** One metered counter, and nothing that stands in the way. */
  function Metered(): Compiler {
    Compiler((d: Desired) => true, (d: Desired, now: nat) => "", (d: Desired) => {"counter"}, (d: Desired) => "",
             (d: Desired) => map[], (d: Desired) => false)
  }

  /** A run, without any fault, that ends where no recovery gets out of: a state is applied and counts;
      a second one is delivered, its usage read and the state written ahead; then the machine restarts
      before the kernel is touched, and the agent recovers. */
  method RestartMidChange(first: Desired, second: Desired) returns (a: Agent, v: Verdict)
    requires ValidDesired(first) && ValidDesired(second) && first.node == second.node && first.generation < second.generation
    ensures fresh(a) && a.Valid() && a.compiler == Metered() && a.hasCleaner
    ensures a.record.applied.Some? && a.record.applied.value.desired == first
    ensures a.record.pending.Some? && a.record.pending.value.desired == second
    ensures !v.Converged?
    ensures forall now :: !Ready(a.compiler, true, a.record, a.table, a.traffic, a.fabric, a.record.pending.value, now)
  {
    hide ValidNode, Increasing, Journaled, WrittenAhead;
    a := new Agent(Metered(), true, false);
    var snapshot := Snapshot(first, None, None, None, false);
    assert Ready(a.compiler, true, a.record, a.table, a.traffic, a.fabric, snapshot, 0);
    v := a.Apply(first, 0, true);
    assert v.Converged?;
    a.Environment(Count(map["counter" := Meter.Value(1, 100)]));

    // the delivery of `second`, up to the write-ahead
    var target := Prepared(a.compiler, TargetFor(a.record, second), 1);
    assert a.table.counters.Keys * a.compiler.counters(first) == {"counter"};
    var c, current := a.CollectBefore(a.record, target, 1, true);
    assert c == Collected;
    var o, refused := a.WriteAhead(current, target, true);
    assert o == Ok;

    a.Environment(Reboot);
    forall now
      ensures !Ready(a.compiler, true, a.record, Absent, None, map[], a.record.pending.value, now)
    {
      RestartBlocks(a.compiler, true, a.record, a.record.pending.value, now);
    }
    v := a.Recover(2, true);
  }

  /** A machine restart in the middle of a change of programs is not survived: the table with the
      counters of the applied program is gone, and every later convergence waits for them. */
  lemma RestartBlocks(c: Compiler, hasCleaner: bool, r: Record, t: Snapshot, now: nat)
    requires r.applied.Some? && r.applied.value.program != Some(c.ProgramAt(t.desired, now))
    requires c.counters(r.applied.value.desired) != {}
    ensures !Ready(c, hasCleaner, r, Absent, None, map[], t, now)
  {
  }

  /** A process that dies between switching the table and committing the record recovers exactly when
      the new table still has a counter of the applied program, or that program had none. */
  lemma CrashAfterSwitch(c: Compiler, hasCleaner: bool, r: Record, table: Table, traffic: Option<string>, fabric: Resources,
                         now: nat)
    requires r.applied.Some? && r.pending.Some? && Compilable(c, r, r.pending.value) && |r.outbox| < MAX_USAGE_OUTBOX
    requires c.forced(r.pending.value.desired) ==> hasCleaner
    requires r.applied.value.desired.generation < r.pending.value.desired.generation
    requires r.applied.value.program != Some(c.ProgramAt(r.pending.value.desired, now))
    requires table.Managed? && table.program.desired == r.pending.value.desired
    requires table.counters.Keys == c.counters(r.pending.value.desired)
    ensures var before, after := c.counters(r.applied.value.desired), c.counters(r.pending.value.desired);
            Ready(c, hasCleaner, r, table, traffic, fabric, r.pending.value, now) <==> before == {} || after * before != {}
  {
  }

  /** Short of that, recovery is only ever blocked by a full outbox or by a foreign table. */
  lemma RecoveryUnblocked(c: Compiler, hasCleaner: bool, r: Record, table: Table, traffic: Option<string>, fabric: Resources,
                          now: nat)
    requires Top(r).Some? && Compilable(c, r, Top(r).value) && (c.forced(Top(r).value.desired) ==> hasCleaner)
    requires table.Managed? && |r.outbox| < MAX_USAGE_OUTBOX
    requires r.applied.Some? && table.program.desired == r.applied.value.desired
    requires table.counters.Keys == c.counters(table.program.desired)
    ensures Ready(c, hasCleaner, r, table, traffic, fabric, Top(r).value, now)
  {
    var wanted := c.counters(r.applied.value.desired);
    assert table.counters.Keys * wanted == wanted;
  }
}
