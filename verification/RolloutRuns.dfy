/** The promises of the rollout state machine over all its runs: any interleaving of advancer
    passes, failed publications, timeouts and acknowledgements, however late or repeated. */
module RolloutRuns {
  import opened Spec
  import opened RolloutPlan
  import opened RolloutMachine
  import opened RolloutInvariants

  lemma {:induction false} RunKeepsInv(s: Rollout, o: Origin, events: seq<Event>)
    requires Inv(s, o)
    ensures Inv(Run(s, events), o)
    ensures !OnTrack(s, o) ==> !OnTrack(Run(s, events), o)
    decreases |events|
  {
    hide ValidOrigin, RowsOk, Increasing, Extends, Covered, Carries, OnTrack, Reverting, Handle;
    if events != [] {
      HandleKeepsInv(s, o, events[0]);
      RunKeepsInv(Handle(s, events[0]), o, events[1..]);
    }
  }

  /** A finished rollout never changes its outcome and never publishes again. */
  lemma {:induction false} TerminalIsAbsorbing(s: Rollout, events: seq<Event>)
    requires s.current < |s.stages| && Terminal(s)
    ensures Run(s, events).status == s.status && Run(s, events).nodes == s.nodes
    decreases |events|
  {
    if events != [] {
      TerminalIsAbsorbing(Handle(s, events[0]), events[1..]);
    }
  }

  /** A stage leaves `Pending` only after every target of every earlier stage acknowledged. */
  lemma BarrierHolds(s: Rollout, o: Origin, i: nat, j: nat)
    requires Inv(s, o) && i < j < |o.plan| && s.stages[j].status != Pending
    ensures s.stages[i].status == Done && AllApplied(s.stages[i])
  {
    hide ValidOrigin, RowsOk, Increasing, Extends, Covered, Carries, Restoring, Fresh;
    if !OnTrack(s, o) {
      var f: nat :| Reverting(s, o, f);
      assert j <= f;
    }
  }

  // ---------------------------------------------------------------- no way back to the plan

  /** The generations the forward stages hold. */
  predicate SameForward(s: Rollout, t: Rollout, o: Origin) {
    && |s.stages| >= |o.plan| && |t.stages| >= |o.plan|
    && forall i :: 0 <= i < |o.plan| ==> SameGenerations(s.stages[i], t.stages[i])
  }

  predicate SameGenerations(a: StageRow, b: StageRow) {
    && a.rows.Keys == b.rows.Keys
    && forall n :: n in a.rows ==> a.rows[n].generation == b.rows[n].generation && a.rows[n].desired == b.rows[n].desired
  }

  lemma AckSameForward(s: Rollout, o: Origin, n: Id, g: nat, content: NodeState, outcome: Outcome)
    requires |s.stages| >= |o.plan| && s.current < |s.stages|
    ensures var t := Acknowledge(s, n, g, content, outcome); t.Some? ==> SameForward(s, t.value, o)
  {
    hide MatchAt, Acked, RequestRollback;
    var at := MatchAt(s.stages, n, g, outcome);
    if at.Some? {
      AckedForward(s, o, at.value, n, outcome);
    }
  }

  lemma AckedForward(s: Rollout, o: Origin, i: nat, n: Id, outcome: Outcome)
    requires |s.stages| >= |o.plan| && s.current < |s.stages| && i < |s.stages| && n in s.stages[i].rows
    ensures var t := s.(stages := s.stages[i := Acked(s.stages[i], n, outcome)]);
            SameForward(s, t, o) && SameForward(s, RequestRollback(t, i), o)
  {
  }

  /** Once a rollback was requested no forward stage is published again. */
  lemma {:induction false} NoForwardAfterRollback(s: Rollout, o: Origin, events: seq<Event>)
    requires Inv(s, o) && !OnTrack(s, o)
    ensures Inv(Run(s, events), o)
    ensures !OnTrack(Run(s, events), o) && SameForward(s, Run(s, events), o)
    decreases |events|
  {
    hide ValidOrigin, RowsOk, Increasing, Extends, Covered, Carries, OnTrack, Reverting, Advance, Acknowledge, SameGenerations;
    RunKeepsInv(s, o, events);
    if events == [] {
      SameForwardReflexive(s, o);
    } else {
      var t := Handle(s, events[0]);
      HandleKeepsInv(s, o, events[0]);
      HandleSameForward(s, o, events[0]);
      NoForwardAfterRollback(t, o, events[1..]);
      SameForwardTransitive(s, t, Run(s, events), o);
    }
  }

  lemma SameForwardReflexive(s: Rollout, o: Origin)
    requires |s.stages| >= |o.plan|
    ensures SameForward(s, s, o)
  {
  }

  lemma SameForwardTransitive(s: Rollout, t: Rollout, u: Rollout, o: Origin)
    requires SameForward(s, t, o) && SameForward(t, u, o)
    ensures SameForward(s, u, o)
  {
    forall i | 0 <= i < |o.plan|
      ensures SameGenerations(s.stages[i], u.stages[i])
    {
      assert SameGenerations(s.stages[i], t.stages[i]) && SameGenerations(t.stages[i], u.stages[i]);
    }
  }

  lemma HandleSameForward(s: Rollout, o: Origin, e: Event)
    requires Inv(s, o) && !OnTrack(s, o)
    ensures SameForward(s, Handle(s, e), o)
  {
    hide ValidOrigin, RowsOk, Increasing, Extends, Covered, Carries, OnTrack, Reverting, Advance, Acknowledge, SameGenerations;
    SameForwardReflexive(s, o);
    match e
    case Tick(now, stored, unhealthy) =>
      var f: nat :| Reverting(s, o, f);
      var r := Advance(s, now, stored, unhealthy);
      if r.Some? {
        AdvanceReverting(s, o, f, now, stored, unhealthy);
        SamePrefixSameForward(s, r.value, o);
      }
    case Ack(n, g, content, outcome) =>
      AckSameForward(s, o, n, g, content, outcome);
  }

  lemma SamePrefixSameForward(s: Rollout, t: Rollout, o: Origin)
    requires |s.stages| >= |o.plan| && |t.stages| >= |o.plan|
    requires t.stages[..|o.plan|] == s.stages[..|o.plan|]
    ensures SameForward(s, t, o)
  {
    forall i | 0 <= i < |o.plan|
      ensures t.stages[i] == s.stages[i]
    {
      assert t.stages[i] == t.stages[..|o.plan|][i];
    }
  }

  // ---------------------------------------------------------------- compensation

  /** Compensation targets exactly the nodes to which this rollout published a generation, and
      sends each of them its baseline. */
  lemma CompensationTargets(s: Rollout, o: Origin, n: Id)
    requires Inv(s, o) && |s.stages| > |o.plan|
    ensures |s.stages| == |o.plan| + 1
    ensures n in s.stages[|o.plan|].rows <==> Published(s.stages[..|o.plan|], n)
    ensures n in s.stages[|o.plan|].rows ==>
              n in o.baselines && SameUpToClass(s.stages[|o.plan|].rows[n].desired, o.baselines[n])
  {
    hide RowsOk, Increasing, Extends, Covered, SameUpToClass, Fresh;
    var f: nat :| Reverting(s, o, f);
    var front := s.stages[..|o.plan|];
    if Published(front, n) {
      var k :| 0 <= k < |front| && n in front[k].rows && front[k].rows[n].generation.Some?;
      assert Carries(s.stages[k], o.plan[k]) && PlannedStage(o.plan[k], o.baselines);
    }
  }

  /** `rolled_back` means: every node that received anything acknowledged its baseline, and that
      baseline is the last thing published to it. */
  lemma RolledBackIsAcknowledged(s: Rollout, o: Origin, n: Id)
    requires Inv(s, o) && s.status == RolledBack && Published(s.stages, n)
    ensures |s.stages| == |o.plan| + 1
    ensures var rows := s.stages[|o.plan|].rows;
            && n in rows && rows[n].status == Reported(Applied)
            && n in s.nodes && rows[n].generation == Some(|s.nodes[n]| - 1)
            && n in o.baselines && SameUpToClass(Latest(s.nodes[n]), o.baselines[n])
  {
    hide ValidOrigin, Carries, RowsOk, Increasing, Extends, Covered, SameUpToClass, Disturbed, Published;
    var f: nat :| Reverting(s, o, f);
    PublishedHasRow(s, o, n);
    CompensationTargets(s, o, n);
    CompensationRow(s, o, n);
  }

  lemma PublishedHasRow(s: Rollout, o: Origin, n: Id)
    requires |s.stages| == |o.plan| + 1 && Published(s.stages, n)
    ensures n in s.stages[|o.plan|].rows || Published(s.stages[..|o.plan|], n)
  {
    var p := |o.plan|;
    var k :| 0 <= k < |s.stages| && n in s.stages[k].rows && s.stages[k].rows[n].generation.Some?;
    assert k < p ==> s.stages[..p][k] == s.stages[k];
  }

  lemma CompensationRow(s: Rollout, o: Origin, n: Id)
    requires Sound(s, o) && |s.stages| == |o.plan| + 1
    requires Fresh(s.stages[|o.plan|], s.nodes) && n in s.stages[|o.plan|].rows
    ensures n in s.nodes && Latest(s.nodes[n]) == s.stages[|o.plan|].rows[n].desired
  {
    hide ValidOrigin, Carries, Increasing, Extends, Covered, SameUpToClass;
    assert RowsOk(s.stages[|o.plan|], s.nodes, o.nodes);
  }

  // ---------------------------------------------------------------- where compensation strands

  /** The compensation stage waits for acknowledgements, but the rollout no longer does. */
  predicate Stranded(s: Rollout, o: Origin) {
    && |s.stages| == |o.plan| + 1 && s.stages[|o.plan|].status == AwaitingAck
    && (s.status == RollbackPending || s.status == RollingBack)
  }

  lemma StrandedStep(s: Rollout, o: Origin, e: Event)
    requires Inv(s, o) && Stranded(s, o)
    ensures var t := Handle(s, e); (Stranded(t, o) && t.nodes == s.nodes) || t.status == Failed
  {
    hide ValidOrigin, RowsOk, Increasing, Extends, Covered, Carries, CompensationAt, Disturbed, Fresh, MatchAt,
         Advance, Acknowledge;
    var f: nat :| Reverting(s, o, f);
    match e
    case Tick(now, stored, unhealthy) => StrandedTick(s, o, f, now, stored, unhealthy);
    case Ack(n, g, content, outcome) => StrandedAck(s, o, f, n, g, content, outcome);
  }

  lemma StrandedTick(s: Rollout, o: Origin, f: nat, now: nat, stored: Cluster, unhealthy: bool)
    requires Sound(s, o) && Reverting(s, o, f) && Stranded(s, o)
    ensures var t := Advance(s, now, stored, unhealthy); t.Some? ==> Stranded(t.value, o) && t.value.nodes == s.nodes
  {
    hide ValidOrigin, RowsOk, Increasing, Extends, Covered, Carries, CompensationAt, Disturbed, Fresh, Barrier;
    LastIsCompensation(s.stages);
  }

  lemma StrandedAck(s: Rollout, o: Origin, f: nat, n: Id, g: nat, content: NodeState, outcome: Outcome)
    requires Sound(s, o) && Reverting(s, o, f) && Stranded(s, o)
    ensures var t := Acknowledge(s, n, g, content, outcome);
            t.Some? ==> (Stranded(t.value, o) && t.value.nodes == s.nodes) || t.value.status == Failed
  {
    hide ValidOrigin, RowsOk, Increasing, Extends, Covered, Carries, Disturbed, Fresh, MatchAt, AllApplied, Acked,
         Barrier, Stranded;
    var at := MatchAt(s.stages, n, g, outcome);
    if at.Some? {
      MatchIsAtBarrier(s, o, f, at.value, n, g, outcome);
      StrandedLength(s, o);
      if at.value < |o.plan| {
        NotCompensating(s, o, at.value);
      }
      StrandedAfterAck(s, o, at.value, n, outcome);
    }
  }

  lemma StrandedLength(s: Rollout, o: Origin)
    requires Stranded(s, o)
    ensures |s.stages| == |o.plan| + 1
  {
  }

  lemma StrandedAfterAck(s: Rollout, o: Origin, i: nat, n: Id, outcome: Outcome)
    requires Stranded(s, o) && s.autoRollback && i < |s.stages| && n in s.stages[i].rows
    requires i == |o.plan| <==> s.stages[i].phase == Compensate
    ensures var t := AfterAck(s, i, n, outcome); (Stranded(t, o) && t.nodes == s.nodes) || t.status == Failed
  {
  }

  /** An acknowledgement can still change a row only in the failed or in the compensation stage. */
  lemma MatchIsAtBarrier(s: Rollout, o: Origin, f: nat, i: nat, n: Id, g: nat, outcome: Outcome)
    requires Sound(s, o) && Reverting(s, o, f) && Stranded(s, o)
    requires i < |s.stages| && Matches(s.stages[i], n, g, outcome)
    ensures i <= f || i == |o.plan|
    ensures i < f ==> outcome == Applied && Acked(s.stages[i], n, outcome) == s.stages[i]
  {
    hide ValidOrigin, RowsOk, Increasing, Extends, Covered, Carries, Disturbed, Fresh, Restoring;
    if i < f {
      AckedSettled(s.stages[i], n, g, outcome);
    }
  }

  /** A stranded rollout is never reported as rolled back, whatever the nodes acknowledge. */
  lemma {:induction false} StrandedForever(s: Rollout, o: Origin, events: seq<Event>)
    requires Inv(s, o) && Stranded(s, o)
    ensures Run(s, events).status != RolledBack
    decreases |events|
  {
    hide ValidOrigin, RowsOk, Increasing, Extends, Covered, Carries, OnTrack, Reverting, Handle, Stranded;
    if events != [] {
      var t := Handle(s, events[0]);
      StrandedStep(s, o, events[0]);
      HandleKeepsInv(s, o, events[0]);
      if t.status == Failed {
        TerminalIsAbsorbing(t, events[1..]);
      } else {
        StrandedForever(t, o, events[1..]);
      }
    } else {
      NotRolledBack(s, o);
    }
  }

  lemma NotRolledBack(s: Rollout, o: Origin)
    requires Stranded(s, o)
    ensures s.status != RolledBack
  {
  }

  /** The compensation stage was sent and is still waiting for acknowledgements. */
  predicate CompensationOut(s: Rollout, o: Origin) {
    |s.stages| > |o.plan| && s.stages[|o.plan|].status == AwaitingAck
  }

  /** Once the compensation stage is released, the rollout can still reach `rolled_back` if and only if
      its status is the one of a rollout that waits for acknowledgements. */
  lemma {:induction false} CompensationFinishes(s: Rollout, o: Origin)
    requires Inv(s, o) && CompensationOut(s, o)
    ensures s.status == WaitingAcks <==> exists events :: Run(s, events).status == RolledBack
  {
    hide ValidOrigin, RowsOk, Increasing, Extends, Covered, Carries, Disturbed, Fresh, Run, AllApplied;
    var f: nat :| Reverting(s, o, f);
    if s.status == WaitingAcks {
      CanFinish(s, o);
    } else {
      forall events
        ensures Run(s, events).status != RolledBack
      {
        StrandedForever(s, o, events);
      }
    }
  }

  /** The targets that have not acknowledged success. */
  function Outstanding(st: StageRow): set<Id> {
    set n | n in st.rows && st.rows[n].status != Reported(Applied)
  }

  /** If everybody acknowledges, it does. */
  lemma {:induction false} CanFinish(s: Rollout, o: Origin)
    requires Inv(s, o) && CompensationOut(s, o) && s.status == WaitingAcks
    ensures exists events :: Run(s, events).status == RolledBack
    decreases Outstanding(s.stages[|o.plan|])
  {
    hide ValidOrigin, RowsOk, Increasing, Extends, Covered, Carries, Disturbed, Fresh, Run, Handle, Inv;
    var p := |o.plan|;
    if Outstanding(s.stages[p]) == {} {
      var e := Tick(0, map[], false);
      LastTick(s, o);
      OneEvent(s, e);
      assert Run(s, [e]).status == RolledBack;
    } else {
      var n :| n in Outstanding(s.stages[p]);
      TargetIsKnown(s, o, n);
      var g := s.stages[p].rows[n].generation.value;
      var e := Ack(n, g, s.nodes[n][g], Applied);
      assert Sound(s, o) by { InvIsSound(s, o); }
      TargetAcknowledges(s, o, n);
      HandleKeepsInv(s, o, e);
      var t := Handle(s, e);
      assert Outstanding(t.stages[p]) <= Outstanding(s.stages[p]) - {n};
      CanFinish(t, o);
      var events :| Run(t, events).status == RolledBack;
      EventFirst(s, e, events);
      assert Run(s, [e] + events).status == RolledBack;
    }
  }

  lemma {:induction false} EventFirst(s: Rollout, e: Event, events: seq<Event>)
    requires s.current < |s.stages|
    ensures Run(s, [e] + events) == Run(Handle(s, e), events)
  {
    assert ([e] + events)[1..] == events;
  }

  lemma LastTick(s: Rollout, o: Origin)
    requires Inv(s, o) && CompensationOut(s, o) && s.status == WaitingAcks && Outstanding(s.stages[|o.plan|]) == {}
    ensures s.current < |s.stages| && Handle(s, Tick(0, map[], false)).status == RolledBack
  {
    hide ValidOrigin, RowsOk, Increasing, Extends, Covered, Carries, Disturbed, Fresh;
    var f: nat :| Reverting(s, o, f);
    assert AllApplied(s.stages[|o.plan|]) by {
      forall n | n in s.stages[|o.plan|].rows
        ensures s.stages[|o.plan|].rows[n].status == Reported(Applied)
      {
        assert n !in Outstanding(s.stages[|o.plan|]);
      }
    }
  }

  lemma TargetIsKnown(s: Rollout, o: Origin, n: Id)
    requires Inv(s, o) && CompensationOut(s, o) && s.status == WaitingAcks && n in s.stages[|o.plan|].rows
    ensures s.current == |o.plan| < |s.stages|
    ensures s.stages[|o.plan|].rows[n].generation.Some? && n in s.nodes
    ensures 0 < s.stages[|o.plan|].rows[n].generation.value < |s.nodes[n]|
  {
    hide ValidOrigin, Increasing, Extends, Covered, Carries, Disturbed;
    var f: nat :| Reverting(s, o, f);
    assert Fresh(s.stages[|o.plan|], s.nodes) && RowsOk(s.stages[|o.plan|], s.nodes, o.nodes);
  }

  lemma InvIsSound(s: Rollout, o: Origin)
    requires Inv(s, o)
    ensures Sound(s, o)
  {
    hide Sound, OnTrack, Reverting;
  }

  lemma TargetAcknowledges(s: Rollout, o: Origin, n: Id)
    requires Sound(s, o) && CompensationOut(s, o) && s.status == WaitingAcks && n in s.stages[|o.plan|].rows
    requires s.stages[|o.plan|].rows[n].generation.Some? && n in s.nodes && s.current < |s.stages|
    requires 0 < s.stages[|o.plan|].rows[n].generation.value < |s.nodes[n]|
    ensures var p, g := |o.plan|, s.stages[|o.plan|].rows[n].generation.value;
            Handle(s, Ack(n, g, s.nodes[n][g], Applied)) == s.(stages := s.stages[p := Acked(s.stages[p], n, Applied)])
  {
    hide ValidOrigin, RowsOk, Increasing, Extends, Covered, Carries, Disturbed, Fresh, MatchAt, ValidNode;
    var p, g := |o.plan|, s.stages[|o.plan|].rows[n].generation.value;
    assert Matches(s.stages[p], n, g, Applied);
    var at := MatchAt(s.stages, n, g, Applied);
    assert at.Some?;
    UniqueMatch(s, o, at.value, p, n, g);
  }

  lemma {:induction false} OneEvent(s: Rollout, e: Event)
    requires s.current < |s.stages|
    ensures Run(s, [e]) == Handle(s, e)
  {
    assert [e][1..] == [];
  }

  /** How it gets there: a node of the stage that failed reports a permanent error for that older
      generation after the compensation stage was released. */
  lemma LateErrorStrands(s: Rollout, o: Origin, f: nat, n: Id, g: nat)
    requires Inv(s, o) && Reverting(s, o, f) && |s.stages| > |o.plan| && s.status == WaitingAcks
    requires Matches(s.stages[f], n, g, PermanentError)
    ensures var content := if n in s.nodes && g < |s.nodes[n]| then s.nodes[n][g] else EmptyState();
            Stranded(Handle(s, Ack(n, g, content, PermanentError)), o)
  {
    hide ValidOrigin, Extends, Covered, Carries, Disturbed, Increasing, SameUpToClass, MatchAt, Settled, Untouched, Fresh;
    assert RowsOk(s.stages[f], s.nodes, o.nodes);
    var at := MatchAt(s.stages, n, g, PermanentError);
    assert at.Some?;
    NotCompensating(s, o, f);
    UniqueMatch(s, o, at.value, f, n, g);
  }

  /** A generation belongs to one stage only. */
  lemma UniqueMatch(s: Rollout, o: Origin, i: nat, j: nat, n: Id, g: nat)
    requires Sound(s, o) && i < |s.stages| && j < |s.stages|
    requires n in s.stages[i].rows && s.stages[i].rows[n].generation == Some(g)
    requires n in s.stages[j].rows && s.stages[j].rows[n].generation == Some(g)
    ensures i == j
  {
    hide ValidOrigin, RowsOk, Extends, Covered, Carries;
    if i < j || j < i {
      assert false;
    }
  }
}
