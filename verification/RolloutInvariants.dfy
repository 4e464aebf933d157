/** What every run of the rollout state machine keeps: the barrier between stages, and the order
    of compensation. */
module RolloutInvariants {
  import opened Spec
  import opened RolloutPlan
  import opened RolloutMachine

  /** What a rollout is scheduled from: its plan, and for every node it may touch the state last
      published there, which becomes the baseline. */
  datatype Origin = Origin(plan: seq<Stage>, baselines: Cluster, nodes: map<Id, History>)

  predicate ValidOrigin(o: Origin) {
    && o.plan != []
    && (forall i :: 0 <= i < |o.plan| ==> PlannedStage(o.plan[i], o.baselines))
    && (forall n :: n in o.baselines ==> n in o.nodes && o.baselines[n] == Latest(o.nodes[n]))
  }

  predicate PlannedStage(p: Stage, baselines: Cluster) {
    && p.phase != Compensate
    && p.desired.Keys <= baselines.Keys
    && (p.phase == Bake ==> p.desired == map[])
  }

  predicate RowOk(row: Row, h: History, base: History) {
    match row.generation
    case None => row.status == Queued
    case Some(g) => row.status != Queued && |base| <= g < |h| && h[g] == row.desired
  }

  predicate RowsOk(st: StageRow, nodes: map<Id, History>, base: map<Id, History>) {
    forall n :: n in st.rows ==> n in nodes && n in base && RowOk(st.rows[n], nodes[n], base[n])
  }

  /** The stage carries what it was planned to publish. */
  predicate Carries(st: StageRow, p: Stage) {
    && st.wave == p.wave && st.phase == p.phase && st.bakeSeconds == p.bakeSeconds
    && st.rows.Keys == p.desired.Keys
    && forall n :: n in st.rows ==> SameUpToClass(st.rows[n].desired, p.desired[n])
  }

  predicate Untouched(st: StageRow) {
    st.status == Pending && forall n :: n in st.rows ==> st.rows[n].generation.None?
  }

  predicate Settled(st: StageRow) {
    st.status == Done && AllApplied(st)
  }

  /** Every target holds the generation published last to its node. */
  predicate Fresh(st: StageRow, nodes: map<Id, History>) {
    forall n :: n in st.rows ==> n in nodes && st.rows[n].generation == Some(|nodes[n]| - 1)
  }

  /** Later stages carry later generations. */
  predicate Increasing(stages: seq<StageRow>) {
    forall i, j, n :: 0 <= i < j < |stages| && n in stages[i].rows && n in stages[j].rows &&
                      stages[i].rows[n].generation.Some? && stages[j].rows[n].generation.Some? ==>
      stages[i].rows[n].generation.value < stages[j].rows[n].generation.value
  }

  predicate Extends(nodes: map<Id, History>, base: map<Id, History>, stages: seq<StageRow>) {
    && nodes.Keys == base.Keys
    && forall n :: n in nodes ==>
         && base[n] <= nodes[n]
         && (!Published(stages, n) ==> nodes[n] == base[n])
  }

  predicate Carried(stages: seq<StageRow>, node: Id, generation: nat) {
    exists k :: 0 <= k < |stages| && node in stages[k].rows && stages[k].rows[node].generation == Some(generation)
  }

  /** Nobody but the rollout has published anything since it was scheduled. */
  ghost predicate Covered(nodes: map<Id, History>, base: map<Id, History>, stages: seq<StageRow>) {
    forall n, g: nat :: n in nodes && n in base && |base[n]| <= g < |nodes[n]| ==> Carried(stages, n, g)
  }

  ghost predicate Sound(s: Rollout, o: Origin) {
    && ValidOrigin(o)
    && s.baselines == o.baselines
    && |s.stages| >= |o.plan|
    && s.current < |s.stages|
    && (forall i :: 0 <= i < |s.stages| ==> RowsOk(s.stages[i], s.nodes, o.nodes))
    && (forall i :: 0 <= i < |o.plan| ==> Carries(s.stages[i], o.plan[i]))
    && Increasing(s.stages)
    && Extends(s.nodes, o.nodes, s.stages)
    && Covered(s.nodes, o.nodes, s.stages)
  }

  /** Stages before `c` are settled, those after it untouched. */
  predicate Barrier(s: Rollout, o: Origin, c: nat)
    requires |s.stages| >= |o.plan|
  {
    && c < |o.plan|
    && (forall i :: 0 <= i < c ==> Settled(s.stages[i]))
    && (forall i :: c < i < |o.plan| ==> Untouched(s.stages[i]))
  }

  /** No rollback was requested so far. */
  predicate OnTrack(s: Rollout, o: Origin)
    requires |s.stages| >= |o.plan| && s.current < |s.stages|
  {
    && |s.stages| == |o.plan|
    && Barrier(s, o, s.current)
    && var st := s.stages[s.current];
       match s.status
       case Publishing => Untouched(st) || (Settled(st) && st.rows == map[])
       case WaitingAcks => st.status == AwaitingAck && st.phase != Bake && Fresh(st, s.nodes)
       case Soaking => st.status == Baking && st.phase == Bake
       case Completed => Settled(st) && s.current == |o.plan| - 1
       case _ => false
  }

  /** The stage that sends every disturbed node back to its baseline. */
  predicate Restoring(s: Rollout, o: Origin)
    requires |s.stages| > |o.plan|
  {
    var st := s.stages[|o.plan|];
    && st.phase == Compensate
    && st.rows.Keys == Disturbed(s.stages[..|o.plan|], o.baselines).Keys
    && (forall n :: n in st.rows ==> SameUpToClass(st.rows[n].desired, o.baselines[n]))
    && Fresh(st, s.nodes)
    && match st.status
       case AwaitingAck =>
         (s.status == WaitingAcks || s.status == RollingBack || s.status == RollbackPending) && s.current == |o.plan|
       case Done =>
         s.current == |o.plan| && AllApplied(st) && (s.status == RolledBack || (s.status == RollingBack && st.rows == map[]))
       case Faulted => s.status == Failed
       case _ => false
  }

  /** A rollback was requested when stage `f` failed. */
  predicate Reverting(s: Rollout, o: Origin, f: nat)
    requires |s.stages| >= |o.plan|
  {
    && Barrier(s, o, f)
    && s.stages[f].status == Faulted
    && (!s.autoRollback ==> |s.stages| == |o.plan| && s.status == Failed)
    && (|s.stages| == |o.plan| ==> s.status == RollbackPending || s.status == Failed)
    && (|s.stages| > |o.plan| ==> |s.stages| == |o.plan| + 1 && Restoring(s, o))
  }

  ghost predicate Inv(s: Rollout, o: Origin) {
    Sound(s, o) && (OnTrack(s, o) || exists f: nat :: Reverting(s, o, f))
  }

  /** Rewriting rows without taking generations away covers as much as before. */
  lemma StillCovered(nodes: map<Id, History>, base: map<Id, History>, a: seq<StageRow>, b: seq<StageRow>)
    requires Covered(nodes, base, a) && |a| <= |b|
    requires forall k, n :: 0 <= k < |a| && n in a[k].rows ==> n in b[k].rows && b[k].rows[n].generation == a[k].rows[n].generation
    ensures Covered(nodes, base, b)
    ensures forall n :: Published(a, n) ==> Published(b, n)
  {
    forall n | Published(a, n)
      ensures Published(b, n)
    {
      var k :| 0 <= k < |a| && n in a[k].rows && a[k].rows[n].generation.Some?;
      assert n in b[k].rows;
    }
    forall n, g: nat | n in nodes && n in base && |base[n]| <= g < |nodes[n]|
      ensures Carried(b, n, g)
    {
      assert Carried(a, n, g);
      var k :| 0 <= k < |a| && n in a[k].rows && a[k].rows[n].generation == Some(g);
      assert n in b[k].rows;
    }
  }

  lemma ScheduledInv(o: Origin, autoRollback: bool)
    requires ValidOrigin(o)
    ensures Inv(Scheduled(o.plan, autoRollback, o.baselines, o.nodes), o)
    ensures OnTrack(Scheduled(o.plan, autoRollback, o.baselines, o.nodes), o)
  {
    hide SameUpToClass, ValidOrigin;
    var s := Scheduled(o.plan, autoRollback, o.baselines, o.nodes);
    forall i | 0 <= i < |o.plan|
      ensures Carries(s.stages[i], o.plan[i]) && RowsOk(s.stages[i], s.nodes, o.nodes) && Untouched(s.stages[i])
    {
      QueuedIsUntouched(o, i);
    }
    assert o.plan != [] by { PlanNonempty(o); }
  }

  lemma PlanNonempty(o: Origin)
    requires ValidOrigin(o)
    ensures o.plan != []
  {
  }

  lemma QueuedIsUntouched(o: Origin, i: nat)
    requires ValidOrigin(o) && i < |o.plan|
    ensures var st := QueuedStage(o.plan[i]);
            Carries(st, o.plan[i]) && RowsOk(st, o.nodes, o.nodes) && Untouched(st)
  {
    assert PlannedStage(o.plan[i], o.baselines);
  }

  // ---------------------------------------------------------------- publishing keeps it

  /** The transaction that sends a stage to its targets. */
  function Sending(s: Rollout, i: nat, now: nat, stored: Cluster): Rollout
    requires i < |s.stages| && CanPublish(s.stages[i], s.nodes, stored)
  {
    s.(status := WaitingAcks, current := i, bakeUntil := None,
       nodes := Grown(s.stages[i], s.nodes, stored),
       stages := s.stages[i := s.stages[i].(status := AwaitingAck, startedAt := now,
                                            rows := SentRows(s.stages[i], s.nodes, stored))])
  }

  ghost predicate Ready(s: Rollout, o: Origin, i: nat, stored: Cluster) {
    && Sound(s, o) && i < |s.stages| && Untouched(s.stages[i])
    && (forall k :: i < k < |s.stages| ==> Untouched(s.stages[k]))
    && CanPublish(s.stages[i], s.nodes, stored)
  }

  lemma AllTargets(s: Rollout, o: Origin, i: nat)
    requires Sound(s, o) && i < |s.stages| && Untouched(s.stages[i])
    ensures Targets(s.stages[i]) == s.stages[i].rows.Keys
  {
    hide Increasing, Carries, Extends, ValidOrigin;
    assert RowsOk(s.stages[i], s.nodes, o.nodes);
  }

  lemma SendingRows(s: Rollout, o: Origin, i: nat, now: nat, stored: Cluster, k: nat)
    requires Ready(s, o, i, stored) && k < |s.stages|
    ensures var t := Sending(s, i, now, stored); RowsOk(t.stages[k], t.nodes, o.nodes)
  {
    hide Increasing, Carries, ValidOrigin, SameUpToClass, ValidNode, Published;
    AllTargets(s, o, i);
    var t := Sending(s, i, now, stored);
    assert RowsOk(s.stages[k], s.nodes, o.nodes) && Extends(s.nodes, o.nodes, s.stages);
    forall n | n in t.stages[k].rows
      ensures n in t.nodes && n in o.nodes && RowOk(t.stages[k].rows[n], t.nodes[n], o.nodes[n])
    {
      assert RowOk(s.stages[k].rows[n], s.nodes[n], o.nodes[n]);
      assert o.nodes[n] <= s.nodes[n];
    }
  }

  lemma SendingIncreasing(s: Rollout, o: Origin, i: nat, now: nat, stored: Cluster)
    requires Ready(s, o, i, stored)
    ensures Increasing(Sending(s, i, now, stored).stages)
  {
    hide Carries, ValidOrigin, SameUpToClass, ValidNode, Extends;
    AllTargets(s, o, i);
    var t := Sending(s, i, now, stored);
    forall a, b, n | 0 <= a < b < |t.stages| && n in t.stages[a].rows && n in t.stages[b].rows &&
                     t.stages[a].rows[n].generation.Some? && t.stages[b].rows[n].generation.Some?
      ensures t.stages[a].rows[n].generation.value < t.stages[b].rows[n].generation.value
    {
      assert b <= i;
      assert RowsOk(s.stages[a], s.nodes, o.nodes);
    }
  }

  lemma SendingExtends(s: Rollout, o: Origin, i: nat, now: nat, stored: Cluster)
    requires Ready(s, o, i, stored)
    ensures var t := Sending(s, i, now, stored); Extends(t.nodes, o.nodes, t.stages)
    ensures var t := Sending(s, i, now, stored); Fresh(t.stages[i], t.nodes)
    ensures forall n :: Published(s.stages, n) ==> Published(Sending(s, i, now, stored).stages, n)
  {
    hide Published, Fresh, RowsOk, Carries, ValidOrigin, Increasing, Covered, Storable, Untouched, Targets, Grown, SentRows;
    var t := Sending(s, i, now, stored);
    SendingPublishes(s, o, i, now, stored);
    SendingFresh(s, o, i, now, stored);
    forall n | n in t.nodes
      ensures o.nodes[n] <= t.nodes[n] && (!Published(t.stages, n) ==> t.nodes[n] == o.nodes[n])
    {
      SendingGrows(s, o, i, now, stored, n);
    }
  }

  lemma SendingFresh(s: Rollout, o: Origin, i: nat, now: nat, stored: Cluster)
    requires Ready(s, o, i, stored)
    ensures var t := Sending(s, i, now, stored); Fresh(t.stages[i], t.nodes)
  {
    hide Carries, ValidOrigin, Increasing, Covered, Storable, Extends;
    AllTargets(s, o, i);
    assert RowsOk(s.stages[i], s.nodes, o.nodes);
  }

  lemma SendingGrows(s: Rollout, o: Origin, i: nat, now: nat, stored: Cluster, n: Id)
    requires Ready(s, o, i, stored) && n in s.nodes && n in o.nodes
    ensures var t := Sending(s, i, now, stored);
            && s.nodes[n] <= t.nodes[n]
            && (!Published(t.stages, n) ==> t.nodes[n] == s.nodes[n])
  {
    hide RowsOk, Carries, ValidOrigin, Increasing, Covered, Storable, Extends;
    AllTargets(s, o, i);
    var t := Sending(s, i, now, stored);
    assert n in t.stages[i].rows && n in Targets(s.stages[i]) ==> t.stages[i].rows[n].generation.Some?;
  }

  lemma SendingPublishes(s: Rollout, o: Origin, i: nat, now: nat, stored: Cluster)
    requires Ready(s, o, i, stored)
    ensures forall n :: Published(s.stages, n) ==> Published(Sending(s, i, now, stored).stages, n)
  {
    hide Sound, CanPublish, Grown, SentRows;
    var t := Sending(s, i, now, stored);
    forall n | Published(s.stages, n)
      ensures Published(t.stages, n)
    {
      var k :| 0 <= k < |s.stages| && n in s.stages[k].rows && s.stages[k].rows[n].generation.Some?;
      assert t.stages[k] == s.stages[k];
    }
  }

  lemma SendingCovered(s: Rollout, o: Origin, i: nat, now: nat, stored: Cluster)
    requires Ready(s, o, i, stored)
    ensures var t := Sending(s, i, now, stored); Covered(t.nodes, o.nodes, t.stages)
  {
    hide Carries, ValidOrigin, SameUpToClass, ValidNode, Increasing, Extends, RowsOk;
    AllTargets(s, o, i);
    var t := Sending(s, i, now, stored);
    forall n, g: nat | n in t.nodes && n in o.nodes && |o.nodes[n]| <= g < |t.nodes[n]|
      ensures Carried(t.stages, n, g)
    {
      if g < |s.nodes[n]| {
        assert Carried(s.stages, n, g);
        var k :| 0 <= k < |s.stages| && n in s.stages[k].rows && s.stages[k].rows[n].generation == Some(g);
        assert t.stages[k] == s.stages[k];
      } else {
        assert n in t.stages[i].rows && t.stages[i].rows[n].generation == Some(g);
      }
    }
  }

  lemma SendingSound(s: Rollout, o: Origin, i: nat, now: nat, stored: Cluster)
    requires Ready(s, o, i, stored)
    ensures var t := Sending(s, i, now, stored);
            && Sound(t, o) && Fresh(t.stages[i], t.nodes)
            && t.stages[i].rows.Keys == s.stages[i].rows.Keys
            && (forall n :: n in t.stages[i].rows ==> SameUpToClass(t.stages[i].rows[n].desired, s.stages[i].rows[n].desired))
  {
    hide ValidOrigin, WithoutClasses, ValidNode, Increasing, Extends, RowsOk, Fresh, Covered;
    SendingCovered(s, o, i, now, stored);
    var t := Sending(s, i, now, stored);
    AllTargets(s, o, i);
    SendingIncreasing(s, o, i, now, stored);
    SendingExtends(s, o, i, now, stored);
    forall k | 0 <= k < |t.stages|
      ensures RowsOk(t.stages[k], t.nodes, o.nodes)
    {
      SendingRows(s, o, i, now, stored, k);
    }
    forall k | 0 <= k < |o.plan|
      ensures Carries(t.stages[k], o.plan[k])
    {
      assert Carries(s.stages[k], o.plan[k]);
    }
  }

  /** A stage row changed without touching its targets. */
  lemma RestatusSound(s: Rollout, o: Origin, i: nat, status: StageStatus, startedAt: nat)
    requires Sound(s, o) && i < |s.stages|
    ensures Sound(s.(stages := s.stages[i := s.stages[i].(status := status, startedAt := startedAt)]), o)
  {
    hide ValidOrigin, SameUpToClass, RowOk, Covered, Published, Increasing;
    var st := s.stages[i].(status := status, startedAt := startedAt);
    var t := s.(stages := s.stages[i := st]);
    assert forall k :: 0 <= k < |s.stages| ==> t.stages[k].rows == s.stages[k].rows;
    StillCovered(s.nodes, o.nodes, s.stages, t.stages);
    RestatusIncreasing(s.stages, t.stages);
    forall k | 0 <= k < |t.stages|
      ensures RowsOk(t.stages[k], t.nodes, o.nodes)
      ensures k < |o.plan| ==> Carries(t.stages[k], o.plan[k])
    {
      assert RowsOk(s.stages[k], s.nodes, o.nodes);
      assert k < |o.plan| ==> Carries(s.stages[k], o.plan[k]);
    }
  }

  lemma RestatusIncreasing(a: seq<StageRow>, b: seq<StageRow>)
    requires Increasing(a) && |a| == |b| && forall k :: 0 <= k < |a| ==> b[k].rows == a[k].rows
    ensures Increasing(b)
  {
  }

  // ---------------------------------------------------------------- the forward path

  lemma PublishForward(s: Rollout, o: Origin, now: nat, stored: Cluster)
    requires Sound(s, o) && |s.stages| == |o.plan| && s.status == Publishing
    requires Barrier(s, o, s.current) && Untouched(s.stages[s.current])
    requires Publish(s, s.current, now, stored).Some?
    ensures var t := Publish(s, s.current, now, stored).value; Sound(t, o) && OnTrack(t, o)
  {
    hide ValidOrigin, SameUpToClass, RowsOk, Increasing, Covered, Extends, ValidNode, Grown, SentRows;
    var i := s.current;
    var st := s.stages[i];
    AllTargets(s, o, i);
    if st.phase == Bake {
      RestatusSound(s, o, i, Baking, now);
    } else if Targets(st) == {} {
      RestatusSound(s, o, i, Done, now);
    } else {
      SendingSound(s, o, i, now, stored);
    }
  }

  lemma CompleteForward(s: Rollout, o: Origin, now: nat, stored: Cluster)
    requires Sound(s, o) && |s.stages| == |o.plan| && Barrier(s, o, s.current)
    requires AllApplied(s.stages[s.current])
    requires Finish(s, s.current, now, stored).Some?
    ensures var t := Finish(s, s.current, now, stored).value; Sound(t, o) && OnTrack(t, o)
  {
    hide ValidOrigin, SameUpToClass, RowsOk, Increasing, Covered, Extends, ValidNode, Publish, Carries;
    var i := s.current;
    NotCompensating(s, o, i);
    RestatusSound(s, o, i, Done, s.stages[i].startedAt);
    var d := s.(stages := s.stages[i := s.stages[i].(status := Done)]);
    var next := NextPending(d.stages, i + 1);
    if next.Some? {
      assert next.value == i + 1;
      var e := d.(status := Publishing, current := i + 1, bakeUntil := None);
      PublishForward(e, o, now, stored);
    } else {
      assert i + 1 < |s.stages| ==> Untouched(s.stages[i + 1]);
    }
  }

  lemma NotCompensating(s: Rollout, o: Origin, i: nat)
    requires Sound(s, o) && i < |o.plan|
    ensures s.stages[i].phase != Compensate
    ensures s.stages[i].phase == Bake ==> s.stages[i].rows == map[]
  {
    hide SameUpToClass, RowsOk, Increasing, Covered, Extends;
    assert Carries(s.stages[i], o.plan[i]) && PlannedStage(o.plan[i], o.baselines);
  }

  /** Requesting a rollback for the stage at the barrier, or for the one that failed before. */
  lemma RollbackSound(s: Rollout, o: Origin, i: nat)
    requires Sound(s, o) && i < |s.stages|
    ensures Sound(RequestRollback(s, i), o)
  {
    hide ValidOrigin, SameUpToClass, RowsOk, Increasing, Covered, Extends, Carries;
    RestatusSound(s, o, i, Faulted, s.stages[i].startedAt);
  }

  lemma RollbackForward(s: Rollout, o: Origin)
    requires Sound(s, o) && OnTrack(s, o)
    ensures var t := RequestRollback(s, s.current); Sound(t, o) && Reverting(t, o, s.current)
  {
    hide ValidOrigin, SameUpToClass, RowsOk, Increasing, Covered, Extends, Carries;
    RollbackSound(s, o, s.current);
    NotCompensating(s, o, s.current);
  }

  lemma AdvanceOnTrack(s: Rollout, o: Origin, now: nat, stored: Cluster, unhealthy: bool)
    requires Sound(s, o) && OnTrack(s, o) && Advance(s, now, stored, unhealthy).Some?
    ensures var t := Advance(s, now, stored, unhealthy).value;
            Sound(t, o) && (OnTrack(t, o) || Reverting(t, o, s.current))
  {
    hide ValidOrigin, SameUpToClass, RowsOk, Increasing, Covered, Extends, Carries, Publish, Finish, RequestRollback;
    RollbackForward(s, o);
    NotCompensating(s, o, s.current);
    match s.status
    case Publishing =>
      if s.stages[s.current].status == Done {
        CompleteForward(s, o, now, stored);
      } else {
        PublishForward(s, o, now, stored);
      }
    case WaitingAcks =>
      if AllApplied(s.stages[s.current]) {
        CompleteForward(s, o, now, stored);
      }
    case Soaking =>
      if Advance(s, now, stored, unhealthy) == Finish(s, s.current, now, stored) {
        CompleteForward(s, o, now, stored);
      }
    case _ =>
  }

  // ---------------------------------------------------------------- compensation

  lemma NoCompensationYet(s: Rollout, o: Origin)
    requires Sound(s, o) && |s.stages| == |o.plan|
    ensures CompensationAt(s.stages).None?
  {
    hide ValidOrigin, SameUpToClass, RowsOk, Increasing, Covered, Extends;
    forall k | 0 <= k < |s.stages|
      ensures s.stages[k].phase != Compensate
    {
      NotCompensating(s, o, k);
    }
  }

  /** The compensation stage starts out as the baselines of the disturbed nodes. */
  lemma CompensatingSound(s: Rollout, o: Origin)
    requires Sound(s, o) && |s.stages| == |o.plan|
    ensures var t := Compensating(s);
            && Sound(t, o) && t.current == |o.plan| && |t.stages| == |o.plan| + 1
            && t.stages[..|o.plan|] == s.stages && t.status == RollingBack && t.autoRollback == s.autoRollback
            && Untouched(t.stages[|o.plan|]) && t.stages[|o.plan|].phase == Compensate
            && t.stages[|o.plan|].rows == QueuedRows(Disturbed(s.stages, o.baselines))
  {
    hide SameUpToClass, RowsOk, Carries, ValidNode, Covered, Increasing, Extends, Compensating, QueuedRows, Disturbed, Published, ValidOrigin;
    var t := Compensating(s);
    CompensatingShape(s, o);
    assert forall k :: 0 <= k < |s.stages| ==> t.stages[k] == s.stages[k];
    StillCovered(s.nodes, o.nodes, s.stages, t.stages);
    NewStage(s.stages, t.stages, s.nodes, o.nodes);
    NewRowsOk(t.stages[|o.plan|], s, o);
  }

  /** A stage that has sent nothing yet disturbs no order and no count. */
  lemma NewStage(a: seq<StageRow>, b: seq<StageRow>, nodes: map<Id, History>, base: map<Id, History>)
    requires |b| == |a| + 1 && forall k :: 0 <= k < |a| ==> b[k] == a[k]
    requires Untouched(b[|a|]) && Increasing(a) && Extends(nodes, base, a)
    requires forall n :: Published(a, n) ==> Published(b, n)
    ensures Increasing(b) && Extends(nodes, base, b)
  {
    hide Published;
  }

  lemma CompensatingShape(s: Rollout, o: Origin)
    requires Sound(s, o) && |s.stages| == |o.plan|
    ensures var t := Compensating(s);
            && t.current == |o.plan| && |t.stages| == |o.plan| + 1
            && t.stages[..|o.plan|] == s.stages && t.status == RollingBack && t.autoRollback == s.autoRollback
            && t.nodes == s.nodes && t.baselines == s.baselines
            && Untouched(t.stages[|o.plan|]) && t.stages[|o.plan|].phase == Compensate
            && t.stages[|o.plan|].rows == QueuedRows(Disturbed(s.stages, o.baselines))
            && forall n :: n in t.stages[|o.plan|].rows ==>
                 n in s.baselines && t.stages[|o.plan|].rows[n].generation.None? && t.stages[|o.plan|].rows[n].status == Queued
  {
    hide SameUpToClass, RowOk, Carries, ValidNode, Covered, RowsOk, Increasing;
    NoCompensationYet(s, o);
  }

  lemma NewRowsOk(st: StageRow, s: Rollout, o: Origin)
    requires Sound(s, o) && forall n :: n in st.rows ==> n in s.baselines && st.rows[n].generation.None? && st.rows[n].status == Queued
    ensures RowsOk(st, s.nodes, o.nodes)
  {
    hide Carries, Increasing, Covered;
  }

  lemma CompensatePublish(s: Rollout, o: Origin, f: nat, now: nat, stored: Cluster)
    requires Sound(s, o) && |s.stages| == |o.plan| && Reverting(s, o, f) && s.status == RollbackPending
    requires Publish(Compensating(s), Compensating(s).current, now, stored).Some?
    ensures var t := Publish(Compensating(s), Compensating(s).current, now, stored).value;
            Sound(t, o) && Reverting(t, o, f) && t.stages[..|o.plan|] == s.stages
  {
    hide ValidOrigin, SameUpToClass, RowsOk, Increasing, Covered, Extends, Carries, Disturbed, Grown, SentRows, Compensating,
         Storable, Reverting, Fresh, Settled, CanPublish, Targets;
    CompensatingSound(s, o);
    var c, p := Compensating(s), |o.plan|;
    AllTargets(c, o, p);
    assert c.stages[p].rows.Keys == Disturbed(s.stages, o.baselines).Keys;
    var t := Publish(c, p, now, stored).value;
    if Targets(c.stages[p]) == {} {
      RestatusSound(c, o, p, Done, now);
      NothingToSend(c.stages[p], c.nodes);
    } else {
      SendingSound(c, o, p, now, stored);
      DisturbedDesired(s, o, c.stages[p], t.stages[p]);
    }
    assert t.stages[..p] == s.stages;
    NowRestoring(s, t, o, f);
  }

  lemma NothingToSend(st: StageRow, nodes: map<Id, History>)
    requires Untouched(st) && Targets(st) == {} && forall n :: n in st.rows ==> n in Targets(st)
    ensures st.rows == map[] && Fresh(st, nodes) && AllApplied(st)
  {
    hide Targets;
    assert forall n :: n in st.rows ==> n in Targets(st);
  }

  /** What is sent to a disturbed node is its baseline up to classes. */
  lemma DisturbedDesired(s: Rollout, o: Origin, before: StageRow, after: StageRow)
    requires before.rows == QueuedRows(Disturbed(s.stages, o.baselines)) && after.rows.Keys == before.rows.Keys
    requires forall n :: n in after.rows ==> SameUpToClass(after.rows[n].desired, before.rows[n].desired)
    ensures forall n :: n in after.rows ==> n in o.baselines && SameUpToClass(after.rows[n].desired, o.baselines[n])
  {
    hide SameUpToClass, Published;
  }

  lemma NowRestoring(s: Rollout, t: Rollout, o: Origin, f: nat)
    requires |s.stages| == |o.plan| && Reverting(s, o, f) && s.status == RollbackPending
    requires |t.stages| == |o.plan| + 1 && t.stages[..|o.plan|] == s.stages && t.autoRollback == s.autoRollback
    requires var st := t.stages[|o.plan|];
             && st.phase == Compensate && st.rows.Keys == Disturbed(s.stages, o.baselines).Keys
             && Fresh(st, t.nodes) && t.current == |o.plan|
             && (forall n :: n in st.rows ==> n in o.baselines && SameUpToClass(st.rows[n].desired, o.baselines[n]))
             && ((st.status == AwaitingAck && t.status == WaitingAcks) ||
                 (st.status == Done && AllApplied(st) && st.rows == map[] && t.status == RollingBack))
    ensures Reverting(t, o, f)
  {
    hide SameUpToClass, Settled, Untouched, Disturbed, Fresh, AllApplied;
    assert forall k :: 0 <= k < |o.plan| ==> t.stages[k] == s.stages[k];
  }

  lemma AdvanceReverting(s: Rollout, o: Origin, f: nat, now: nat, stored: Cluster, unhealthy: bool)
    requires Sound(s, o) && Reverting(s, o, f) && Advance(s, now, stored, unhealthy).Some?
    ensures var t := Advance(s, now, stored, unhealthy).value;
            && Sound(t, o) && Reverting(t, o, f)
            && t.stages[..|o.plan|] == s.stages[..|o.plan|]
  {
    hide ValidOrigin, SameUpToClass, RowsOk, Increasing, Covered, Extends, Carries, Disturbed, Fresh;
    var p := |o.plan|;
    assert |s.stages| == p ==> s.stages[..p] == s.stages;
    if |s.stages| == p {
      if s.status == RollbackPending {
        hide Publish, Compensating;
        CompensatePublish(s, o, f, now, stored);
      }
    } else {
      AdvanceCompensation(s, o, f, now, stored, unhealthy);
    }
  }

  /** With the compensation stage released, the advancer only waits, times out or finishes. */
  lemma AdvanceCompensation(s: Rollout, o: Origin, f: nat, now: nat, stored: Cluster, unhealthy: bool)
    requires Sound(s, o) && Reverting(s, o, f) && |s.stages| > |o.plan|
    ensures Advance(s, now, stored, unhealthy).Some?
    ensures var t := Advance(s, now, stored, unhealthy).value;
            Sound(t, o) && Reverting(t, o, f) && t.stages[..|o.plan|] == s.stages[..|o.plan|]
  {
    hide Sound, Reverting, RequestRollback;
    CompensationSteps(s, o, f, now, stored, unhealthy);
    CompensationKept(s, o, f);
  }

  /** What a pass may make of a rollout whose compensation stage exists. */
  function Resumed(s: Rollout, o: Origin): Rollout {
    s.(status := RollingBack, current := |o.plan|, bakeUntil := None)
  }

  function Finished(s: Rollout, o: Origin): Rollout
    requires |s.stages| > |o.plan|
  {
    s.(stages := s.stages[|o.plan| := s.stages[|o.plan|].(status := Done)], status := RolledBack, bakeUntil := None)
  }

  lemma CompensationSteps(s: Rollout, o: Origin, f: nat, now: nat, stored: Cluster, unhealthy: bool)
    requires Sound(s, o) && Reverting(s, o, f) && |s.stages| > |o.plan|
    ensures var t, st := Advance(s, now, stored, unhealthy), s.stages[|o.plan|];
            || t == Some(s)
            || (t == Some(Resumed(s, o)) && s.status == RollbackPending)
            || (t == Some(Finished(s, o)) && AllApplied(st) && s.current == |o.plan|)
            || (t == Some(RequestRollback(s, |o.plan|)) && st.status == AwaitingAck)
  {
    hide ValidOrigin, RowsOk, Increasing, Covered, Extends, Carries, Disturbed, Fresh, AllApplied, CompensationAt, Barrier, RequestRollback;
    LastIsCompensation(s.stages);
  }

  lemma CompensationKept(s: Rollout, o: Origin, f: nat)
    requires Sound(s, o) && Reverting(s, o, f) && |s.stages| > |o.plan|
    ensures s.status == RollbackPending ==> Sound(Resumed(s, o), o) && Reverting(Resumed(s, o), o, f)
    ensures AllApplied(s.stages[|o.plan|]) && s.current == |o.plan| ==>
      Sound(Finished(s, o), o) && Reverting(Finished(s, o), o, f) && Finished(s, o).stages[..|o.plan|] == s.stages[..|o.plan|]
    ensures var t := RequestRollback(s, |o.plan|);
            s.stages[|o.plan|].status == AwaitingAck ==> Sound(t, o) && Reverting(t, o, f) && t.stages[..|o.plan|] == s.stages[..|o.plan|]
  {
    hide ValidOrigin, RowsOk, Increasing, Covered, Extends, Carries, Disturbed, Fresh, AllApplied;
    var p := |o.plan|;
    var done, faulted := s.stages[p].(status := Done), s.stages[p].(status := Faulted);
    RestatusSound(s, o, p, Faulted, s.stages[p].startedAt);
    RestatusSound(s, o, p, Done, s.stages[p].startedAt);
    SameRowsFresh(s.stages[p], done, s.nodes);
    SameRowsFresh(s.stages[p], faulted, s.nodes);
    assert s.stages[p := done][..p] == s.stages[..p] == s.stages[p := faulted][..p];
  }

  lemma {:induction false} LastIsCompensation(stages: seq<StageRow>)
    requires stages != [] && stages[|stages| - 1].phase == Compensate
    ensures CompensationAt(stages) == Some(|stages| - 1)
  {
  }

  lemma SameRowsFresh(a: StageRow, b: StageRow, nodes: map<Id, History>)
    requires a.rows == b.rows
    ensures Fresh(a, nodes) == Fresh(b, nodes) && AllApplied(a) == AllApplied(b)
  {
  }

  // ---------------------------------------------------------------- acknowledgements

  lemma AckedSound(s: Rollout, o: Origin, i: nat, n: Id, outcome: Outcome)
    requires Sound(s, o) && i < |s.stages| && n in s.stages[i].rows && s.stages[i].rows[n].generation.Some?
    ensures Sound(s.(stages := s.stages[i := Acked(s.stages[i], n, outcome)]), o)
    ensures forall m :: Published(s.stages[i := Acked(s.stages[i], n, outcome)], m) == Published(s.stages, m)
  {
    hide ValidOrigin, SameUpToClass, Increasing, Carries, RowsOk, Covered;
    var t := s.(stages := s.stages[i := Acked(s.stages[i], n, outcome)]);
    forall k | 0 <= k < |s.stages|
      ensures RowsOk(t.stages[k], t.nodes, o.nodes)
      ensures k < |o.plan| ==> Carries(t.stages[k], o.plan[k])
    {
      assert RowsOk(s.stages[k], s.nodes, o.nodes);
      if k == i {
        AckedStage(s, o, i, n, outcome);
      }
    }
    AckedPublished(s.stages, i, n, outcome);
    AckedIncreasing(s.stages, i, n, outcome);
    StillCovered(s.nodes, o.nodes, s.stages, t.stages);
  }

  lemma AckedStage(s: Rollout, o: Origin, i: nat, n: Id, outcome: Outcome)
    requires Sound(s, o) && i < |s.stages| && n in s.stages[i].rows && s.stages[i].rows[n].generation.Some?
    ensures RowsOk(Acked(s.stages[i], n, outcome), s.nodes, o.nodes)
    ensures i < |o.plan| ==> Carries(Acked(s.stages[i], n, outcome), o.plan[i])
  {
    hide ValidOrigin, SameUpToClass, Increasing, Covered, Extends;
    assert RowsOk(s.stages[i], s.nodes, o.nodes);
  }

  lemma AckedIncreasing(stages: seq<StageRow>, i: nat, n: Id, outcome: Outcome)
    requires i < |stages| && n in stages[i].rows && Increasing(stages)
    ensures Increasing(stages[i := Acked(stages[i], n, outcome)])
  {
  }

  lemma AckedPublished(stages: seq<StageRow>, i: nat, n: Id, outcome: Outcome)
    requires i < |stages| && n in stages[i].rows
    ensures forall m :: Published(stages[i := Acked(stages[i], n, outcome)], m) == Published(stages, m)
  {
    var t := stages[i := Acked(stages[i], n, outcome)];
    forall m
      ensures Published(t, m) == Published(stages, m)
    {
      if Published(t, m) {
        var k :| 0 <= k < |t| && m in t[k].rows && t[k].rows[m].generation.Some?;
        assert m in stages[k].rows && stages[k].rows[m].generation.Some?;
      }
      if Published(stages, m) {
        var k :| 0 <= k < |stages| && m in stages[k].rows && stages[k].rows[m].generation.Some?;
        assert m in t[k].rows && t[k].rows[m].generation.Some?;
      }
    }
  }

  /** A settled stage has nothing left to learn. */
  lemma AckedSettled(st: StageRow, n: Id, g: nat, outcome: Outcome)
    requires AllApplied(st) && Matches(st, n, g, outcome)
    ensures Acked(st, n, outcome) == st && outcome == Applied
  {
    assert st.rows[n].status == Reported(Applied);
  }

  lemma AckOnTrack(s: Rollout, o: Origin, n: Id, g: nat, content: NodeState, outcome: Outcome)
    requires Sound(s, o) && OnTrack(s, o) && Acknowledge(s, n, g, content, outcome).Some?
    ensures var t := Acknowledge(s, n, g, content, outcome).value;
            Sound(t, o) && (OnTrack(t, o) || Reverting(t, o, s.current))
  {
    hide ValidOrigin, SameUpToClass, RowsOk, Increasing, Covered, Extends, Carries, RequestRollback;
    var at := MatchAt(s.stages, n, g, outcome);
    if at.Some? {
      var i := at.value;
      assert i <= s.current;
      NotCompensating(s, o, i);
      if i < s.current || s.status != WaitingAcks {
        AckedSettled(s.stages[i], n, g, outcome);
        assert s.stages[i := s.stages[i]] == s.stages;
      } else {
        AckedSound(s, o, i, n, outcome);
        RollbackForward(s.(stages := s.stages[i := Acked(s.stages[i], n, outcome)]), o);
      }
    }
  }

  lemma AckReverting(s: Rollout, o: Origin, f: nat, n: Id, g: nat, content: NodeState, outcome: Outcome)
    requires Sound(s, o) && Reverting(s, o, f) && Acknowledge(s, n, g, content, outcome).Some?
    ensures var t := Acknowledge(s, n, g, content, outcome).value; Sound(t, o) && Reverting(t, o, f)
  {
    hide ValidOrigin, SameUpToClass, RowsOk, Increasing, Covered, Extends, Carries, RequestRollback, Restoring, Disturbed;
    var at := MatchAt(s.stages, n, g, outcome);
    if at.Some? {
      var i := at.value;
      assert i <= f || i == |o.plan|;
      if i < f {
        AckedSettled(s.stages[i], n, g, outcome);
        assert s.stages[i := s.stages[i]] == s.stages;
      } else if i == f {
        AckFaulted(s, o, f, n, g, outcome);
      } else {
        AckCompensation(s, o, f, n, g, outcome);
      }
    }
  }

  function AfterAck(s: Rollout, i: nat, n: Id, outcome: Outcome): (r: Rollout)
    requires i < |s.stages| && n in s.stages[i].rows
    ensures |r.stages| == |s.stages| && r.stages[..i] == s.stages[..i]
    ensures forall k :: 0 <= k < |s.stages| && k != i ==> r.stages[k] == s.stages[k]
  {
    var t := s.(stages := s.stages[i := Acked(s.stages[i], n, outcome)]);
    if outcome == PermanentError && !Terminal(s) then RequestRollback(t, i) else t
  }

  /** A late report for the stage that failed: an error asks for the rollback once more. */
  lemma AckFaulted(s: Rollout, o: Origin, f: nat, n: Id, g: nat, outcome: Outcome)
    requires Sound(s, o) && Reverting(s, o, f) && Matches(s.stages[f], n, g, outcome)
    ensures var t := AfterAck(s, f, n, outcome); Sound(t, o) && Reverting(t, o, f)
  {
    hide ValidOrigin, SameUpToClass, RowsOk, Increasing, Covered, Extends, Carries, Disturbed;
    var t, p := AfterAck(s, f, n, outcome), |o.plan|;
    AckedSound(s, o, f, n, outcome);
    RollbackSound(s.(stages := s.stages[f := Acked(s.stages[f], n, outcome)]), o, f);
    NotCompensating(s, o, f);
    if |s.stages| > p {
      SameDisturbed(s.stages[..p], t.stages[..p], f, n, outcome, o.baselines);
      FaultedIsDisturbed(s, o, f, n);
    }
  }

  lemma SameDisturbed(a: seq<StageRow>, b: seq<StageRow>, f: nat, n: Id, outcome: Outcome, baselines: Cluster)
    requires f < |a| == |b| && n in a[f].rows && b[f].rows == Acked(a[f], n, outcome).rows
    requires forall k :: 0 <= k < |a| && k != f ==> b[k] == a[k]
    ensures Disturbed(a, baselines) == Disturbed(b, baselines)
  {
    var c := a[f := Acked(a[f], n, outcome)];
    AckedPublished(a, f, n, outcome);
    assert forall k :: 0 <= k < |b| ==> b[k].rows == c[k].rows;
    forall m
      ensures Published(b, m) == Published(c, m)
    {
      if Published(b, m) {
        var k :| 0 <= k < |b| && m in b[k].rows && b[k].rows[m].generation.Some?;
        assert m in c[k].rows && c[k].rows[m].generation.Some?;
      }
      if Published(c, m) {
        var k :| 0 <= k < |c| && m in c[k].rows && c[k].rows[m].generation.Some?;
        assert m in b[k].rows && b[k].rows[m].generation.Some?;
      }
    }
  }

  /** A node of the failed stage has a target in the compensation stage. */
  lemma FaultedIsDisturbed(s: Rollout, o: Origin, f: nat, n: Id)
    requires Sound(s, o) && Reverting(s, o, f) && |s.stages| > |o.plan|
    requires n in s.stages[f].rows && s.stages[f].rows[n].generation.Some?
    ensures n in s.stages[|o.plan|].rows
  {
    hide SameUpToClass, RowsOk, Increasing, Covered, Extends, Fresh;
    var front := s.stages[..|o.plan|];
    assert Carries(s.stages[f], o.plan[f]) && PlannedStage(o.plan[f], o.baselines);
    assert front[f] == s.stages[f];
    assert Published(front, n);
  }

  lemma AckCompensation(s: Rollout, o: Origin, f: nat, n: Id, g: nat, outcome: Outcome)
    requires Sound(s, o) && Reverting(s, o, f) && |s.stages| > |o.plan| && Matches(s.stages[|o.plan|], n, g, outcome)
    ensures var t := AfterAck(s, |o.plan|, n, outcome); Sound(t, o) && Reverting(t, o, f)
  {
    hide ValidOrigin, RowsOk, Increasing, Covered, Extends, Carries, Reverting;
    AckedSound(s, o, |o.plan|, n, outcome);
    RollbackSound(s.(stages := s.stages[|o.plan| := Acked(s.stages[|o.plan|], n, outcome)]), o, |o.plan|);
    StillReverting(s, o, f, n, g, outcome);
  }

  lemma StillReverting(s: Rollout, o: Origin, f: nat, n: Id, g: nat, outcome: Outcome)
    requires |s.stages| > |o.plan| && n in s.stages[|o.plan|].rows
    requires Matches(s.stages[|o.plan|], n, g, outcome) && Reverting(s, o, f)
    ensures Reverting(AfterAck(s, |o.plan|, n, outcome), o, f)
  {
    hide Barrier, Restoring, Fresh, AllApplied, Matches;
    var t, p := AfterAck(s, |o.plan|, n, outcome), |o.plan|;
    AckedRows(s.stages[p], s.nodes, n, outcome);
    RestoringPhase(s, o);
    if s.stages[p].status == Done {
      AckedSettled(s.stages[p], n, g, outcome);
    }
    StillBarrier(s, t, o, f);
    StillRestoring(s, t, o);
  }

  lemma RestoringPhase(s: Rollout, o: Origin)
    requires |s.stages| > |o.plan| && Restoring(s, o)
    ensures s.stages[|o.plan|].phase == Compensate && Fresh(s.stages[|o.plan|], s.nodes)
    ensures s.stages[|o.plan|].status == Done ==> AllApplied(s.stages[|o.plan|])
  {
    hide Disturbed, SameUpToClass, Fresh, AllApplied;
  }

  lemma StillBarrier(s: Rollout, t: Rollout, o: Origin, f: nat)
    requires |t.stages| == |s.stages| > |o.plan| && forall k :: 0 <= k < |o.plan| ==> t.stages[k] == s.stages[k]
    requires Barrier(s, o, f)
    ensures Barrier(t, o, f) && f < |o.plan|
  {
    hide Settled, Untouched;
  }

  /** The compensation stage keeps its targets; it keeps its status, or fails with the rollout. */
  lemma StillRestoring(s: Rollout, t: Rollout, o: Origin)
    requires |t.stages| == |s.stages| > |o.plan| && t.stages[..|o.plan|] == s.stages[..|o.plan|] && Restoring(s, o)
    requires var a, b := s.stages[|o.plan|], t.stages[|o.plan|];
             && b.phase == a.phase && b.rows.Keys == a.rows.Keys && Fresh(b, t.nodes)
             && (forall n :: n in b.rows ==> b.rows[n].desired == a.rows[n].desired)
             && ((b.status == a.status && t.status == s.status && t.current == s.current && (a.status == Done ==> b == a)) ||
                 (b.status == Faulted && t.status == Failed))
    ensures Restoring(t, o)
  {
    hide Disturbed, SameUpToClass, Fresh, AllApplied;
  }

  /** An acknowledgement changes the status of a row and nothing else. */
  lemma AckedRows(st: StageRow, nodes: map<Id, History>, n: Id, outcome: Outcome)
    requires n in st.rows
    ensures var a := Acked(st, n, outcome);
            && a == st.(rows := a.rows) && a.rows.Keys == st.rows.Keys
            && (forall m :: m in a.rows ==> a.rows[m].desired == st.rows[m].desired)
            && forall rows, status :: rows == a.rows ==> Fresh(st.(rows := rows, status := status), nodes) == Fresh(st, nodes)
  {
  }

  // ---------------------------------------------------------------- every run

  lemma HandleKeepsInv(s: Rollout, o: Origin, e: Event)
    requires Inv(s, o)
    ensures Inv(Handle(s, e), o)
    ensures !OnTrack(s, o) ==> !OnTrack(Handle(s, e), o)
  {
    hide ValidOrigin, RowsOk, Increasing, Covered, Extends, Carries, OnTrack, Reverting, Advance, Acknowledge;
    var t := Handle(s, e);
    if OnTrack(s, o) {
      HandleOnTrack(s, o, e);
    } else {
      var f: nat :| Reverting(s, o, f);
      HandleReverting(s, o, f, e);
      RevertingIsOff(t, o, f);
    }
  }

  lemma HandleOnTrack(s: Rollout, o: Origin, e: Event)
    requires Sound(s, o) && OnTrack(s, o)
    ensures var t := Handle(s, e); Sound(t, o) && (OnTrack(t, o) || Reverting(t, o, s.current))
  {
    hide ValidOrigin, RowsOk, Increasing, Covered, Extends, Carries, OnTrack, Reverting, Advance, Acknowledge;
    match e
    case Tick(now, stored, unhealthy) =>
      if Advance(s, now, stored, unhealthy).Some? { AdvanceOnTrack(s, o, now, stored, unhealthy); }
    case Ack(n, g, content, outcome) =>
      if Acknowledge(s, n, g, content, outcome).Some? { AckOnTrack(s, o, n, g, content, outcome); }
  }

  lemma HandleReverting(s: Rollout, o: Origin, f: nat, e: Event)
    requires Sound(s, o) && Reverting(s, o, f)
    ensures var t := Handle(s, e); Sound(t, o) && Reverting(t, o, f)
  {
    hide ValidOrigin, RowsOk, Increasing, Covered, Extends, Carries, OnTrack, Reverting, Advance, Acknowledge;
    match e
    case Tick(now, stored, unhealthy) =>
      if Advance(s, now, stored, unhealthy).Some? { AdvanceReverting(s, o, f, now, stored, unhealthy); }
    case Ack(n, g, content, outcome) =>
      if Acknowledge(s, n, g, content, outcome).Some? { AckReverting(s, o, f, n, g, content, outcome); }
  }

  lemma RevertingIsOff(s: Rollout, o: Origin, f: nat)
    requires Sound(s, o) && Reverting(s, o, f)
    ensures !OnTrack(s, o)
  {
    hide ValidOrigin, SameUpToClass, RowsOk, Increasing, Covered, Extends, Carries, Disturbed, Fresh;
  }
}
