/** A rollout never gets stuck on its forward path: from any of its states there is a way to the end,
    and off that path there is none. */
module RolloutCompletion {
  import opened Spec
  import opened RolloutPlan
  import opened RolloutMachine
  import opened RolloutInvariants
  import opened RolloutRuns

  /** Publishing has still to send its stage. */
  predicate ToSend(s: Rollout)
    requires s.current < |s.stages|
  {
    s.status == Publishing && s.stages[s.current].status == Pending
  }

  /** The forward path, told by status and number of stages. */
  lemma StillOnTrack(s: Rollout, o: Origin)
    requires Inv(s, o) && |s.stages| == |o.plan|
    requires s.status == Publishing || s.status == WaitingAcks || s.status == Soaking || s.status == Completed
    ensures OnTrack(s, o)
  {
    hide ValidOrigin, RowsOk, Increasing, Extends, Covered, Carries, Fresh, Barrier;
    assert forall f: nat :: Reverting(s, o, f) ==> s.status == RollbackPending || s.status == Failed;
  }

  /** What the forward path says of the current stage and of the next one. */
  lemma TrackStage(s: Rollout, o: Origin)
    requires Inv(s, o) && OnTrack(s, o)
    ensures |s.stages| == |o.plan| && s.current < |s.stages|
    ensures s.status in {Publishing, WaitingAcks, Soaking, Completed}
    ensures s.stages[s.current].phase != Compensate
    ensures s.status == Publishing ==> Untouched(s.stages[s.current]) || s.stages[s.current].status == Done
    ensures s.status == WaitingAcks ==> Fresh(s.stages[s.current], s.nodes)
    ensures forall k :: s.current < k < |s.stages| ==> Untouched(s.stages[k])
  {
    InvIsSound(s, o);
    hide ValidOrigin, RowsOk, Increasing, Extends, Covered, Carries, Fresh, Settled, Untouched;
    NotCompensating(s, o, s.current);
  }

  /** An untouched stage of valid states can be published: what was planned can be stored. */
  lemma CanBeSent(s: Rollout, o: Origin, i: nat, now: nat)
    requires Sound(s, o) && i < |o.plan| && i < |s.stages| && s.current < |s.stages| && Untouched(s.stages[i])
    requires ValidCluster(o.plan[i].desired)
    ensures var t := Publish(s, i, now, o.plan[i].desired);
            && t.Some? && |t.value.stages| == |s.stages|
            && ((t.value.status in {WaitingAcks, Soaking} && t.value.current == i) ||
                (t.value.status == s.status && t.value.current == s.current && t.value.stages[i].status == Done))
  {
    hide Increasing, Extends, Covered, ValidNode, WithoutClasses, Grown, SentRows;
    var st := s.stages[i];
    assert Carries(st, o.plan[i]) && RowsOk(st, s.nodes, o.nodes);
  }

  /** Completing a stage moves on to the next one, or to the end. */
  lemma StageIsFinished(s: Rollout, o: Origin, now: nat)
    requires Sound(s, o) && |s.stages| == |o.plan| && s.current < |s.stages| && s.stages[s.current].phase != Compensate
    requires ValidStages(o.plan) && forall k :: s.current < k < |s.stages| ==> Untouched(s.stages[k])
    ensures var next := if s.current + 1 < |o.plan| then o.plan[s.current + 1].desired else map[];
            var t := Finish(s, s.current, now, next);
            && t.Some? && |t.value.stages| == |s.stages|
            && (t.value.status == Completed || (t.value.current == s.current + 1 && t.value.status in {Publishing, WaitingAcks, Soaking}))
  {
    hide Publish, Sound, Untouched;
    var i := s.current;
    var done := s.(stages := s.stages[i := s.stages[i].(status := Done)]);
    RestatusSound(s, o, i, Done, s.stages[i].startedAt);
    assert done.stages[i] == s.stages[i].(status := Done, startedAt := s.stages[i].startedAt);
    var next := NextPending(done.stages, i + 1);
    if i + 1 < |o.plan| {
      IsPending(done.stages[i + 1]);
      assert next == Some(i + 1);
      var t := done.(status := Publishing, current := i + 1, bakeUntil := None);
      MovedIsSound(done, t, o);
      assert ValidCluster(o.plan[i + 1].desired);
      CanBeSent(t, o, i + 1, now);
    }
  }

  lemma IsPending(st: StageRow)
    requires Untouched(st)
    ensures st.status == Pending
  {
  }

  lemma MovedIsSound(s: Rollout, t: Rollout, o: Origin)
    requires Sound(s, o) && t == s.(status := t.status, current := t.current, bakeUntil := t.bakeUntil) && t.current < |t.stages|
    ensures Sound(t, o)
  {
    hide ValidOrigin, RowsOk, Increasing, Extends, Covered, Carries;
  }

  /** The tick that moves a rollout on when nobody has to be waited for. */
  lemma TickMovesOn(s: Rollout, o: Origin) returns (e: Event)
    requires Inv(s, o) && OnTrack(s, o) && ValidStages(o.plan) && s.current < |s.stages| && !Terminal(s)
    requires s.status == WaitingAcks ==> AllApplied(s.stages[s.current])
    ensures var t := Handle(s, e);
            && |t.stages| == |s.stages| && t.current < |t.stages|
            && t.status in {Publishing, WaitingAcks, Soaking, Completed}
            && (t.status != Completed ==> t.current > s.current || (t.current == s.current && ToSend(s) && !ToSend(t)))
  {
    InvIsSound(s, o);
    TrackStage(s, o);
    hide Inv, OnTrack, Sound, Publish, Finish, Fresh, AllApplied;
    if ToSend(s) {
      assert ValidCluster(o.plan[s.current].desired);
      CanBeSent(s, o, s.current, 0);
      e := Tick(0, o.plan[s.current].desired, false);
    } else {
      var now := if s.bakeUntil.Some? then s.bakeUntil.value else 0;
      StageIsFinished(s, o, now);
      e := Tick(now, if s.current + 1 < |o.plan| then o.plan[s.current + 1].desired else map[], false);
    }
  }

  /** The acknowledgement of a target that is still missing. */
  lemma MissingOneAcknowledges(s: Rollout, o: Origin, n: Id) returns (e: Event)
    requires Sound(s, o) && s.status == WaitingAcks && s.current < |s.stages| == |o.plan| && Fresh(s.stages[s.current], s.nodes)
    requires n in Outstanding(s.stages[s.current])
    ensures Handle(s, e) == s.(stages := s.stages[s.current := Acked(s.stages[s.current], n, Applied)])
  {
    hide ValidOrigin, Increasing, Extends, Covered, Carries, MatchAt, SameUpToClass;
    var i := s.current;
    assert RowsOk(s.stages[i], s.nodes, o.nodes);
    var g := s.stages[i].rows[n].generation.value;
    e := Ack(n, g, s.nodes[n][g], Applied);
    assert Matches(s.stages[i], n, g, Applied);
    var at := MatchAt(s.stages, n, g, Applied);
    assert at.Some?;
    UniqueMatch(s, o, at.value, i, n, g);
  }

  /** The rollout got further: to a later stage, to a stage that was sent, or to fewer missing targets. */
  predicate Closer(s: Rollout, t: Rollout)
    requires s.current < |s.stages|
  {
    && |t.stages| == |s.stages| && t.current < |t.stages|
    && t.status in {Publishing, WaitingAcks, Soaking, Completed}
    && (t.status == Completed
        || t.current > s.current
        || (t.current == s.current && ToSend(s) && !ToSend(t))
        || (t.current == s.current && ToSend(s) == ToSend(t) && Outstanding(t.stages[t.current]) < Outstanding(s.stages[s.current])))
  }

  lemma AcknowledgementGetsCloser(s: Rollout, o: Origin) returns (e: Event)
    requires Sound(s, o) && s.status == WaitingAcks && s.current < |s.stages| == |o.plan| && Fresh(s.stages[s.current], s.nodes)
    requires Outstanding(s.stages[s.current]) != {}
    ensures Closer(s, Handle(s, e))
  {
    hide Sound, Handle, Fresh, Outstanding;
    var n :| n in Outstanding(s.stages[s.current]);
    e := MissingOneAcknowledges(s, o, n);
    OneLessMissing(s.stages[s.current], n);
  }

  lemma NextEvent(s: Rollout, o: Origin) returns (e: Event)
    requires Inv(s, o) && OnTrack(s, o) && ValidStages(o.plan) && s.current < |s.stages| && !Terminal(s)
    ensures Closer(s, Handle(s, e))
  {
    TrackStage(s, o);
    InvIsSound(s, o);
    hide Inv, OnTrack, Handle, Fresh, ValidStages, AllApplied, Untouched, Sound, Outstanding, ToSend;
    if s.status == WaitingAcks && Outstanding(s.stages[s.current]) != {} {
      e := AcknowledgementGetsCloser(s, o);
    } else {
      if s.status == WaitingAcks {
        NobodyMissing(s.stages[s.current]);
      }
      e := TickMovesOn(s, o);
    }
  }

  lemma OneLessMissing(st: StageRow, n: Id)
    requires n in Outstanding(st)
    ensures Outstanding(Acked(st, n, Applied)) < Outstanding(st)
  {
    assert n !in Outstanding(Acked(st, n, Applied));
    assert Outstanding(Acked(st, n, Applied)) <= Outstanding(st);
  }

  lemma {:induction false} CanComplete(s: Rollout, o: Origin)
    requires Inv(s, o) && OnTrack(s, o) && ValidStages(o.plan) && s.current < |s.stages| == |o.plan|
    ensures exists events :: Run(s, events).status == Completed
    decreases s.status != Completed, |o.plan| - s.current, ToSend(s), Outstanding(s.stages[s.current])
  {
    TrackStage(s, o);
    hide Inv, OnTrack, Run, Handle, ValidStages, Outstanding, ToSend, Untouched, Fresh;
    if s.status == Completed {
      NoEvents(s);
      assert Run(s, []).status == Completed;
    } else {
      var e := NextEvent(s, o);
      var t := Handle(s, e);
      HandleKeepsInv(s, o, e);
      StillOnTrack(t, o);
      CanComplete(t, o);
      var events :| Run(t, events).status == Completed;
      EventFirst(s, e, events);
      assert Run(s, [e] + events).status == Completed;
    }
  }

  lemma NobodyMissing(st: StageRow)
    requires Outstanding(st) == {}
    ensures AllApplied(st)
  {
    forall n | n in st.rows
      ensures st.rows[n].status == Reported(Applied)
    {
      assert n !in Outstanding(st);
    }
  }

  lemma {:induction false} NoEvents(s: Rollout)
    requires s.current < |s.stages|
    ensures Run(s, []) == s
  {
  }

  lemma {:induction false} LeftTheTrack(s: Rollout, o: Origin, events: seq<Event>)
    requires Inv(s, o) && !OnTrack(s, o)
    ensures s.current < |s.stages| && Run(s, events).status != Completed
  {
    hide Sound, OnTrack, Reverting, Run;
    StagesAreThere(s, o);
    RunKeepsInv(s, o, events);
    RevertingIsNotCompleted(Run(s, events), o);
  }

  lemma StagesAreThere(s: Rollout, o: Origin)
    requires Inv(s, o)
    ensures s.current < |s.stages| && |s.stages| >= |o.plan|
  {
  }

  lemma RevertingIsNotCompleted(s: Rollout, o: Origin)
    requires Inv(s, o) && !OnTrack(s, o)
    ensures s.status != Completed
  {
    hide ValidOrigin, RowsOk, Increasing, Extends, Covered, Carries, Barrier, Fresh, Disturbed, SameUpToClass, AllApplied;
    var f: nat :| Reverting(s, o, f);
  }

  /** A rollout of valid stages can still be completed if and only if no stage of it has failed: it never
      waits for anything but ticks, acknowledgements and time, and a failure is final. */
  lemma {:induction false} CompletionReachable(s: Rollout, o: Origin)
    requires Inv(s, o) && ValidStages(o.plan)
    ensures s.current < |s.stages| && |s.stages| >= |o.plan|
    ensures OnTrack(s, o) <==> exists events :: Run(s, events).status == Completed
  {
    StagesAreThere(s, o);
    hide OnTrack, Run, ValidStages, Sound, Reverting;
    if OnTrack(s, o) {
      TrackStage(s, o);
      CanComplete(s, o);
    } else {
      forall events
        ensures Run(s, events).status != Completed
      {
        LeftTheTrack(s, o, events);
      }
    }
  }

  // ---------------------------------------------------------------- the way back

  /** The compensation is out, or there was nothing to compensate. */
  predicate Released(t: Rollout, o: Origin) {
    && |t.stages| == |o.plan| + 1 && t.current == |o.plan| && t.stages[|o.plan|].phase == Compensate
    && ((t.status == WaitingAcks && CompensationOut(t, o)) ||
        (t.status == RollingBack && t.stages[|o.plan|].status == Done))
  }

  /** The compensation stage can be released as soon as the rollback was asked for. */
  lemma CompensationIsReleased(s: Rollout, o: Origin)
    requires Sound(s, o) && s.status == RollbackPending && |s.stages| == |o.plan| && ValidCluster(o.baselines)
    ensures Released(Handle(s, Tick(0, o.baselines, false)), o)
  {
    CompensatingSound(s, o);
    hide Sound, Compensating, Disturbed, ValidCluster, CanPublish, Publish, QueuedRows, Released;
    CompensationIsStorable(s, o);
    PublishReleases(Compensating(s), o, o.baselines);
  }

  lemma PublishReleases(c: Rollout, o: Origin, stored: Cluster)
    requires |c.stages| == |o.plan| + 1 && c.current == |o.plan| && c.status == RollingBack
    requires c.stages[|o.plan|].phase == Compensate && Untouched(c.stages[|o.plan|])
    requires CanPublish(c.stages[|o.plan|], c.nodes, stored)
    ensures var t := Publish(c, c.current, 0, stored); t.Some? && Released(t.value, o)
  {
    hide CanPublish, Grown, SentRows, Targets;
  }

  lemma CompensationIsStorable(s: Rollout, o: Origin)
    requires Sound(s, o) && |s.stages| == |o.plan| && ValidCluster(o.baselines)
    ensures var c := Compensating(s); |c.stages| > |o.plan| && CanPublish(c.stages[|o.plan|], c.nodes, o.baselines)
  {
    CompensatingSound(s, o);
    hide Sound, Compensating, Disturbed, ValidNode, SameUpToClass, QueuedRows;
    var c, p := Compensating(s), |o.plan|;
    QueuedAreBaselines(c.stages[p], s.stages, o.baselines);
    AllKnown(c, o);
    forall n | n in Targets(c.stages[p])
      ensures n in c.nodes && Storable(o.baselines, n, c.stages[p].rows[n].desired)
    {
      SameAsItself(o.baselines[n]);
    }
  }

  lemma QueuedAreBaselines(st: StageRow, stages: seq<StageRow>, baselines: Cluster)
    requires st.rows == QueuedRows(Disturbed(stages, baselines))
    ensures forall n :: n in st.rows ==> n in baselines && st.rows[n].desired == baselines[n]
  {
    hide Published;
  }

  lemma AllKnown(s: Rollout, o: Origin)
    requires Sound(s, o)
    ensures o.baselines.Keys <= s.nodes.Keys
  {
    hide RowsOk, Increasing, Covered, Carries;
  }

  lemma {:induction false} ReleasedFinishes(t: Rollout, o: Origin)
    requires Inv(t, o) && Released(t, o) && t.current < |t.stages|
    ensures exists events :: Run(t, events).status == RolledBack
  {
    if t.status == WaitingAcks {
      CanFinish(t, o);
    } else {
      hide Inv, Run, Handle;
      var last := Tick(0, map[], false);
      NothingToUndo(t);
      OneEvent(t, last);
      assert Run(t, [last]).status == RolledBack;
    }
  }

  /** A rollback that was asked for can be carried through: the compensation is released, and once
      everybody acknowledged it the rollout is rolled back. */
  lemma {:induction false} RollbackReachable(s: Rollout, o: Origin)
    requires Inv(s, o) && s.status == RollbackPending && |s.stages| == |o.plan| && ValidCluster(o.baselines)
    ensures s.current < |s.stages| && exists events :: Run(s, events).status == RolledBack
  {
    StagesAreThere(s, o);
    InvIsSound(s, o);
    hide Inv, Run, Handle, ValidCluster, Sound, Released;
    var e := Tick(0, o.baselines, false);
    CompensationIsReleased(s, o);
    HandleKeepsInv(s, o, e);
    ReleasedFinishes(Handle(s, e), o);
    var events :| Run(Handle(s, e), events).status == RolledBack;
    EventFirst(s, e, events);
    assert Run(s, [e] + events).status == RolledBack;
  }

  lemma NothingToUndo(s: Rollout)
    requires s.current < |s.stages| && s.status == RollingBack && s.stages[s.current].status == Done
    requires s.stages[s.current].phase == Compensate
    ensures Handle(s, Tick(0, map[], false)).status == RolledBack
  {
  }
}
