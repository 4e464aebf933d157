/** Time and trouble: how long a canary soaks, how long acknowledgements are waited for, and what
    makes a rollout give up. */
module RolloutTiming {
  import opened Spec
  import opened RolloutPlan
  import opened RolloutMachine
  import opened RolloutInvariants
  import opened RolloutRuns

  /** The stage is failed and nothing else happens to any stage or node; the rollout asks for its
      compensation, or ends if it must not roll back on its own. */
  predicate GivenUp(s: Rollout, t: Rollout, i: nat) {
    && i < |s.stages| == |t.stages|
    && t.nodes == s.nodes && t.current == s.current
    && t.status == (if s.autoRollback then RollbackPending else Failed)
    && t.stages[i].status == Faulted && t.stages[i].rows == s.stages[i].rows
    && forall k :: 0 <= k < |s.stages| && k != i ==> t.stages[k] == s.stages[k]
  }

  /** A canary whose backends turn unhealthy is given up at the next tick, whatever is left of its bake. */
  lemma UnhealthyCanaryIsGivenUp(s: Rollout, o: Origin, now: nat, stored: Cluster)
    requires Inv(s, o) && s.status == Soaking
    ensures s.current < |s.stages| && GivenUp(s, Handle(s, Tick(now, stored, true)), s.current)
  {
    SoakingStage(s, o);
    hide Sound, OnTrack, Reverting;
  }

  lemma SoakingStage(s: Rollout, o: Origin)
    requires Inv(s, o) && s.status == Soaking
    ensures s.current < |s.stages| && s.stages[s.current].status == Baking && s.stages[s.current].phase == Bake
  {
    hide ValidOrigin, RowsOk, Increasing, Extends, Covered, Carries, Fresh, Barrier;
    assert forall f: nat :: Reverting(s, o, f) ==> s.status != Soaking;
  }

  /** Acknowledgements are waited for ten minutes from the start of the stage: a tick before that changes
      nothing while one is missing, and one after that gives the stage up. */
  lemma AcknowledgementsTimeOut(s: Rollout, now: nat, stored: Cluster, unhealthy: bool, n: Id)
    requires s.current < |s.stages| && s.status == WaitingAcks && s.stages[s.current].phase != Compensate
    requires n in s.stages[s.current].rows && s.stages[s.current].rows[n].status != Reported(Applied)
    ensures now < s.stages[s.current].startedAt + 600 ==> Handle(s, Tick(now, stored, unhealthy)) == s
    ensures now >= s.stages[s.current].startedAt + 600 ==> GivenUp(s, Handle(s, Tick(now, stored, unhealthy)), s.current)
  {
  }

  /** A permanent error gives up the stage of its generation, in a rollout that has not ended; no other
      acknowledgement changes the status of a rollout or of a stage. */
  lemma OnlyPermanentErrorsGiveUp(s: Rollout, o: Origin, i: nat, n: Id, g: nat, content: NodeState, outcome: Outcome)
    requires Inv(s, o) && i < |o.plan| && s.current < |s.stages| && i < |s.stages|
    requires Matches(s.stages[i], n, g, outcome) && n in s.nodes && 0 < g < |s.nodes[n]| && s.nodes[n][g] == content
    ensures var t := Handle(s, Ack(n, g, content, outcome));
            && t.nodes == s.nodes && t.current == s.current && |t.stages| == |s.stages|
            && n in t.stages[i].rows && t.stages[i].rows[n] == s.stages[i].rows[n].(status := Reported(outcome))
            && (outcome == PermanentError && !Terminal(s) ==>
                  t.stages[i].status == Faulted && t.status == (if s.autoRollback then RollbackPending else Failed))
            && (outcome != PermanentError || Terminal(s) ==> t.status == s.status && t.stages[i].status == s.stages[i].status)
            && forall k :: 0 <= k < |s.stages| && k != i ==> t.stages[k] == s.stages[k]
  {
    hide ValidOrigin, RowsOk, Increasing, Extends, Covered, Carries, OnTrack, Reverting, MatchAt;
    var at := MatchAt(s.stages, n, g, outcome);
    assert at.Some?;
    UniqueMatch(s, o, at.value, i, n, g);
    NotCompensating(s, o, i);
  }

  /** Health is asked for in a soak only: whatever is awaited or published elsewhere goes on as it is. */
  lemma HealthMattersInSoaks(s: Rollout, now: nat, stored: Cluster)
    requires s.current < |s.stages| && s.status != Soaking
    ensures Handle(s, Tick(now, stored, true)) == Handle(s, Tick(now, stored, false))
  {
    hide Publish, Finish;
  }

  /** Only genuine reports count: one for a generation that the node never received, or with another content
      than was published under it, changes nothing, and neither does one that no stage waits for. */
  lemma OnlyGenuineReportsCount(s: Rollout, n: Id, g: nat, content: NodeState, outcome: Outcome)
    requires s.current < |s.stages|
    requires || n !in s.nodes || g == 0 || g >= |s.nodes[n]| || s.nodes[n][g] != content
             || forall i :: 0 <= i < |s.stages| && n in s.stages[i].rows ==> s.stages[i].rows[n].generation != Some(g)
    ensures Handle(s, Ack(n, g, content, outcome)) == s
  {
  }

  /** The clock of a stage starts when it is published, and runs on untouched while its targets are awaited. */
  lemma ClockStartsAtPublication(s: Rollout, e: Event, i: nat)
    requires s.current < |s.stages|
    ensures e.Tick? ==> KeepsClock(s, Handle(s, e), i, e.now)
    ensures e.Ack? ==> forall now :: KeepsClock(s, Handle(s, e), i, now)
  {
    hide CanPublish, Grown, SentRows, Disturbed, AllApplied, NextPending, MatchAt, CompensationAt;
    if e.Tick? {
      TickStartsClock(s, e.now, e.stored, e.unhealthy, i);
    }
  }

  /** A stage keeps its clock, unless it is published at `now`. */
  predicate KeepsClock(s: Rollout, t: Rollout, i: nat, now: nat) {
    var awaited := i < |s.stages| && s.stages[i].status == AwaitingAck;
    && (awaited ==> i < |t.stages| && t.stages[i].startedAt == s.stages[i].startedAt)
    && (!awaited && i < |t.stages| && t.stages[i].status == AwaitingAck ==> t.stages[i].startedAt == now)
  }

  lemma PublishStartsClock(s: Rollout, j: nat, now: nat, stored: Cluster, i: nat)
    requires j < |s.stages| && s.current < |s.stages|
    ensures var t := Publish(s, j, now, stored); t.Some? ==> KeepsClock(s, t.value, i, now)
  {
    hide CanPublish, Grown, SentRows;
  }

  lemma FinishStartsClock(s: Rollout, j: nat, now: nat, stored: Cluster, i: nat)
    requires j < |s.stages| && s.current < |s.stages|
    ensures var t := Finish(s, j, now, stored); t.Some? ==> KeepsClock(s, t.value, i, now)
  {
    hide CanPublish, Grown, SentRows, NextPending;
  }

  lemma CompensationStartsClock(s: Rollout, now: nat, stored: Cluster, i: nat)
    ensures var c := Compensating(s); var t := Publish(c, c.current, now, stored);
            t.Some? ==> KeepsClock(s, t.value, i, now)
  {
    hide Publish, Disturbed;
    var c := Compensating(s);
    PublishStartsClock(c, c.current, now, stored, i);
    assert i < |s.stages| ==> c.stages[i] == s.stages[i];
    assert |s.stages| <= i < |c.stages| ==> c.stages[i].status == Pending;
  }

  lemma TickStartsClock(s: Rollout, now: nat, stored: Cluster, unhealthy: bool, i: nat)
    requires s.current < |s.stages|
    ensures KeepsClock(s, Handle(s, Tick(now, stored, unhealthy)), i, now)
  {
    FinishStartsClock(s, s.current, now, stored, i);
    PublishStartsClock(s, s.current, now, stored, i);
    CompensationStartsClock(s, now, stored, i);
    RollbackStartsClock(s, i, now);
    hide Publish, Finish, Compensating, RequestRollback, KeepsClock;
  }

  lemma RollbackStartsClock(s: Rollout, i: nat, now: nat)
    requires s.current < |s.stages|
    ensures KeepsClock(s, RequestRollback(s, s.current), i, now) && KeepsClock(s, s, i, now)
  {
  }

  predicate Succeeded(s: Rollout, i: nat, n: Id) {
    i < |s.stages| && n in s.stages[i].rows && s.stages[i].rows[n].status == Reported(Applied)
  }

  /** A recorded success is never taken back. */
  lemma {:induction false} SuccessIsKept(s: Rollout, e: Event, i: nat, n: Id)
    requires s.current < |s.stages| && Succeeded(s, i, n)
    ensures Succeeded(Handle(s, e), i, n)
  {
    hide Handle;
    match e
    case Ack(m, g, content, outcome) => AckKeepsSuccess(s, m, g, content, outcome, i, n);
    case Tick(now, stored, unhealthy) => TickKeepsSuccess(s, now, stored, unhealthy, i, n);
  }

  lemma AckKeepsSuccess(s: Rollout, m: Id, g: nat, content: NodeState, outcome: Outcome, i: nat, n: Id)
    requires s.current < |s.stages| && Succeeded(s, i, n)
    ensures Succeeded(Handle(s, Ack(m, g, content, outcome)), i, n)
  {
    hide MatchAt, RequestRollback;
    var at := MatchAt(s.stages, m, g, outcome);
    if at.Some? {
      var t := s.(stages := s.stages[at.value := Acked(s.stages[at.value], m, outcome)]);
      assert Succeeded(t, i, n);
      RollbackKeepsSuccess(t, at.value, i, n);
    }
  }

  lemma PublishKeepsSuccess(s: Rollout, j: nat, now: nat, stored: Cluster, i: nat, n: Id)
    requires j < |s.stages| && s.current < |s.stages| && Succeeded(s, i, n)
    ensures var t := Publish(s, j, now, stored); t.Some? ==> Succeeded(t.value, i, n)
  {
    hide Storable, Grown;
  }

  lemma FinishKeepsSuccess(s: Rollout, j: nat, now: nat, stored: Cluster, i: nat, n: Id)
    requires j < |s.stages| && s.current < |s.stages| && Succeeded(s, i, n)
    ensures var t := Finish(s, j, now, stored); t.Some? ==> Succeeded(t.value, i, n)
  {
    hide Publish;
    var t := s.(stages := s.stages[j := s.stages[j].(status := Done)]);
    var next := NextPending(t.stages, j + 1);
    if next.Some? {
      PublishKeepsSuccess(t.(status := Publishing, current := next.value, bakeUntil := None), next.value, now, stored, i, n);
    }
  }

  lemma CompensatingKeepsSuccess(s: Rollout, i: nat, n: Id)
    requires Succeeded(s, i, n)
    ensures Succeeded(Compensating(s), i, n)
  {
    hide Disturbed;
  }

  lemma RollbackKeepsSuccess(s: Rollout, j: nat, i: nat, n: Id)
    requires j < |s.stages| && Succeeded(s, i, n)
    ensures Succeeded(RequestRollback(s, j), i, n)
  {
  }

  lemma TickKeepsSuccess(s: Rollout, now: nat, stored: Cluster, unhealthy: bool, i: nat, n: Id)
    requires s.current < |s.stages| && Succeeded(s, i, n)
    ensures Succeeded(Handle(s, Tick(now, stored, unhealthy)), i, n)
  {
    hide Publish, Finish, Compensating, RequestRollback, AllApplied, Succeeded;
    PublishKeepsSuccess(s, s.current, now, stored, i, n);
    FinishKeepsSuccess(s, s.current, now, stored, i, n);
    RollbackKeepsSuccess(s, s.current, i, n);
    CompensatingKeepsSuccess(s, i, n);
    var c := Compensating(s);
    PublishKeepsSuccess(c, c.current, now, stored, i, n);
  }

  // ---------------------------------------------------------------- what is published

  /** Everything published since the rollout was scheduled passed validation on its node. */
  ghost predicate PublishedAreValid(nodes: map<Id, History>, base: map<Id, History>) {
    forall n, g: nat :: n in nodes && n in base && |base[n]| <= g < |nodes[n]| ==> ValidNode(n, nodes[n][g])
  }

  lemma GrownAreValid(st: StageRow, nodes: map<Id, History>, stored: Cluster, base: map<Id, History>)
    requires PublishedAreValid(nodes, base) && CanPublish(st, nodes, stored)
    ensures PublishedAreValid(Grown(st, nodes, stored), base)
  {
    hide ValidNode, SameUpToClass;
  }

  lemma PublishIsValid(s: Rollout, i: nat, now: nat, stored: Cluster, base: map<Id, History>)
    requires i < |s.stages| && s.current < |s.stages| && PublishedAreValid(s.nodes, base)
    ensures var t := Publish(s, i, now, stored); t.Some? ==> PublishedAreValid(t.value.nodes, base)
  {
    hide CanPublish, Grown, SentRows, Targets, PublishedAreValid;
    var st := s.stages[i];
    if st.status == Pending && st.phase != Bake && CanPublish(st, s.nodes, stored) {
      GrownAreValid(st, s.nodes, stored, base);
    }
  }

  lemma FinishIsValid(s: Rollout, i: nat, now: nat, stored: Cluster, base: map<Id, History>)
    requires i < |s.stages| && s.current < |s.stages| && PublishedAreValid(s.nodes, base)
    ensures var t := Finish(s, i, now, stored); t.Some? ==> PublishedAreValid(t.value.nodes, base)
  {
    hide Publish, PublishedAreValid;
    var t := s.(stages := s.stages[i := s.stages[i].(status := Done)]);
    var next := NextPending(t.stages, i + 1);
    if next.Some? {
      PublishIsValid(t.(status := Publishing, current := next.value, bakeUntil := None), next.value, now, stored, base);
    }
  }

  lemma EventIsValid(s: Rollout, e: Event, base: map<Id, History>)
    requires s.current < |s.stages| && PublishedAreValid(s.nodes, base)
    ensures PublishedAreValid(Handle(s, e).nodes, base)
  {
    hide Publish, Finish, Disturbed, AllApplied, MatchAt, PublishedAreValid;
    match e
    case Ack(_, _, _, _) =>
    case Tick(now, stored, _) =>
      PublishIsValid(s, s.current, now, stored, base);
      FinishIsValid(s, s.current, now, stored, base);
      var c := Compensating(s);
      PublishIsValid(c, c.current, now, stored, base);
  }

  /** In every run, whatever a node is sent passed validation. */
  lemma {:induction false} OnlyValidStatesArePublished(s: Rollout, events: seq<Event>, base: map<Id, History>)
    requires s.current < |s.stages| && PublishedAreValid(s.nodes, base)
    ensures PublishedAreValid(Run(s, events).nodes, base)
    decreases |events|
  {
    hide Handle, PublishedAreValid;
    if events != [] {
      EventIsValid(s, events[0], base);
      OnlyValidStatesArePublished(Handle(s, events[0]), events[1..], base);
    }
  }

  // ---------------------------------------------------------------- the bake

  /** A soak ends when its stage has baked for as long as planned. */
  predicate Timed(s: Rollout) {
    s.status == Soaking ==>
      s.current < |s.stages| &&
      s.bakeUntil == Some(s.stages[s.current].startedAt + s.stages[s.current].bakeSeconds)
  }

  /** How one event treats a bake: it starts at the time of a tick, and ends by a healthy tick that comes no
      earlier than its planned length after that. */
  predicate BakeStep(a: StageRow, b: StageRow, e: Event) {
    && (a.status == Pending && b.status != Pending ==> e.Tick? && b.status == Baking && b.startedAt == e.now)
    && (a.status != Pending ==> b.status != Pending && b.startedAt == a.startedAt)
    && (a.status == Baking && b.status == Done ==> e.Tick? && !e.unhealthy && e.now >= a.startedAt + a.bakeSeconds)
    && (b.status == Done ==> a.status == Done || a.status == Baking)
    && b.bakeSeconds == a.bakeSeconds && b.phase == a.phase
  }

  lemma PublishBakes(s: Rollout, i: nat, now: nat, stored: Cluster, unhealthy: bool, b: nat)
    requires i < |s.stages| && s.current < |s.stages| && b < |s.stages| && s.stages[b].phase == Bake && s.status != Soaking
    ensures var t := Publish(s, i, now, stored);
            t.Some? ==> Timed(t.value) && b < |t.value.stages|
                        && BakeStep(s.stages[b], t.value.stages[b], Tick(now, stored, unhealthy))
  {
    hide CanPublish, Targets, Grown, SentRows;
  }

  lemma FinishBakes(s: Rollout, i: nat, now: nat, stored: Cluster, unhealthy: bool, b: nat)
    requires i < |s.stages| && s.current < |s.stages| && b < |s.stages| && s.stages[b].phase == Bake
    requires b == i ==> s.stages[i].status == Done ||
                        (s.stages[i].status == Baking && !unhealthy && now >= s.stages[i].startedAt + s.stages[i].bakeSeconds)
    ensures var t := Finish(s, i, now, stored);
            t.Some? ==> Timed(t.value) && b < |t.value.stages|
                        && BakeStep(s.stages[b], t.value.stages[b], Tick(now, stored, unhealthy))
  {
    hide Publish;
    var t := s.(stages := s.stages[i := s.stages[i].(status := Done)]);
    var next := NextPending(t.stages, i + 1);
    if next.Some? {
      PublishBakes(t.(status := Publishing, current := next.value, bakeUntil := None), next.value, now, stored, unhealthy, b);
    }
  }

  lemma RollbackBakes(s: Rollout, i: nat, now: nat, stored: Cluster, unhealthy: bool, b: nat)
    requires i < |s.stages| && b < |s.stages| && (b == i ==> s.stages[b].status != Pending)
    ensures var t := RequestRollback(s, i);
            Timed(t) && b < |t.stages| && BakeStep(s.stages[b], t.stages[b], Tick(now, stored, unhealthy))
  {
  }

  /** What the current stage is while the rollout waits for acknowledgements. */
  lemma WaitingStage(s: Rollout, o: Origin)
    requires Inv(s, o) && s.status == WaitingAcks
    ensures s.current < |s.stages| && s.stages[s.current].phase != Bake
  {
    hide ValidOrigin, RowsOk, Increasing, Extends, Covered, Carries, Fresh, Barrier, Disturbed;
    if !OnTrack(s, o) {
      var f: nat :| Reverting(s, o, f);
    }
  }

  lemma BakeStepHolds(s: Rollout, o: Origin, e: Event, b: nat)
    requires Inv(s, o) && Timed(s) && b < |o.plan| && s.current < |s.stages| && b < |s.stages| && s.stages[b].phase == Bake
    ensures Timed(Handle(s, e)) && b < |Handle(s, e).stages| && BakeStep(s.stages[b], Handle(s, e).stages[b], e)
  {
    InvIsSound(s, o);
    NotCompensating(s, o, b);
    if s.status == Soaking {
      SoakingStage(s, o);
    }
    if s.status == WaitingAcks {
      WaitingStage(s, o);
    }
    hide Inv, Sound, Timed, BakeStep, Handle;
    match e
    case Ack(n, g, content, outcome) => AckBakes(s, n, g, content, outcome, b);
    case Tick(now, stored, unhealthy) => BakeTick(s, now, stored, unhealthy, b);
  }

  lemma BakeTick(s: Rollout, now: nat, stored: Cluster, unhealthy: bool, b: nat)
    requires Timed(s) && s.current < |s.stages| && b < |s.stages| && s.stages[b].phase == Bake
    requires s.status == Soaking ==> s.stages[s.current].status == Baking
    requires s.status == WaitingAcks ==> s.stages[s.current].phase != Bake
    ensures var t := Handle(s, Tick(now, stored, unhealthy));
            Timed(t) && b < |t.stages| && BakeStep(s.stages[b], t.stages[b], Tick(now, stored, unhealthy))
  {
    hide Publish, Finish, Compensating, RequestRollback, AllApplied, BakeStep;
    SameBake(s.stages[b], Tick(now, stored, unhealthy));
    match s.status
    case RollbackPending =>
      CompensatingBakes(s, b);
      var c := Compensating(s);
      PublishBakes(c, c.current, now, stored, unhealthy, b);
    case Publishing => PublishingTick(s, now, stored, unhealthy, b);
    case RollingBack => PublishingTick(s, now, stored, unhealthy, b);
    case WaitingAcks =>
      if AllApplied(s.stages[s.current]) {
        FinishBakes(s, s.current, now, stored, unhealthy, b);
      } else {
        RollbackBakes(s, s.current, now, stored, unhealthy, b);
      }
    case Soaking =>
      if unhealthy {
        RollbackBakes(s, s.current, now, stored, unhealthy, b);
      } else if now >= s.bakeUntil.value {
        FinishBakes(s, s.current, now, stored, unhealthy, b);
      }
    case _ =>
  }

  lemma PublishingTick(s: Rollout, now: nat, stored: Cluster, unhealthy: bool, b: nat)
    requires s.current < |s.stages| && b < |s.stages| && s.stages[b].phase == Bake
    requires s.status == Publishing || s.status == RollingBack
    ensures var t := Handle(s, Tick(now, stored, unhealthy));
            Timed(t) && b < |t.stages| && BakeStep(s.stages[b], t.stages[b], Tick(now, stored, unhealthy))
  {
    hide Publish, Finish, BakeStep;
    SameBake(s.stages[b], Tick(now, stored, unhealthy));
    if s.stages[s.current].status == Done {
      FinishBakes(s, s.current, now, stored, unhealthy, b);
    } else {
      PublishBakes(s, s.current, now, stored, unhealthy, b);
    }
  }

  lemma SameBake(a: StageRow, e: Event)
    ensures BakeStep(a, a, e)
  {
  }

  lemma CompensatingBakes(s: Rollout, b: nat)
    requires b < |s.stages|
    ensures b < |Compensating(s).stages| && Compensating(s).stages[b] == s.stages[b] && Compensating(s).status == RollingBack
  {
    hide Disturbed;
  }

  lemma AckBakes(s: Rollout, n: Id, g: nat, content: NodeState, outcome: Outcome, b: nat)
    requires Timed(s) && s.current < |s.stages| && b < |s.stages| && s.stages[b].rows == map[]
    ensures var t := Handle(s, Ack(n, g, content, outcome));
            Timed(t) && b < |t.stages| && BakeStep(s.stages[b], t.stages[b], Ack(n, g, content, outcome))
  {
    hide MatchAt, Acked, RequestRollback, Timed, BakeStep;
    SameBake(s.stages[b], Ack(n, g, content, outcome));
    var at := MatchAt(s.stages, n, g, outcome);
    if at.Some? {
      AckedTimes(s, at.value, n, outcome);
    }
  }

  /** Neither an acknowledgement nor a rollback touches the times or the other stages. */
  lemma AckedTimes(s: Rollout, i: nat, n: Id, outcome: Outcome)
    requires i < |s.stages| && n in s.stages[i].rows && Timed(s)
    ensures var t := s.(stages := s.stages[i := Acked(s.stages[i], n, outcome)]);
            && Timed(t) && Timed(RequestRollback(t, i))
            && |RequestRollback(t, i).stages| == |t.stages| == |s.stages|
            && forall k :: 0 <= k < |s.stages| && k != i ==>
                 t.stages[k] == s.stages[k] && RequestRollback(t, i).stages[k] == s.stages[k]
  {
  }

  lemma BakeIsPlanned(s: Rollout, o: Origin, b: nat)
    requires Inv(s, o) && b < |o.plan|
    ensures b < |s.stages| && s.stages[b].phase == o.plan[b].phase && s.stages[b].bakeSeconds == o.plan[b].bakeSeconds
    ensures s.current < |s.stages|
  {
    hide ValidOrigin, RowsOk, Increasing, Extends, Covered, OnTrack, Reverting;
    InvIsSound(s, o);
    assert Carries(s.stages[b], o.plan[b]);
  }

  /** Somewhere in the run the bake ended as it should. */
  predicate BakedBy(s: Rollout, events: seq<Event>, i: nat, b: nat, seconds: nat)
    requires s.current < |s.stages|
  {
    && i < |events| && events[i].Tick? && !events[i].unhealthy
    && var t := Run(s, events[..i]);
       b < |t.stages| && t.stages[b].status == Baking && events[i].now >= t.stages[b].startedAt + seconds
  }

  /** And before that it began. */
  predicate StartedBy(s: Rollout, events: seq<Event>, i: nat, b: nat, at: nat)
    requires s.current < |s.stages|
  {
    && i < |events| && events[i].Tick? && events[i].now == at
    && var t := Run(s, events[..i]);
       b < |t.stages| && t.stages[b].status == Pending
  }

  lemma {:induction false} PrefixStep(s: Rollout, events: seq<Event>, i: nat)
    requires s.current < |s.stages| && i < |events|
    ensures Run(s, events[..0]) == s
    ensures Run(s, events[..i + 1]) == Run(Handle(s, events[0]), events[1..][..i])
  {
    hide Handle;
    assert events[..i + 1][1..] == events[1..][..i];
  }

  lemma {:induction false} BakeInRun(s: Rollout, o: Origin, events: seq<Event>, b: nat) returns (j: nat)
    requires Inv(s, o) && Timed(s) && b < |o.plan| && o.plan[b].phase == Bake
    requires s.current < |s.stages| && b < |s.stages| && s.stages[b].status != Done
    requires b < |Run(s, events).stages| && Run(s, events).stages[b].status == Done
    ensures BakedBy(s, events, j, b, o.plan[b].bakeSeconds)
    ensures s.stages[b].status != Pending ==> Run(s, events[..j]).stages[b].startedAt == s.stages[b].startedAt
    ensures s.stages[b].status == Pending ==>
      exists i :: 0 <= i < j && StartedBy(s, events, i, b, Run(s, events[..j]).stages[b].startedAt)
    decreases |events|
  {
    hide Inv, Handle, Timed;
    var t := Handle(s, events[0]);
    HandleKeepsInv(s, o, events[0]);
    BakeIsPlanned(s, o, b);
    BakeIsPlanned(t, o, b);
    BakeStepHolds(s, o, events[0], b);
    PrefixStep(s, events, 0);
    if t.stages[b].status == Done {
      j := 0;
    } else {
      var k := BakeInRun(t, o, events[1..], b);
      j := k + 1;
      PrefixStep(s, events, k);
      assert events[1..][k] == events[j];
      if s.stages[b].status == Pending {
        if t.stages[b].status == Pending {
          var i :| 0 <= i < k && StartedBy(t, events[1..], i, b, Run(t, events[1..][..k]).stages[b].startedAt);
          PrefixStep(s, events, i);
          assert events[1..][i] == events[i + 1];
          assert StartedBy(s, events, i + 1, b, Run(s, events[..j]).stages[b].startedAt);
        } else {
          assert StartedBy(s, events, 0, b, Run(s, events[..j]).stages[b].startedAt);
        }
      }
    }
  }

  /** A stage behind a bake leaves `Pending` only after a healthy tick that comes no earlier than the bake's
      start plus its planned length; the start is the time of the tick that released the bake. */
  lemma {:induction false} NothingLeavesBeforeTheBakeIsOver(o: Origin, autoRollback: bool, events: seq<Event>, b: nat, k: nat)
    returns (i: nat, j: nat)
    requires ValidOrigin(o) && b < k < |o.plan| && o.plan[b].phase == Bake
    requires var s := Scheduled(o.plan, autoRollback, o.baselines, o.nodes);
             k < |Run(s, events).stages| && Run(s, events).stages[k].status != Pending
    ensures var s := Scheduled(o.plan, autoRollback, o.baselines, o.nodes);
            && i < j < |events| && events[i].Tick? && StartedBy(s, events, i, b, events[i].now)
            && events[j].Tick? && BakedBy(s, events, j, b, o.plan[b].bakeSeconds)
            && events[j].now >= events[i].now + o.plan[b].bakeSeconds
  {
    hide Inv, Run;
    var s := Scheduled(o.plan, autoRollback, o.baselines, o.nodes);
    ScheduledInv(o, autoRollback);
    RunKeepsInv(s, o, events);
    BakeIsPlanned(s, o, b);
    BakeIsPlanned(Run(s, events), o, b);
    BarrierHolds(Run(s, events), o, b, k);
    assert s.stages[b].status == Pending;
    j := BakeInRun(s, o, events, b);
    i :| 0 <= i < j && StartedBy(s, events, i, b, Run(s, events[..j]).stages[b].startedAt);
  }
}
