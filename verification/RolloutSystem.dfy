/** End to end: the stages the builder emits, published by the state machine to agents behind a
    lossy network. */
module RolloutSystem {
  import opened Spec
  import opened CanarySelection
  import opened RolloutPlan
  import opened RolloutWaves
  import opened RolloutSafety
  import opened RolloutTheorems
  import opened RolloutMachine
  import opened RolloutInvariants
  import opened RolloutRuns
  import opened RolloutFleet
  import opened AgentMoves

  predicate PlannedSteps(steps: seq<Step>) {
    forall i :: 0 <= i < |steps| && steps[i].Release? ==> steps[i].phase != Compensate && steps[i].phase != Bake
  }

  lemma StepsArePlanned(work: Cluster, final: Cluster, strategy: Strategy, hash: Id -> nat)
    requires work.Keys == final.Keys
    ensures PlannedSteps(StepsOf(work, final, strategy, hash))
  {
    hide ChangedIds, CanaryOf, AfterWave, Prepared, Promoted, Cleaned;
  }

  lemma {:induction false} StagesArePlanned(work: Cluster, steps: seq<Step>, baselines: Cluster)
    requires PlannedSteps(steps) && SameKeys(work, steps) && work.Keys == baselines.Keys
    ensures forall i :: 0 <= i < |StagesOf(work, steps)| ==> PlannedStage(StagesOf(work, steps)[i], baselines)
    decreases |steps|
  {
    hide SameUpToClass;
    if steps != [] {
      TailSameKeys(work, steps);
      var next := Reached(work, steps[0]);
      assert PlannedSteps(steps[1..]) by {
        assert forall i :: 0 <= i < |steps| - 1 ==> steps[1..][i] == steps[i + 1];
      }
      StagesArePlanned(next, steps[1..], baselines);
      var stages, rest := StagesOf(work, steps), StagesOf(next, steps[1..]);
      forall i | 0 <= i < |stages|
        ensures PlannedStage(stages[i], baselines)
      {
        assert stages == rest || (|stages| == 1 + |rest| && stages[1..] == rest);
        assert stages != rest && i > 0 ==> stages[i] == stages[1..][i - 1];
      }
    }
  }

  /** A rollout between completed maps, scheduled over nodes whose last state is the current map. */
  ghost predicate Launched(o: Origin, work: Cluster, final: Cluster, strategy: Strategy, hash: Id -> nat) {
    && work.Keys == final.Keys
    && o.plan == StagesFor(work, final, strategy, hash) && o.plan != []
    && Similar(o.baselines, work)
    && forall n :: n in o.baselines ==> n in o.nodes && o.baselines[n] == Latest(o.nodes[n])
  }

  /** Every state has a schema, so publication does not have to fill it in. */
  predicate Versioned(c: Cluster) {
    forall n :: n in c ==> c[n].schema != 0
  }

  lemma CompleteIsVersioned(primary: Cluster, secondary: Cluster)
    ensures Versioned(Complete(primary, secondary))
  {
  }

  lemma RewriteIsVersioned(s: NodeState, final: NodeState, drops: set<Id>, puts: set<Id>)
    requires s.schema != 0 && final.schema != 0 && puts <= final.forwards.Keys
    ensures Rewrite(s, final, drops, puts).schema != 0
  {
  }

  lemma WaveIsVersioned(start: Cluster, final: Cluster, sel: set<Id>, exact: bool, j: nat)
    requires start.Keys == final.Keys && Versioned(start) && Versioned(final)
    ensures Versioned(WaveMap(start, final, sel, exact, j))
  {
    hide Rewrite;
    var prepared := Prepared(start, final, sel);
    var promoted := Promoted(prepared, start, final, sel);
    forall n | n in start
      ensures prepared[n].schema != 0 && promoted[n].schema != 0 && Cleaned(promoted, start, final, sel)[n].schema != 0
    {
      RewriteIsVersioned(start[n], final[n], {}, ExitIds(final[n], n, sel));
      RewriteIsVersioned(prepared[n], final[n], IngressIds(start[n], n, sel), IngressIds(final[n], n, sel));
      RewriteIsVersioned(promoted[n], final[n], ExitIds(start[n], n, sel), ExitIds(final[n], n, sel));
    }
  }

  lemma {:induction false} StepsToStages(work: Cluster, steps: seq<Step>)
    requires SameKeys(work, steps) && forall i :: 0 <= i < |steps| && steps[i].Release? ==> Versioned(steps[i].next)
    ensures forall i :: 0 <= i < |StagesOf(work, steps)| ==> Versioned(StagesOf(work, steps)[i].desired)
    decreases |steps|
  {
    hide SameUpToClass;
    if steps != [] {
      TailSameKeys(work, steps);
      StepsToStages(Reached(work, steps[0]), steps[1..]);
      StagesHead(work, steps);
      var stages, tail := StagesOf(work, steps), StagesOf(Reached(work, steps[0]), steps[1..]);
      forall i | 0 <= i < |stages|
        ensures Versioned(stages[i].desired)
      {
        if stages != tail && i > 0 {
          assert stages[i] == tail[i - 1];
        }
      }
    }
  }

  /** What a rollout between completed maps publishes is canonical already. */
  lemma {:induction false} StagesAreVersioned(current: Cluster, target: Cluster, strategy: Strategy, hash: Id -> nat)
    ensures var work, final := Complete(current, target), Complete(target, current);
            && work.Keys == final.Keys
            && forall i, n :: 0 <= i < |StagesFor(work, final, strategy, hash)| && n in StagesFor(work, final, strategy, hash)[i].desired ==>
                 Canon(StagesFor(work, final, strategy, hash)[i].desired[n]) == StagesFor(work, final, strategy, hash)[i].desired[n]
  {
    hide StagesOf, StepsOf, Complete, Versioned, WaveMap;
    var work, final := Complete(current, target), Complete(target, current);
    CompletedKeys(current, target);
    CompleteIsVersioned(current, target);
    CompleteIsVersioned(target, current);
    StepsHaveSameKeys(work, final, strategy, hash);
    StepsAreVersioned(work, final, strategy, hash);
    StepsToStages(work, StepsOf(work, final, strategy, hash));
    forall i, n | 0 <= i < |StagesFor(work, final, strategy, hash)| && n in StagesFor(work, final, strategy, hash)[i].desired
      ensures Canon(StagesFor(work, final, strategy, hash)[i].desired[n]) == StagesFor(work, final, strategy, hash)[i].desired[n]
    {
      IsCanonical(StagesFor(work, final, strategy, hash)[i].desired, n);
    }
  }

  lemma IsCanonical(c: Cluster, n: Id)
    requires Versioned(c) && n in c
    ensures Canon(c[n]) == c[n]
  {
  }

  lemma StepsAreVersioned(work: Cluster, final: Cluster, strategy: Strategy, hash: Id -> nat)
    requires work.Keys == final.Keys && Versioned(work) && Versioned(final)
    ensures forall i :: 0 <= i < |StepsOf(work, final, strategy, hash)| && StepsOf(work, final, strategy, hash)[i].Release? ==>
              Versioned(StepsOf(work, final, strategy, hash)[i].next)
  {
    hide ChangedIds, CanaryOf, WaveSteps, AfterWave, Versioned;
    var changed, canary := ChangedIds(work, final), CanaryOf(work, final, strategy, hash);
    WaveStepsVersioned(work, final, changed, Full, true);
    WaveStepsVersioned(work, final, canary, Canary, false);
    AfterIsWaveMap(work, final, canary);
    WaveIsVersioned(work, final, canary, false, 3);
    WaveStepsVersioned(AfterWave(work, final, canary), final, changed - canary, Full, true);
  }

  lemma WaveStepsVersioned(start: Cluster, final: Cluster, sel: set<Id>, wave: Wave, exact: bool)
    requires start.Keys == final.Keys && Versioned(start) && Versioned(final)
    ensures var steps := WaveSteps(start, final, sel, wave, exact);
            forall i :: 0 <= i < |steps| && steps[i].Release? ==> Versioned(steps[i].next)
  {
    hide Versioned, Prepared, Promoted, Cleaned;
    WaveIsVersioned(start, final, sel, exact, 1);
    WaveIsVersioned(start, final, sel, exact, 2);
    WaveIsVersioned(start, final, sel, exact, 3);
  }

  lemma LaunchedIsValid(o: Origin, work: Cluster, final: Cluster, strategy: Strategy, hash: Id -> nat)
    requires Launched(o, work, final, strategy, hash)
    ensures ValidOrigin(o)
  {
    hide SameUpToClass, StepsOf, StagesOf;
    StepsArePlanned(work, final, strategy, hash);
    StepsHaveSameKeys(work, final, strategy, hash);
    StagesArePlanned(work, StepsOf(work, final, strategy, hash), o.baselines);
  }

  /** No stage failed and nothing asked for a rollback. */
  predicate Undisturbed(s: Rollout) {
    forall i :: 0 <= i < |s.stages| ==> s.stages[i].status != Faulted
  }

  lemma UndisturbedIsOnTrack(s: Rollout, o: Origin)
    requires Inv(s, o)
    ensures Undisturbed(s) <==> OnTrack(s, o)
  {
    hide ValidOrigin, RowsOk, Increasing, Extends, Covered, Carries, Fresh, Restoring, AllApplied;
    if !OnTrack(s, o) {
      var f: nat :| Reverting(s, o, f);
      assert s.stages[f].status == Faulted;
    }
  }

  /** In every run, as long as no stage failed, what the nodes actually run is make-before-break:
      no ingress points at an exit that is not there yet or not there any more. */
  lemma {:induction false} ExitFirstInEveryRun(o: Origin, work: Cluster, final: Cluster, strategy: Strategy, hash: Id -> nat,
                            autoRollback: bool, moves: seq<Move>)
    requires WellPosed(work, final) && Accepted(work, final, strategy, hash) && PathStable(work, final)
    requires Launched(o, work, final, strategy, hash)
    ensures ValidOrigin(o)
    ensures var f := Moves(Start(o, autoRollback), moves);
            Undisturbed(f.store) ==> ExitFirst(Running(f, o))
  {
    hide WellPosed, PathStable, ValidOrigin, FleetInv, OnTrack, Live, Similar, ExitFirst, StepsOf, StagesOf, Moves, Undisturbed,
         FabricStable, RolesStable, Inv;
    LaunchedIsValid(o, work, final, strategy, hash);
    StartInv(o, autoRollback);
    MovesKeepInv(Start(o, autoRollback), o, moves);
    var f := Moves(Start(o, autoRollback), moves);
    FleetStore(f, o);
    UndisturbedIsOnTrack(f.store, o);
    if Undisturbed(f.store) {
      var nodes := FleetIsLive(f, o);
      var k := Acknowledged(f.store);
      WellPosedParts(work, final);
      ExitFirstThroughout(o.baselines, work, final, strategy, hash, k, nodes);
      ExitFirstUpToClass(Running(f, o), Live(o.baselines, o.plan, k, nodes));
    }
  }

  lemma WellPosedParts(work: Cluster, final: Cluster)
    requires WellPosed(work, final)
    ensures work.Keys == final.Keys && Consistent(work) && Consistent(final) && ValidCluster(work) && ValidCluster(final)
  {
  }

  lemma FleetStore(f: Fleet, o: Origin)
    requires FleetInv(f, o)
    ensures Inv(f.store, o) && f.store.current < |f.store.stages| && |f.store.stages| >= |o.plan|
  {
  }

  lemma ExitFirstUpToClass(c: Cluster, d: Cluster)
    requires Similar(c, d) && ExitFirst(d)
    ensures ExitFirst(c)
  {
    hide SameUpToClass, Served;
    forall n, id | At(c, n, id).Some?
      ensures Served(c, n, id)
    {
      SimilarEntries(c, d, n, id);
      SimilarEntries(c, d, At(c, n, id).value.exit, id);
      ServedUpToClass(c, n, id, d);
    }
  }

  /** A completed rollout has brought every node to the target; a rolled back one has brought every
      node back to where it was. */
  lemma {:induction false} OutcomeInEveryRun(o: Origin, work: Cluster, final: Cluster, strategy: Strategy, hash: Id -> nat,
                          autoRollback: bool, moves: seq<Move>)
    requires Launched(o, work, final, strategy, hash)
    ensures ValidOrigin(o)
    ensures var f := Moves(Start(o, autoRollback), moves);
            && (f.store.status == Completed ==> Similar(Running(f, o), final))
            && (f.store.status == RolledBack ==> Similar(Running(f, o), o.baselines))
  {
    hide ValidOrigin, FleetInv, OnTrack, Live, Similar, StagesFor, Moves, Inv;
    LaunchedIsValid(o, work, final, strategy, hash);
    StartInv(o, autoRollback);
    MovesKeepInv(Start(o, autoRollback), o, moves);
    var f := Moves(Start(o, autoRollback), moves);
    FleetStore(f, o);
    if f.store.status == Completed {
      CompletedIsOnTrack(f.store, o);
      var nodes := FleetIsLive(f, o);
      LiveAtEnd(o.baselines, o.plan, nodes);
      ReplayArrives(o.baselines, work, final, strategy, hash);
      SimilarTransitive(Running(f, o), Replayed(o.baselines, o.plan), final);
    }
    if f.store.status == RolledBack {
      forall n | n in o.baselines
        ensures SameUpToClass(Running(f, o)[n], o.baselines[n])
      {
        RolledBackNode(f, o, n);
      }
      assert Similar(Running(f, o), o.baselines) by { RunningKeys(f, o, o.baselines); }
    }
  }

  lemma RunningKeys(f: Fleet, o: Origin, c: Cluster)
    requires c.Keys == o.baselines.Keys && forall n :: n in o.baselines ==> SameUpToClass(Running(f, o)[n], c[n])
    ensures Similar(Running(f, o), c)
  {
    hide SameUpToClass;
  }

  lemma SimilarTransitive(a: Cluster, b: Cluster, c: Cluster)
    requires Similar(a, b) && Similar(b, c)
    ensures Similar(a, c)
  {
    hide SameUpToClass;
    forall n | n in a
      ensures SameUpToClass(a[n], c[n])
    {
      SimilarStates(a[n], b[n], c[n]);
    }
  }

  lemma CompletedIsOnTrack(s: Rollout, o: Origin)
    requires Inv(s, o) && s.status == Completed
    ensures OnTrack(s, o) && Acknowledged(s) == |o.plan|
  {
    hide ValidOrigin, RowsOk, Increasing, Extends, Covered, Carries, Fresh, AllApplied;
    assert forall f: nat :: Reverting(s, o, f) ==> s.status != Completed;
  }

  /** After a rollback a node runs its baseline: it acknowledged it, or never received anything. */
  lemma RolledBackNode(f: Fleet, o: Origin, n: Id)
    requires FleetInv(f, o) && f.store.status == RolledBack && n in o.baselines
    ensures SameUpToClass(Running(f, o)[n], o.baselines[n])
  {
    hide Inv, Sound, SameUpToClass, RowsTrue, AgentOk, FleetInv, Published, Running;
    var s := f.store;
    FleetStore(f, o);
    InvIsSound(s, o);
    BaselineNode(s, o, n);
    FleetAgent(f, o, n);
    if Published(s.stages, n) {
      RolledBackIsAcknowledged(s, o, n);
      AtLatest(f, o, s.stages[|o.plan|], n);
    } else {
      NothingPublished(s, o, n);
      QuietNode(f, o, n);
      SameAsItself(o.baselines[n]);
    }
  }

  lemma FleetAgent(f: Fleet, o: Origin, n: Id)
    requires FleetInv(f, o) && n in f.store.nodes && n in o.nodes
    ensures n in f.agents && AgentOk(f.agents[n], f.store.nodes[n], o.nodes[n])
    ensures forall i :: 0 <= i < |f.store.stages| ==> RowsTrue(f.store.stages[i], f.agents)
  {
    hide Inv, RowsTrue, ReportOk;
  }

  lemma QuietNode(f: Fleet, o: Origin, n: Id)
    requires n in f.agents && n in f.store.nodes && n in o.baselines && n in o.nodes
    requires AgentOk(f.agents[n], f.store.nodes[n], o.nodes[n]) && f.store.nodes[n] == o.nodes[n]
    ensures Running(f, o)[n] == Latest(o.nodes[n])
  {
  }

  lemma AtLatest(f: Fleet, o: Origin, st: StageRow, n: Id)
    requires n in f.agents && n in f.store.nodes && n in o.baselines && n in o.nodes
    requires AgentOk(f.agents[n], f.store.nodes[n], o.nodes[n])
    requires RowsTrue(st, f.agents) && n in st.rows && st.rows[n].status == Reported(Applied)
    requires st.rows[n].generation == Some(|f.store.nodes[n]| - 1)
    ensures Running(f, o)[n] == Latest(f.store.nodes[n])
  {
  }

  lemma NothingPublished(s: Rollout, o: Origin, n: Id)
    requires Sound(s, o) && n in o.baselines && !Published(s.stages, n)
    ensures n in s.nodes && n in o.nodes && s.nodes[n] == o.nodes[n] && o.baselines[n] == Latest(o.nodes[n])
  {
    hide Increasing, Covered, Carries, RowsOk;
  }
}
