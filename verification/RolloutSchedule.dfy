/** The order of stages in a rollout, the size of its canary and the length of its bake. */
module RolloutSchedule {
  import opened Spec
  import opened CanarySelection
  import opened RolloutPlan
  import opened RolloutWaves
  import opened RolloutTheorems

  /** Where a stage belongs: the phases of the canary wave, its bake, the phases of the full wave. */
  function Position(wave: Wave, phase: Phase): nat {
    match phase
    case Prepare => if wave == Canary then 0 else 4
    case Promote => if wave == Canary then 1 else 5
    case Cleanup => if wave == Canary then 2 else 6
    case Bake => 3
    case Compensate => 7
  }

  function StepPosition(step: Step): nat {
    if step.Soak? then 3 else Position(step.wave, step.phase)
  }

  predicate StepsOrdered(steps: seq<Step>) {
    && (forall i, j :: 0 <= i < j < |steps| ==> StepPosition(steps[i]) < StepPosition(steps[j]))
    && forall i :: 0 <= i < |steps| && steps[i].Release? ==>
         steps[i].wave != Compensation && steps[i].phase != Bake && steps[i].phase != Compensate
  }

  /** Every stage comes from a step, and bakes are kept. */
  predicate Ordered(stages: seq<Stage>, steps: seq<Step>) {
    && (forall i, j :: 0 <= i < j < |stages| ==>
          Position(stages[i].wave, stages[i].phase) < Position(stages[j].wave, stages[j].phase))
    && (forall i :: 0 <= i < |stages| ==> FromStep(stages[i], steps))
    && forall k :: 0 <= k < |steps| && steps[k].Soak? ==> Stage(Canary, Bake, steps[k].seconds, map[]) in stages
  }

  predicate FromStep(stage: Stage, steps: seq<Step>) {
    exists k :: 0 <= k < |steps| && OfStep(stage, steps[k])
  }

  predicate OfStep(stage: Stage, step: Step) {
    if step.Soak? then stage == Stage(Canary, Bake, step.seconds, map[])
    else stage.wave == step.wave && stage.phase == step.phase && stage.bakeSeconds == 0 && stage.desired != map[]
  }

  lemma {:induction false} StagesFollowSteps(work: Cluster, steps: seq<Step>)
    requires StepsOrdered(steps)
    ensures Ordered(StagesOf(work, steps), steps)
    decreases |steps|
  {
    if steps != [] {
      StagesFollowSteps(Reached(work, steps[0]), steps[1..]);
      StagesStep(work, steps);
      HeadFollows(work, steps[0]);
      hide Changed, StagesOf, HeadStages;
      OneMoreStep(HeadStages(work, steps[0]), StagesOf(Reached(work, steps[0]), steps[1..]), steps);
    }
  }

  lemma HeadFollows(work: Cluster, step: Step)
    ensures |HeadStages(work, step)| <= 1
    ensures forall i :: 0 <= i < |HeadStages(work, step)| ==> OfStep(HeadStages(work, step)[i], step)
    ensures step.Soak? ==> HeadStages(work, step) == [Stage(Canary, Bake, step.seconds, map[])]
  {
    hide Changed;
  }

  lemma OneMoreStep(head: seq<Stage>, tail: seq<Stage>, steps: seq<Step>)
    requires steps != [] && StepsOrdered(steps) && Ordered(tail, steps[1..])
    requires |head| <= 1 && forall i :: 0 <= i < |head| ==> OfStep(head[i], steps[0])
    requires steps[0].Soak? ==> head == [Stage(Canary, Bake, steps[0].seconds, map[])]
    ensures Ordered(head + tail, steps)
  {
    forall i | 0 <= i < |tail|
      ensures FromStep(tail[i], steps) && StepPosition(steps[0]) < Position(tail[i].wave, tail[i].phase)
    {
      assert FromStep(tail[i], steps[1..]);
      var k :| 0 <= k < |steps| - 1 && OfStep(tail[i], steps[1..][k]);
      assert steps[1..][k] == steps[k + 1];
    }
    forall i | 0 <= i < |head|
      ensures FromStep(head[i], steps) && Position(head[i].wave, head[i].phase) == StepPosition(steps[0])
    {
      assert OfStep(head[i], steps[0]);
    }
    forall k | 0 <= k < |steps| && steps[k].Soak?
      ensures Stage(Canary, Bake, steps[k].seconds, map[]) in head + tail
    {
      if k > 0 {
        assert steps[1..][k - 1] == steps[k];
      } else {
        assert (head + tail)[0] == head[0];
      }
    }
  }

  lemma StepsOfWave(start: Cluster, final: Cluster, sel: set<Id>, wave: Wave, exact: bool)
    requires start.Keys == final.Keys
    ensures var steps := WaveSteps(start, final, sel, wave, exact);
            && steps[0].Release? && steps[0].wave == wave && steps[0].phase == Prepare
            && steps[1].Release? && steps[1].wave == wave && steps[1].phase == Promote
            && steps[2].Release? && steps[2].wave == wave && steps[2].phase == Cleanup
  {
    hide Prepared, Promoted, Cleaned;
  }

  lemma AllStepsOrdered(work: Cluster, final: Cluster, strategy: Strategy, hash: Id -> nat)
    requires work.Keys == final.Keys
    ensures var steps := StepsOf(work, final, strategy, hash);
            && StepsOrdered(steps)
            && (forall k :: 0 <= k < |steps| && steps[k].Soak? ==> steps[k].seconds == strategy.bakeSeconds)
            && (CanaryOf(work, final, strategy, hash) != {} ==> |steps| == 7 && steps[3].Soak?)
            && (CanaryOf(work, final, strategy, hash) == {} ==>
                  forall k :: 0 <= k < |steps| ==> steps[k].Release? && steps[k].wave == Full)
  {
    hide WaveSteps, AfterWave, CanaryOf, ChangedIds;
    CanaryNeedsChanges(work, final, strategy, hash);
    var changed, canary := ChangedIds(work, final), CanaryOf(work, final, strategy, hash);
    StepsOfWave(work, final, changed, Full, true);
    StepsOfWave(work, final, canary, Canary, false);
    StepsOfWave(AfterWave(work, final, canary), final, changed - canary, Full, true);
  }

  lemma CanaryNeedsChanges(work: Cluster, final: Cluster, strategy: Strategy, hash: Id -> nat)
    requires work.Keys == final.Keys
    ensures CanaryOf(work, final, strategy, hash) != {} ==> ChangedIds(work, final) != {}
  {
    hide ChangedIds;
  }

  /** Stages come in one order, each at most once: prepare, promote and cleanup of the canary, its bake, then
      prepare, promote and cleanup of the rest. The bake is there exactly if there is a canary, for as long
      as the strategy says, and it publishes nothing; everything else does publish. */
  lemma {:induction false} StagesInOrder(work: Cluster, final: Cluster, strategy: Strategy, hash: Id -> nat)
    requires work.Keys == final.Keys
    ensures var stages, canary := StagesFor(work, final, strategy, hash), CanaryOf(work, final, strategy, hash);
            && (forall i, j :: 0 <= i < j < |stages| ==>
                  Position(stages[i].wave, stages[i].phase) < Position(stages[j].wave, stages[j].phase))
            && (forall i :: 0 <= i < |stages| ==>
                  if stages[i].phase == Bake then stages[i] == Stage(Canary, Bake, strategy.bakeSeconds, map[])
                  else stages[i].desired != map[] && stages[i].bakeSeconds == 0)
            && (canary != {} <==> exists i :: 0 <= i < |stages| && stages[i].phase == Bake)
            && (canary == {} ==> forall i :: 0 <= i < |stages| ==> stages[i].wave == Full)
  {
    hide StepsOf, StagesOf, CanaryOf;
    var steps := StepsOf(work, final, strategy, hash);
    var stages := StagesFor(work, final, strategy, hash);
    AllStepsOrdered(work, final, strategy, hash);
    StagesFollowSteps(work, steps);
    if CanaryOf(work, final, strategy, hash) != {} {
      assert Stage(Canary, Bake, steps[3].seconds, map[]) in stages;
    }
    forall i | 0 <= i < |stages|
      ensures FromStep(stages[i], steps)
    {
    }
  }

  /** Where no forward changes there is no canary and nothing to make before breaking: the nodes that change
      otherwise get their target in a single promote stage. */
  lemma {:induction false} NothingMovesInOneStage(work: Cluster, final: Cluster, strategy: Strategy, hash: Id -> nat)
    requires work.Keys == final.Keys && forall n, id :: n in work ==> SameEntry(At(work, n, id), At(final, n, id))
    ensures var stages := StagesFor(work, final, strategy, hash);
            && |stages| <= 1
            && (stages == [] <==> forall n :: n in work ==> SameUpToClass(work[n], final[n]))
            && (stages != [] ==>
                  && stages[0].wave == Full && stages[0].phase == Promote
                  && (forall n :: n in stages[0].desired <==> n in work && !SameUpToClass(work[n], final[n]))
                  && forall n :: n in stages[0].desired ==> stages[0].desired[n] == final[n])
  {
    hide SameUpToClass, SameEntry;
    assert ChangedIds(work, final) == {};
    var steps := StepsOf(work, final, strategy, hash);
    assert steps == [Release(Full, Promote, final)];
    assert StagesOf(final, steps[1..]) == [];
    forall n | n in work
      ensures n in Changed(work, final) <==> !SameUpToClass(work[n], final[n])
      ensures n in Changed(work, final) ==> Changed(work, final)[n] == final[n]
    {
    }
  }

  /** The canary is the share of the changed forwards that the strategy asks for, rounded up; a strategy that
      does not say, or asks for all of them, has none. */
  lemma CanaryIsItsShare(work: Cluster, final: Cluster, strategy: Strategy, hash: Id -> nat)
    ensures var canary, n := CanaryOf(work, final, strategy, hash), |ChangedIds(work, final)|;
            var percent := strategy.canaryPercent;
            && canary <= ChangedIds(work, final)
            && (percent == 0 || percent >= 100 ==> canary == {})
            && (canary != {} ==> 100 * (|canary| - 1) < n * percent <= 100 * |canary| && |canary| < n)
            && (0 < percent < 100 && canary == {} ==> n < 2 || n * percent > 100 * (n - 1))
  {
    hide ChangedIds, CanarySet;
    CanariesGrow(hash, ChangedIds(work, final), EffectivePercent(strategy), EffectivePercent(strategy));
  }
}
