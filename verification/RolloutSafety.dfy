/** What every prefix of a staged rollout guarantees about the nodes that run it. */
module RolloutSafety {
  import opened Spec
  import opened CanarySelection
  import opened RolloutPlan
  import opened RolloutWaves

  lemma {:induction false} FrontierAppend(work: Cluster, s: seq<Step>, t: seq<Step>, i: nat)
    requires i <= |s| + |t|
    ensures Frontier(work, s + t, i) ==
            if i <= |s| then Frontier(work, s, i) else Frontier(Frontier(work, s, |s|), t, i - |s|)
    decreases |s|
  {
    if s == [] {
      assert s + t == t;
    } else if i > 0 {
      assert (s + t)[1..] == s[1..] + t;
      FrontierAppend(Reached(work, s[0]), s[1..], t, i - 1);
    }
  }

  lemma {:induction false} WaveFrontier(start: Cluster, final: Cluster, sel: set<Id>, wave: Wave, exact: bool, j: nat)
    requires start.Keys == final.Keys && j <= 3
    ensures |WaveSteps(start, final, sel, wave, exact)| == 3
    ensures Frontier(start, WaveSteps(start, final, sel, wave, exact), j) == WaveMap(start, final, sel, exact, j)
  {
    hide Prepared, Promoted, Cleaned;
    var steps := WaveSteps(start, final, sel, wave, exact);
    assert j == 2 ==> Frontier(start, steps, 2) == Frontier(steps[0].next, steps[1..], 1);
    assert j == 3 ==> Frontier(start, steps, 3) == Frontier(steps[0].next, steps[1..], 2)
                                                 == Frontier(steps[1].next, steps[1..][1..], 1);
  }

  /** Which wave, and which phase of it, a step of a rollout belongs to. `None` is the bake, or
      a rollout that changes no forward. */
  datatype Place = Place(start: Cluster, done: set<Id>, sel: set<Id>, exact: bool, phase: nat)

  ghost function PlaceOf(work: Cluster, final: Cluster, strategy: Strategy, hash: Id -> nat, i: nat): Option<Place>
    requires work.Keys == final.Keys
  {
    var changed := ChangedIds(work, final);
    var canary := CanaryOf(work, final, strategy, hash);
    if changed == {} then None
    else if canary == {} then (if i < 3 then Some(Place(work, {}, changed, true, i)) else None)
    else if i < 3 then Some(Place(work, {}, canary, false, i))
    else if 4 <= i < 7 then Some(Place(AfterWave(work, final, canary), canary, changed - canary, true, i - 4))
    else None
  }

  lemma PlaceIsWave(work: Cluster, final: Cluster, strategy: Strategy, hash: Id -> nat, i: nat)
    requires StableMove(work, final) && ValidCluster(work) && ValidCluster(final)
    requires PlaceOf(work, final, strategy, hash, i).Some?
    ensures var p := PlaceOf(work, final, strategy, hash, i).value;
            WaveOf(p.start, work, final, p.done, p.sel, p.exact)
  {
    hide AfterWave, ChangedIds, ValidCluster, Consistent, RolesStable;
    var changed := ChangedIds(work, final);
    var canary := CanaryOf(work, final, strategy, hash);
    assert Progress(work, work, final, {});
    WaveProgress(work, work, final, {}, canary);
    assert {} + canary == canary;
  }

  /** The two maps around step `i` are those around a phase of its wave, or, during the bake,
      both the map the canary wave reached. */
  ghost predicate PlacedStep(work: Cluster, final: Cluster, strategy: Strategy, hash: Id -> nat, i: nat)
    requires work.Keys == final.Keys
    requires i < |StepsOf(work, final, strategy, hash)|
  {
    var steps := StepsOf(work, final, strategy, hash);
    var a, b := Frontier(work, steps, i), Frontier(work, steps, i + 1);
    match PlaceOf(work, final, strategy, hash, i)
    case Some(p) =>
      && p.phase < 3 && p.start.Keys == final.Keys
      && a == WaveMap(p.start, final, p.sel, p.exact, p.phase)
      && b == WaveMap(p.start, final, p.sel, p.exact, p.phase + 1)
    case None =>
      a == b == WaveMap(work, final, CanaryOf(work, final, strategy, hash), false, 3)
  }

  lemma PlaceFrontier(work: Cluster, final: Cluster, strategy: Strategy, hash: Id -> nat, i: nat)
    requires work.Keys == final.Keys && ChangedIds(work, final) != {}
    requires i < |StepsOf(work, final, strategy, hash)|
    ensures PlacedStep(work, final, strategy, hash, i)
  {
    hide AfterWave, ChangedIds, CanaryOf, WaveSteps, WaveMap, Frontier;
    if CanaryOf(work, final, strategy, hash) == {} {
      WaveFrontier(work, final, ChangedIds(work, final), Full, true, i);
      WaveFrontier(work, final, ChangedIds(work, final), Full, true, i + 1);
    } else {
      CanaryFrontier(work, final, strategy, hash, i);
      CanaryFrontier(work, final, strategy, hash, i + 1);
    }
  }

  /** The maps of a rollout with a canary wave: four up to the bake, then four from it. */
  lemma {:induction false} CanaryFrontier(work: Cluster, final: Cluster, strategy: Strategy, hash: Id -> nat, i: nat)
    requires work.Keys == final.Keys && CanaryOf(work, final, strategy, hash) != {}
    requires i <= 7
    ensures var changed, canary := ChangedIds(work, final), CanaryOf(work, final, strategy, hash);
            var steps := StepsOf(work, final, strategy, hash);
            && changed != {} && |steps| == 7
            && (i <= 4 ==> Frontier(work, steps, i) == WaveMap(work, final, canary, false, if i < 3 then i else 3))
            && (i >= 4 ==> Frontier(work, steps, i) ==
                           WaveMap(AfterWave(work, final, canary), final, changed - canary, true, i - 4))
  {
    hide AfterWave, ChangedIds, WaveSteps, Frontier;
    var changed := ChangedIds(work, final);
    var canary := CanaryOf(work, final, strategy, hash);
    var a := WaveSteps(work, final, canary, Canary, false);
    var after := AfterWave(work, final, canary);
    var b := WaveSteps(after, final, changed - canary, Full, true);
    var soak := Soak(strategy.bakeSeconds);
    assert StepsOf(work, final, strategy, hash) == (a + [soak]) + b;
    FrontierAppend(work, a + [soak], b, i);
    SoakFrontier(work, a, soak, if i < 4 then i else 4);
    WaveFrontier(work, final, canary, Canary, false, if i < 3 then i else 3);
    if i >= 4 {
      WaveFrontier(after, final, changed - canary, Full, true, i - 4);
    }
  }

  lemma {:induction false} SoakFrontier(work: Cluster, s: seq<Step>, soak: Step, i: nat)
    requires soak.Soak? && i <= |s| + 1
    ensures Frontier(work, s + [soak], i) == Frontier(work, s, if i <= |s| then i else |s|)
  {
    FrontierAppend(work, s, [soak], i);
    assert Frontier(Frontier(work, s, |s|), [soak], 1) == Frontier(work, s, |s|);
  }

  lemma UnmovedRollout(c: Cluster, work: Cluster, final: Cluster, a: Cluster, b: Cluster)
    requires StableMove(work, final) && ValidCluster(work) && ChangedIds(work, final) == {}
    requires Between(c, a, b)
    requires (a == work || a == final) && (b == work || b == final)
    ensures ExitFirst(c)
  {
    forall n, id | At(c, n, id).Some?
      ensures Served(c, n, id)
    {
      forall m
        ensures SameEntry(At(c, m, id), At(work, m, id))
      {
        BetweenEntries(c, a, b, m);
        assert SameEntry(At(c, m, id), At(a, m, id)) || SameEntry(At(c, m, id), At(b, m, id));
        UnchangedEntry(work, final, m, id);
      }
      UntouchedIsServed(c, work, n, id);
    }
  }

  lemma {:induction false} ExitFirstAtStep(c: Cluster, work: Cluster, final: Cluster, strategy: Strategy, hash: Id -> nat, i: nat)
    requires StableMove(work, final) && PathStable(work, final)
    requires ValidCluster(work) && ValidCluster(final)
    requires i < |StepsOf(work, final, strategy, hash)|
    requires var steps := StepsOf(work, final, strategy, hash);
             Between(c, Frontier(work, steps, i), Frontier(work, steps, i + 1))
    ensures ExitFirst(c)
  {
    hide StepsOf, Frontier, ExitFirst, ValidCluster, Between, RolesStable, PathStable, Consistent, PlaceOf,
         WaveMap, ChangedIds, CanaryOf;
    if ChangedIds(work, final) == {} {
      UnmovedSteps(work, final, strategy, hash);
      UnmovedRollout(c, work, final, work, final);
    } else {
      PlaceFrontier(work, final, strategy, hash, i);
      match PlaceOf(work, final, strategy, hash, i) {
        case Some(p) =>
          PlaceIsWave(work, final, strategy, hash, i);
          WaveIsExitFirst(c, p.start, work, final, p.done, p.sel, p.exact, p.phase);
        case None =>
          var canary := CanaryOf(work, final, strategy, hash);
          NoPlaceIsBake(work, final, strategy, hash, i);
          PlaceIsWave(work, final, strategy, hash, 0);
          BetweenSame(c, WaveMap(work, final, canary, false, 2), WaveMap(work, final, canary, false, 3));
          WaveIsExitFirst(c, work, work, final, {}, canary, false, 2);
      }
    }
  }

  /** Make before break: with every retained exit stable, no prefix of the rollout, plus any
      part of the next stage, leaves an ingress pointing at an exit that does not listen. */
  lemma {:induction false} ExitFirstThroughout(live: Cluster, work: Cluster, final: Cluster, strategy: Strategy, hash: Id -> nat,
                            k: nat, nodes: set<Id>)
    requires StableMove(work, final) && PathStable(work, final)
    requires ValidCluster(work) && ValidCluster(final)
    requires Similar(live, work)
    requires k <= |StagesOf(work, StepsOf(work, final, strategy, hash))|
    ensures ExitFirst(Live(live, StagesOf(work, StepsOf(work, final, strategy, hash)), k, nodes))
  {
    hide StepsOf, StagesOf, Frontier, ExitFirst, ValidCluster, Live, Similar, SameKeys, Between,
         RolesStable, PathStable, Consistent, AtStep;
    var steps := StepsOf(work, final, strategy, hash);
    StepsHaveSameKeys(work, final, strategy, hash);
    var i := LiveIsBetween(work, steps, live, k, nodes);
    var c := Live(live, StagesOf(work, steps), k, nodes);
    StepsNonempty(work, final, strategy, hash);
    StepAt(c, work, final, strategy, hash, i);
    ExitFirstAtStep(c, work, final, strategy, hash, if i < |steps| then i else |steps| - 1);
  }

  lemma BetweenSame(c: Cluster, a: Cluster, b: Cluster)
    requires Between(c, b, b) && a.Keys == b.Keys
    ensures Between(c, a, b)
  {
  }

  /** At the end of the rollout the nodes are also between its last two maps. */
  lemma {:induction false} StepAt(c: Cluster, work: Cluster, final: Cluster, strategy: Strategy, hash: Id -> nat, i: nat)
    requires work.Keys == final.Keys && AtStep(c, work, StepsOf(work, final, strategy, hash), i)
    ensures var steps := StepsOf(work, final, strategy, hash);
            var at := if i < |steps| then i else |steps| - 1;
            i <= |steps| && (steps != [] ==> Between(c, Frontier(work, steps, at), Frontier(work, steps, at + 1)))
  {
    hide Frontier, StepsOf;
    var steps := StepsOf(work, final, strategy, hash);
    StepsHaveSameKeys(work, final, strategy, hash);
    if steps != [] {
      FrontierKeys(work, steps, |steps| - 1);
      FrontierKeys(work, steps, |steps|);
    }
  }

  lemma {:induction false} FrontierKeys(work: Cluster, steps: seq<Step>, i: nat)
    requires SameKeys(work, steps) && i <= |steps|
    ensures Frontier(work, steps, i).Keys == work.Keys
    decreases i
  {
    if i > 0 {
      TailSameKeys(work, steps);
      FrontierKeys(Reached(work, steps[0]), steps[1..], i - 1);
    }
  }

  lemma StepsNonempty(work: Cluster, final: Cluster, strategy: Strategy, hash: Id -> nat)
    requires work.Keys == final.Keys
    ensures StepsOf(work, final, strategy, hash) != []
  {
    hide WaveSteps, ChangedIds, CanaryOf;
  }

  lemma {:induction false} UnmovedSteps(work: Cluster, final: Cluster, strategy: Strategy, hash: Id -> nat)
    requires work.Keys == final.Keys && ChangedIds(work, final) == {}
    ensures var steps := StepsOf(work, final, strategy, hash);
            |steps| == 1 && Frontier(work, steps, 0) == work && Frontier(work, steps, 1) == final
  {
    hide WaveSteps, ChangedIds, CanaryOf;
    var steps := StepsOf(work, final, strategy, hash);
    assert Frontier(work, steps, 1) == Frontier(final, steps[1..], 0);
  }

  lemma NoPlaceIsBake(work: Cluster, final: Cluster, strategy: Strategy, hash: Id -> nat, i: nat)
    requires work.Keys == final.Keys && ChangedIds(work, final) != {}
    requires i < |StepsOf(work, final, strategy, hash)| && PlaceOf(work, final, strategy, hash, i).None?
    ensures PlaceOf(work, final, strategy, hash, 0) ==
            Some(Place(work, {}, CanaryOf(work, final, strategy, hash), false, 0))
  {
    hide WaveSteps, ChangedIds, CanaryOf;
  }
}
