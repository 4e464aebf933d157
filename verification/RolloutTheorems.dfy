/** The promises of a staged rollout: exit-first exactly when retained exits are stable, arrival
    at the target, and canary isolation. */
module RolloutTheorems {
  import opened Spec
  import opened CanarySelection
  import opened RolloutPlan
  import opened RolloutWaves
  import opened RolloutSafety

  /** What the controller is given: consistent, valid maps of the same nodes. */
  ghost predicate WellPosed(work: Cluster, final: Cluster) {
    && work.Keys == final.Keys
    && Consistent(work) && Consistent(final)
    && ValidCluster(work) && ValidCluster(final)
  }

  lemma CompleteIsWellPosed(current: Cluster, target: Cluster)
    requires Consistent(current) && Consistent(target)
    requires ValidCluster(current) && ValidCluster(target)
    ensures WellPosed(Complete(current, target), Complete(target, current))
  {
    CompleteOne(current, target);
    CompleteOne(target, current);
  }

  lemma CompleteOne(primary: Cluster, secondary: Cluster)
    requires Consistent(primary) && ValidCluster(primary)
    ensures Consistent(Complete(primary, secondary)) && ValidCluster(Complete(primary, secondary))
  {
    hide ValidNode, Canon, Consistent;
    var c := Complete(primary, secondary);
    CompleteIsConsistent(primary, secondary);
    forall n | n in c
      ensures ValidNode(n, c[n])
    {
      EmptyIsValid(n);
      if n in primary {
        CanonIsValid(n, primary[n]);
      }
    }
  }

  lemma CompleteIsConsistent(primary: Cluster, secondary: Cluster)
    requires Consistent(primary)
    ensures Consistent(Complete(primary, secondary))
  {
    hide Consistent, At, Complete;
    var c := Complete(primary, secondary);
    forall n, id
      ensures At(c, n, id) == At(primary, n, id)
    {
      CompleteKeepsEntries(primary, secondary, n, id);
    }
    SameEntriesConsistent(primary, c);
  }

  lemma CompletedKeys(current: Cluster, target: Cluster)
    ensures Complete(current, target).Keys == Complete(target, current).Keys
  {
    hide Canon;
  }

  lemma CompleteKeepsEntries(primary: Cluster, secondary: Cluster, n: Id, id: Id)
    ensures At(Complete(primary, secondary), n, id) == At(primary, n, id)
  {
  }

  lemma EmptyIsValid(n: Id)
    ensures ValidNode(n, EmptyState())
  {
  }

  lemma SameEntriesConsistent(a: Cluster, b: Cluster)
    requires Consistent(a) && forall n, id :: At(b, n, id) == At(a, n, id)
    ensures Consistent(b)
  {
    hide At, SamePlacement;
    forall n, id | At(b, n, id).Some?
      ensures Placed(b, n, id)
    {
      assert At(a, n, id).Some? && Placed(a, n, id);
    }
    forall m, n, id | At(b, m, id).Some? && At(b, n, id).Some?
      ensures SamePlacement(At(b, m, id).value, At(b, n, id).value)
    {
      assert At(a, m, id).Some? && At(a, n, id).Some?;
    }
  }

  lemma CanonIsValid(n: Id, s: NodeState)
    requires ValidNode(n, s)
    ensures ValidNode(n, Canon(s))
  {
    hide ValidForward, Disjoint, ValidLink, LinksApart, InServiceRange;
    var t := Canon(s);
    forall id | id in t.forwards
      ensures ValidForward(n, t, t.forwards[id])
    {
      CanonKeepsForward(n, s, s.forwards[id]);
    }
    forall l | l in t.links
      ensures ValidLink(n, t, t.links[l])
    {
      CanonKeepsLink(n, s, s.links[l]);
    }
    SameRanges(s, t, Prefix(0, 0));
  }

  lemma CanonKeepsForward(n: Id, s: NodeState, f: Forward)
    requires ValidForward(n, s, f)
    ensures ValidForward(n, Canon(s), f)
  {
    hide InServiceRange;
    SameRanges(s, Canon(s), Prefix(0, 0));
  }

  lemma CanonKeepsLink(n: Id, s: NodeState, l: Link)
    requires ValidLink(n, s, l)
    ensures ValidLink(n, Canon(s), l)
  {
    hide InServiceRange, MeetsServiceRange;
    SameRanges(s, Canon(s), l.local);
  }

  // ---------------------------------------------------------------- arrival

  /** Every working map is reached by a prefix of the published stages. */
  lemma {:induction false} ReachFrontier(work: Cluster, steps: seq<Step>, live: Cluster, i: nat) returns (k: nat)
    requires Similar(live, work) && SameKeys(work, steps) && i <= |steps|
    ensures k <= |StagesOf(work, steps)|
    ensures Similar(Live(live, StagesOf(work, steps), k, {}), Frontier(work, steps, i))
    ensures i == |steps| ==> k == |StagesOf(work, steps)|
    decreases |steps|
  {
    hide Changed, Similar, SameKeys, Install, StagesOf, Live;
    var stages := StagesOf(work, steps);
    if i == 0 {
      k := 0;
      NothingInstalled(live, stages);
      assert steps == [] ==> stages == [] by { EmptySteps(work); }
    } else {
      var next, rest := Reached(work, steps[0]), steps[1..];
      TailSameKeys(work, steps);
      StagesHead(work, steps);
      if steps[0].Release? && Changed(work, next) == map[] {
        NothingChanged(live, work, next);
        k := ReachFrontier(next, rest, live, i - 1);
      } else {
        InstallIsBetween(work, steps, live, stages[0], {});
        k := ReachFrontier(next, rest, Install(live, stages[0], live.Keys), i - 1);
        k := k + 1;
        LiveHead(live, stages, k, {});
      }
    }
  }

  lemma {:induction false} EmptySteps(work: Cluster)
    ensures StagesOf(work, []) == []
  {
  }

  lemma {:induction false} StagesHead(work: Cluster, steps: seq<Step>)
    requires steps != []
    ensures var stages, tail := StagesOf(work, steps), StagesOf(Reached(work, steps[0]), steps[1..]);
            if steps[0].Release? && Changed(work, steps[0].next) == map[] then stages == tail
            else && stages != [] && stages[1..] == tail && |stages| == 1 + |tail|
                 && stages[0].desired == if steps[0].Release? then Changed(work, steps[0].next) else map[]
  {
    hide Changed;
  }

  lemma {:induction false} LiveHead(live: Cluster, stages: seq<Stage>, k: nat, nodes: set<Id>)
    requires 0 < k <= |stages|
    ensures Live(live, stages, k, nodes) == Live(Install(live, stages[0], live.Keys), stages[1..], k - 1, nodes)
  {
  }

  lemma {:induction false} NothingInstalled(live: Cluster, stages: seq<Stage>)
    ensures Live(live, stages, 0, {}) == live
  {
    if stages != [] {
      assert Install(live, stages[0], {}) == live;
    }
  }

  /** Installing every published stage in order turns the completed current map into the
      completed target map, up to traffic classes. */
  lemma ReplayArrives(live: Cluster, work: Cluster, final: Cluster, strategy: Strategy, hash: Id -> nat)
    requires work.Keys == final.Keys && Similar(live, work)
    ensures Similar(Replayed(live, StagesFor(work, final, strategy, hash)), final)
  {
    hide StepsOf, StagesOf, Frontier, Live, Similar, SameKeys, ChangedIds, PlaceOf;
    var steps := StepsOf(work, final, strategy, hash);
    StepsHaveSameKeys(work, final, strategy, hash);
    var k := ReachFrontier(work, steps, live, |steps|);
    LastFrontier(work, final, strategy, hash);
  }

  lemma {:induction false} LastFrontier(work: Cluster, final: Cluster, strategy: Strategy, hash: Id -> nat)
    requires work.Keys == final.Keys
    ensures var steps := StepsOf(work, final, strategy, hash);
            Frontier(work, steps, |steps|) == final
  {
    hide Frontier, ChangedIds, CanaryOf, AfterWave, WaveSteps;
    if ChangedIds(work, final) == {} {
      UnmovedSteps(work, final, strategy, hash);
    } else if CanaryOf(work, final, strategy, hash) == {} {
      WaveFrontier(work, final, ChangedIds(work, final), Full, true, 3);
    } else {
      CanaryFrontier(work, final, strategy, hash, 7);
    }
  }

  // ---------------------------------------------------------------- exit-first, exactly

  /** A retained exit that changes its listener breaks its ingress at the prepare barrier. */
  lemma UnstableExitBreaks(live: Cluster, work: Cluster, final: Cluster, strategy: Strategy, hash: Id -> nat)
    returns (k: nat)
    requires WellPosed(work, final) && RolesStable(work, final) && Similar(live, work)
    requires !PathStable(work, final)
    ensures k <= |StagesFor(work, final, strategy, hash)|
    ensures !ExitFirst(Live(live, StagesFor(work, final, strategy, hash), k, {}))
  {
    hide StepsOf, StagesOf, Frontier, Live, Similar, SameKeys, ChangedIds, CanaryOf, PlaceOf, ExitFirst,
         RolesStable, Consistent, ValidCluster;
    var x, id :| At(work, x, id).Some? && At(final, x, id).Some? &&
                 !RetainedExit(x, At(work, x, id).value, At(final, x, id).value);
    MovedWhenUnstable(work, final, x, id);
    var i := PrepareStepOf(work, final, strategy, hash, id);
    var steps := StepsOf(work, final, strategy, hash);
    StepsHaveSameKeys(work, final, strategy, hash);
    k := ReachFrontier(work, steps, live, i + 1);
    PreparedEntries(Live(live, StagesOf(work, steps), k, {}), work, final, strategy, hash, i, id);
    BrokenAfterPrepare(Live(live, StagesOf(work, steps), k, {}), work, final, x, id);
  }

  /** What the nodes show of a moved forward once its prepare step is installed everywhere. */
  lemma {:induction false} PreparedEntries(c: Cluster, work: Cluster, final: Cluster, strategy: Strategy, hash: Id -> nat, i: nat, id: Id)
    requires WellPosed(work, final) && RolesStable(work, final) && id in ChangedIds(work, final)
    requires i < |StepsOf(work, final, strategy, hash)|
    requires PlaceOf(work, final, strategy, hash, i).Some?
    requires var p := PlaceOf(work, final, strategy, hash, i).value; p.phase == 0 && id in p.sel
    requires Similar(c, Frontier(work, StepsOf(work, final, strategy, hash), i + 1))
    ensures forall m :: SameEntry(At(c, m, id), EntryAfter(work, final, 1, m, id))
  {
    hide StepsOf, Frontier, Similar, ChangedIds, CanaryOf, PlaceOf, RolesStable, Consistent, ValidCluster,
         WaveMap, EntryAfter, Progress;
    PlaceFrontier(work, final, strategy, hash, i);
    PlaceIsWave(work, final, strategy, hash, i);
    var p := PlaceOf(work, final, strategy, hash, i).value;
    forall m
      ensures SameEntry(At(c, m, id), EntryAfter(work, final, 1, m, id))
    {
      SimilarEntries(c, WaveMap(p.start, final, p.sel, p.exact, 1), m, id);
      MovedEntry(p.start, work, final, p.done, p.sel, p.exact, 1, m, id);
    }
  }

  lemma SimilarEntries(a: Cluster, b: Cluster, n: Id, id: Id)
    requires Similar(a, b)
    ensures SameEntry(At(a, n, id), At(b, n, id))
  {
    if n in a {
      SameUpToClassEntries(a[n], b[n]);
    }
  }

  lemma MovedWhenUnstable(work: Cluster, final: Cluster, n: Id, id: Id)
    requires work.Keys == final.Keys
    requires At(work, n, id).Some? && At(final, n, id).Some?
    requires !RetainedExit(n, At(work, n, id).value, At(final, n, id).value)
    ensures id in ChangedIds(work, final)
  {
    assert !SameEntry(At(work, n, id), At(final, n, id));
    assert n in work.Keys + final.Keys;
  }

  /** The prepare step of the wave that moves a forward. */
  lemma PrepareStepOf(work: Cluster, final: Cluster, strategy: Strategy, hash: Id -> nat, id: Id) returns (i: nat)
    requires work.Keys == final.Keys && id in ChangedIds(work, final)
    ensures i < |StepsOf(work, final, strategy, hash)|
    ensures PlaceOf(work, final, strategy, hash, i).Some?
    ensures var p := PlaceOf(work, final, strategy, hash, i).value; p.phase == 0 && id in p.sel
  {
    hide WaveSteps, ChangedIds, AfterWave;
    var canary := CanaryOf(work, final, strategy, hash);
    i := if canary == {} || id in canary then 0 else 4;
  }

  lemma BrokenAfterPrepare(c: Cluster, work: Cluster, final: Cluster, x: Id, id: Id)
    requires WellPosed(work, final) && RolesStable(work, final)
    requires At(work, x, id).Some? && At(final, x, id).Some?
    requires !RetainedExit(x, At(work, x, id).value, At(final, x, id).value)
    requires forall m :: SameEntry(At(c, m, id), EntryAfter(work, final, 1, m, id))
    ensures !ExitFirst(c)
  {
    hide ValidCluster, EntryAfter, Consistent, RolesStable, At;
    var n := At(work, x, id).value.ingress;
    OldIngressStays(work, final, x, id);
    assert SameEntry(At(c, n, id), EntryAfter(work, final, 1, n, id));
    assert SameEntry(At(c, x, id), EntryAfter(work, final, 1, x, id));
    ValidExit(work, final, x, id);
    assert !Served(c, n, id);
  }

  /** After the prepare barrier the ingress of a retained exit still has its old entry, and the
      exit already has the new one. */
  lemma OldIngressStays(work: Cluster, final: Cluster, x: Id, id: Id)
    requires WellPosed(work, final) && RolesStable(work, final)
    requires ExitAt(work, x, id) && ExitAt(final, x, id)
    ensures var n := At(work, x, id).value.ingress;
            && At(work, n, id).Some? && SamePlacement(At(work, n, id).value, At(work, x, id).value)
            && EntryAfter(work, final, 1, n, id) == At(work, n, id)
            && EntryAfter(work, final, 1, x, id) == At(final, x, id)
  {
    hide Consistent, RolesStable, ValidCluster, At;
    EntryIsPlaced(work, x, id);
    var n := At(work, x, id).value.ingress;
    OnePlacement(work, x, n, id);
    SettledEverywhere(work, final, n, id);
    SettledEverywhere(work, final, x, id);
  }

  lemma ValidExit(work: Cluster, final: Cluster, x: Id, id: Id)
    requires WellPosed(work, final) && ExitAt(work, x, id) && ExitAt(final, x, id)
    ensures At(work, x, id).value.vip.Some? && At(final, x, id).value.vip.Some?
  {
    assert ValidForward(x, work[x], work[x].forwards[id]);
    assert ValidForward(x, final[x], final[x].forwards[id]);
  }

  /** A rollout of well-posed maps is make-before-break on every prefix and every subset of the
      next stage if and only if no retained exit changes its listener or drops a protocol. */
  lemma {:induction false} ExitFirstExactly(live: Cluster, work: Cluster, final: Cluster, strategy: Strategy, hash: Id -> nat)
    requires WellPosed(work, final) && Accepted(work, final, strategy, hash) && Similar(live, work)
    ensures PathStable(work, final) <==>
            forall k: nat, nodes: set<Id> :: k <= |StagesFor(work, final, strategy, hash)| ==>
              ExitFirst(Live(live, StagesFor(work, final, strategy, hash), k, nodes))
  {
    hide StepsOf, StagesOf, Live, ExitFirst, PathStable, Similar, RolesStable, Consistent, ValidCluster, FabricStable;
    if PathStable(work, final) {
      forall k: nat, nodes: set<Id> | k <= |StagesFor(work, final, strategy, hash)|
        ensures ExitFirst(Live(live, StagesFor(work, final, strategy, hash), k, nodes))
      {
        ExitFirstThroughout(live, work, final, strategy, hash, k, nodes);
      }
    } else {
      var k := UnstableExitBreaks(live, work, final, strategy, hash);
    }
  }

  // ---------------------------------------------------------------- canary isolation

  lemma {:induction false} StagesAppend(work: Cluster, s: seq<Step>, t: seq<Step>)
    ensures StagesOf(work, s + t) == StagesOf(work, s) + StagesOf(Frontier(work, s, |s|), t)
    decreases |s|
  {
    hide Changed, StagesOf;
    if s == [] {
      assert s + t == t;
      EmptySteps(work);
    } else {
      assert (s + t)[1..] == s[1..] + t && (s + t)[0] == s[0];
      StagesAppend(Reached(work, s[0]), s[1..], t);
      StagesStep(work, s);
      StagesStep(work, s + t);
    }
  }

  /** What the first step contributes. */
  function HeadStages(work: Cluster, step: Step): seq<Stage> {
    if step.Soak? then [Stage(Canary, Bake, step.seconds, map[])]
    else if Changed(work, step.next) == map[] then []
    else [Stage(step.wave, step.phase, 0, Changed(work, step.next))]
  }

  lemma {:induction false} StagesStep(work: Cluster, steps: seq<Step>)
    requires steps != []
    ensures StagesOf(work, steps) == HeadStages(work, steps[0]) + StagesOf(Reached(work, steps[0]), steps[1..])
  {
    hide Changed;
  }

  lemma {:induction false} LivePrefix(live: Cluster, s: seq<Stage>, t: seq<Stage>, k: nat, nodes: set<Id>)
    requires k < |s|
    ensures Live(live, s + t, k, nodes) == Live(live, s, k, nodes)
    decreases k
  {
    if k > 0 {
      assert (s + t)[1..] == s[1..] + t;
      LivePrefix(Install(live, s[0], live.Keys), s[1..], t, k - 1, nodes);
    }
  }

  /** The stages of the canary wave, ending with the bake. */
  ghost function CanaryStages(work: Cluster, final: Cluster, strategy: Strategy, hash: Id -> nat): seq<Stage>
    requires work.Keys == final.Keys
  {
    StagesOf(work, CanarySteps(work, final, strategy, hash))
  }

  ghost function CanarySteps(work: Cluster, final: Cluster, strategy: Strategy, hash: Id -> nat): seq<Step>
    requires work.Keys == final.Keys
  {
    WaveSteps(work, final, CanaryOf(work, final, strategy, hash), Canary, false) + [Soak(strategy.bakeSeconds)]
  }

  lemma CanaryStagesComeFirst(work: Cluster, final: Cluster, strategy: Strategy, hash: Id -> nat)
    requires work.Keys == final.Keys && CanaryOf(work, final, strategy, hash) != {}
    ensures CanaryStages(work, final, strategy, hash) <= StagesFor(work, final, strategy, hash)
    ensures var stages := CanaryStages(work, final, strategy, hash);
            stages != [] && stages[|stages| - 1] == Stage(Canary, Bake, strategy.bakeSeconds, map[])
  {
    hide WaveSteps, ChangedIds, StagesOf;
    var canary := CanaryOf(work, final, strategy, hash);
    var wave := WaveSteps(work, final, canary, Canary, false);
    var soak := Soak(strategy.bakeSeconds);
    var tail := WaveSteps(AfterWave(work, final, canary), final, ChangedIds(work, final) - canary, Full, true);
    StagesAppend(work, wave + [soak], tail);
    StagesAppend(work, wave, [soak]);
    SoakStage(Frontier(work, wave, 3), soak);
  }

  lemma {:induction false} SoakStage(work: Cluster, soak: Step)
    requires soak.Soak?
    ensures StagesOf(work, [soak]) == [Stage(Canary, Bake, soak.seconds, map[])]
  {
    assert [soak][1..] == [];
  }

  lemma {:induction false} CanaryWaveFrontier(work: Cluster, final: Cluster, strategy: Strategy, hash: Id -> nat, i: nat)
    requires work.Keys == final.Keys && i <= 4
    ensures |CanarySteps(work, final, strategy, hash)| == 4
    ensures Frontier(work, CanarySteps(work, final, strategy, hash), i) ==
            WaveMap(work, final, CanaryOf(work, final, strategy, hash), false, if i < 3 then i else 3)
  {
    hide WaveSteps, ChangedIds, CanaryOf, WaveMap, Frontier;
    var canary := CanaryOf(work, final, strategy, hash);
    SoakFrontier(work, WaveSteps(work, final, canary, Canary, false), Soak(strategy.bakeSeconds), i);
    WaveFrontier(work, final, canary, Canary, false, if i < 3 then i else 3);
  }

  /** Until the bake is over, on every node, a forward outside the canary keeps its entry; once
      the canary wave is installed, a canary forward has its target entry. */
  lemma {:induction false} CanaryIsolation(live: Cluster, work: Cluster, final: Cluster, strategy: Strategy, hash: Id -> nat,
                        k: nat, nodes: set<Id>, n: Id, id: Id)
    requires WellPosed(work, final) && RolesStable(work, final) && Similar(live, work)
    requires CanaryOf(work, final, strategy, hash) != {}
    requires k < |CanaryStages(work, final, strategy, hash)|
    ensures k < |StagesFor(work, final, strategy, hash)|
    ensures var c := Live(live, StagesFor(work, final, strategy, hash), k, nodes);
            && (id !in CanaryOf(work, final, strategy, hash) ==> SameEntry(At(c, n, id), At(live, n, id)))
            && (id in CanaryOf(work, final, strategy, hash) && k == |CanaryStages(work, final, strategy, hash)| - 1
                ==> SameEntry(At(c, n, id), At(final, n, id)))
  {
    hide StepsOf, StagesOf, Frontier, Live, Similar, SameKeys, ChangedIds, CanaryOf, Between, RolesStable,
         Consistent, ValidCluster, CanarySteps, AtStep, At, WaveMap, AfterWave;
    var canary := CanaryOf(work, final, strategy, hash);
    var steps := CanarySteps(work, final, strategy, hash);
    var s := CanaryStages(work, final, strategy, hash);
    var all := StagesFor(work, final, strategy, hash);
    CanaryStagesComeFirst(work, final, strategy, hash);
    assert all == s + all[|s|..];
    LivePrefix(live, s, all[|s|..], k, nodes);
    var c := Live(live, s, k, nodes);
    CanarySameKeys(work, final, strategy, hash);
    CanaryWave(work, final, canary);
    if id !in canary {
      var i := LiveIsBetween(work, steps, live, k, nodes);
      CanaryUnmoved(c, work, final, strategy, hash, i, n, id);
      SimilarEntries(live, work, n, id);
    } else if k == |s| - 1 {
      CanaryInstalled(live, work, final, strategy, hash, nodes);
      SimilarEntries(c, WaveMap(work, final, canary, false, 3), n, id);
      MovedEntry(work, work, final, {}, canary, false, 3, n, id);
    }
  }

  lemma CanaryWave(work: Cluster, final: Cluster, canary: set<Id>)
    requires WellPosed(work, final) && RolesStable(work, final)
    ensures WaveOf(work, work, final, {}, canary, false)
  {
  }

  lemma CanarySameKeys(work: Cluster, final: Cluster, strategy: Strategy, hash: Id -> nat)
    requires work.Keys == final.Keys
    ensures SameKeys(work, CanarySteps(work, final, strategy, hash))
  {
    hide CanaryOf, WaveSteps;
    WaveHasSameKeys(work, final, CanaryOf(work, final, strategy, hash), Canary, false);
  }

  lemma CanaryUnmoved(c: Cluster, work: Cluster, final: Cluster, strategy: Strategy, hash: Id -> nat, i: nat, n: Id, id: Id)
    requires WellPosed(work, final) && RolesStable(work, final)
    requires AtStep(c, work, CanarySteps(work, final, strategy, hash), i)
    requires id !in CanaryOf(work, final, strategy, hash)
    ensures SameEntry(At(c, n, id), At(work, n, id))
  {
    hide Frontier, CanaryOf, Between, RolesStable, Consistent, ValidCluster, CanarySteps, At, WaveMap;
    var canary := CanaryOf(work, final, strategy, hash);
    var steps := CanarySteps(work, final, strategy, hash);
    CanaryWaveFrontier(work, final, strategy, hash, 0);
    var j := if i < |steps| then i + 1 else i;
    CanaryWaveFrontier(work, final, strategy, hash, i);
    CanaryWaveFrontier(work, final, strategy, hash, j);
    CanaryWave(work, final, canary);
    BetweenEntries(c, Frontier(work, steps, i), Frontier(work, steps, j), n);
    UnmovedEntry(work, work, final, {}, canary, false, if i < 3 then i else 3, n, id);
    UnmovedEntry(work, work, final, {}, canary, false, if j < 3 then j else 3, n, id);
    assert SameEntry(At(c, n, id), At(Frontier(work, steps, i), n, id)) ||
           SameEntry(At(c, n, id), At(Frontier(work, steps, j), n, id));
  }

  /** When only the bake is left, every node is where the canary wave ends. */
  lemma {:induction false} CanaryInstalled(live: Cluster, work: Cluster, final: Cluster, strategy: Strategy, hash: Id -> nat, nodes: set<Id>)
    requires work.Keys == final.Keys && Similar(live, work)
    ensures var s := CanaryStages(work, final, strategy, hash);
            s != [] && Similar(Live(live, s, |s| - 1, nodes),
                               WaveMap(work, final, CanaryOf(work, final, strategy, hash), false, 3))
  {
    hide StagesOf, Frontier, Live, Similar, CanaryOf, WaveSteps, WaveMap;
    var canary := CanaryOf(work, final, strategy, hash);
    var wave := WaveSteps(work, final, canary, Canary, false);
    var soak := Soak(strategy.bakeSeconds);
    WaveHasSameKeys(work, final, canary, Canary, false);
    WaveFrontier(work, final, canary, Canary, false, 3);
    var k := ReachFrontier(work, wave, live, 3);
    StagesAppend(work, wave, [soak]);
    SoakStage(Frontier(work, wave, 3), soak);
    LiveBeforeBake(live, StagesOf(work, wave), Stage(Canary, Bake, soak.seconds, map[]), nodes);
  }

  lemma {:induction false} LiveBeforeBake(live: Cluster, s: seq<Stage>, bake: Stage, nodes: set<Id>)
    requires bake.desired == map[]
    ensures Live(live, s + [bake], |s|, nodes) == Live(live, s, |s|, {})
    decreases |s|
  {
    if s == [] {
      assert Install(live, bake, nodes) == live;
      assert s + [bake] == [bake];
    } else {
      assert (s + [bake])[1..] == s[1..] + [bake];
      LiveBeforeBake(Install(live, s[0], live.Keys), s[1..], bake, nodes);
    }
  }

  // ---------------------------------------------------------------- after the bake

  lemma {:induction false} LiveAfter(live: Cluster, s: seq<Stage>, t: seq<Stage>, k: nat, nodes: set<Id>)
    requires |s| <= k <= |s| + |t|
    ensures Live(live, s + t, k, nodes) == Live(Live(live, s, |s|, {}), t, k - |s|, nodes)
    decreases |s|
  {
    if s == [] {
      assert s + t == t;
    } else {
      assert (s + t)[1..] == s[1..] + t;
      LiveAfter(Install(live, s[0], live.Keys), s[1..], t, k - 1, nodes);
    }
  }

  function FullSteps(work: Cluster, final: Cluster, canary: set<Id>): seq<Step>
    requires work.Keys == final.Keys
  {
    WaveSteps(AfterWave(work, final, canary), final, ChangedIds(work, final) - canary, Full, true)
  }

  /** After the canary stages come those of the full wave. */
  lemma {:induction false} FullWaveFollows(work: Cluster, final: Cluster, strategy: Strategy, hash: Id -> nat)
    requires work.Keys == final.Keys && CanaryOf(work, final, strategy, hash) != {}
    ensures var canary := CanaryOf(work, final, strategy, hash);
            StagesFor(work, final, strategy, hash) ==
            CanaryStages(work, final, strategy, hash) + StagesOf(AfterWave(work, final, canary), FullSteps(work, final, canary))
  {
    hide StagesOf, Frontier, ChangedIds, CanaryOf, WaveSteps, AfterWave, WaveMap;
    var canary := CanaryOf(work, final, strategy, hash);
    CanaryNonempty(work, final, strategy, hash);
    CanaryWaveFrontier(work, final, strategy, hash, 4);
    AfterIsWaveMap(work, final, canary);
    StagesAppend(work, CanarySteps(work, final, strategy, hash), FullSteps(work, final, canary));
  }

  lemma CanaryNonempty(work: Cluster, final: Cluster, strategy: Strategy, hash: Id -> nat)
    requires work.Keys == final.Keys && CanaryOf(work, final, strategy, hash) != {}
    ensures ChangedIds(work, final) != {}
  {
    hide ChangedIds;
  }

  /** Canary forwards keep their target entries through the bake and the whole full wave. */
  lemma {:induction false} CanaryKept(live: Cluster, work: Cluster, final: Cluster, strategy: Strategy, hash: Id -> nat,
                        k: nat, nodes: set<Id>, n: Id, id: Id)
    requires WellPosed(work, final) && RolesStable(work, final) && Similar(live, work)
    requires CanaryOf(work, final, strategy, hash) != {} && id in CanaryOf(work, final, strategy, hash)
    requires |CanaryStages(work, final, strategy, hash)| <= k + 1 && k <= |StagesFor(work, final, strategy, hash)|
    ensures SameEntry(At(Live(live, StagesFor(work, final, strategy, hash), k, nodes), n, id), At(final, n, id))
  {
    hide StepsOf, StagesOf, Frontier, Live, Similar, SameKeys, ChangedIds, CanaryOf, Between, RolesStable,
         Consistent, ValidCluster, CanarySteps, FullSteps, AtStep, At, WaveMap, AfterWave, StagesFor, CanaryStages;
    var canary := CanaryOf(work, final, strategy, hash);
    var s := CanaryStages(work, final, strategy, hash);
    if k < |s| {
      CanaryIsolation(live, work, final, strategy, hash, k, nodes, n, id);
    } else {
      var after, steps := AfterWave(work, final, canary), FullSteps(work, final, canary);
      FullWaveFollows(work, final, strategy, hash);
      LiveAfter(live, s, StagesOf(after, steps), k, nodes);
      AfterCanary(live, work, final, strategy, hash);
      KeptInFullWave(Live(live, s, |s|, {}), work, final, strategy, hash, k - |s|, nodes, n, id);
    }
  }

  lemma {:induction false} AfterCanary(live: Cluster, work: Cluster, final: Cluster, strategy: Strategy, hash: Id -> nat)
    requires work.Keys == final.Keys && Similar(live, work) && CanaryOf(work, final, strategy, hash) != {}
    ensures var s := CanaryStages(work, final, strategy, hash);
            Similar(Live(live, s, |s|, {}), AfterWave(work, final, CanaryOf(work, final, strategy, hash)))
  {
    hide StagesOf, Frontier, Live, Similar, SameKeys, ChangedIds, CanaryOf, CanarySteps, WaveMap, AfterWave;
    CanarySameKeys(work, final, strategy, hash);
    CanaryWaveFrontier(work, final, strategy, hash, 4);
    AfterIsWaveMap(work, final, CanaryOf(work, final, strategy, hash));
    var k := ReachFrontier(work, CanarySteps(work, final, strategy, hash), live, 4);
  }

  lemma {:induction false} KeptInFullWave(live: Cluster, work: Cluster, final: Cluster, strategy: Strategy, hash: Id -> nat,
                        k: nat, nodes: set<Id>, n: Id, id: Id)
    requires WellPosed(work, final) && RolesStable(work, final) && id in CanaryOf(work, final, strategy, hash)
    requires var canary := CanaryOf(work, final, strategy, hash);
             && Similar(live, AfterWave(work, final, canary))
             && k <= |StagesOf(AfterWave(work, final, canary), FullSteps(work, final, canary))|
    ensures var canary := CanaryOf(work, final, strategy, hash);
            SameEntry(At(Live(live, StagesOf(AfterWave(work, final, canary), FullSteps(work, final, canary)), k, nodes), n, id),
                      At(final, n, id))
  {
    hide StagesOf, Frontier, Live, Similar, SameKeys, ChangedIds, CanaryOf, Between, RolesStable, Consistent, ValidCluster,
         WaveSteps, At, WaveMap, AfterWave, CanaryOf;
    var canary := CanaryOf(work, final, strategy, hash);
    var after, steps, rest := AfterWave(work, final, canary), FullSteps(work, final, canary), ChangedIds(work, final) - canary;
    WaveHasSameKeys(after, final, rest, Full, true);
    assert SameKeys(after, steps) by { SameKeysMoved(after, final, steps); }
    var i := LiveIsBetween(after, steps, live, k, nodes);
    var c := Live(live, StagesOf(after, steps), k, nodes);
    var j := if i < |steps| then i + 1 else i;
    WaveFrontier(after, final, rest, Full, true, 0);
    FullWave(work, final, canary);
    AtStepEntry(c, after, steps, i, n);
    UnmovedAtFrontier(after, work, final, canary, rest, i, n, id);
    UnmovedAtFrontier(after, work, final, canary, rest, j, n, id);
    assert SameEntry(At(c, n, id), At(Frontier(after, steps, i), n, id)) || SameEntry(At(c, n, id), At(Frontier(after, steps, j), n, id));
  }

  lemma SameKeysMoved(a: Cluster, b: Cluster, steps: seq<Step>)
    requires a.Keys == b.Keys && SameKeys(b, steps)
    ensures SameKeys(a, steps)
  {
  }

  lemma FullWave(work: Cluster, final: Cluster, canary: set<Id>)
    requires WellPosed(work, final) && RolesStable(work, final)
    ensures WaveOf(AfterWave(work, final, canary), work, final, canary, ChangedIds(work, final) - canary, true)
  {
    hide AfterWave, ChangedIds, ValidCluster, Consistent, RolesStable;
    assert Progress(work, work, final, {});
    WaveProgress(work, work, final, {}, canary);
    assert {} + canary == canary;
  }

  /** A node between two maps has the entry of one of them. */
  lemma {:induction false} AtStepEntry(c: Cluster, work: Cluster, steps: seq<Step>, i: nat, n: Id)
    requires AtStep(c, work, steps, i)
    ensures i <= |steps|
    ensures var j := if i < |steps| then i + 1 else i;
            forall id :: SameEntry(At(c, n, id), At(Frontier(work, steps, i), n, id)) || SameEntry(At(c, n, id), At(Frontier(work, steps, j), n, id))
  {
    hide Frontier, Between, At;
    var j := if i < |steps| then i + 1 else i;
    BetweenEntries(c, Frontier(work, steps, i), Frontier(work, steps, j), n);
  }

  lemma {:induction false} UnmovedAtFrontier(after: Cluster, work: Cluster, final: Cluster, done: set<Id>, sel: set<Id>, i: nat, n: Id, id: Id)
    requires WaveOf(after, work, final, done, sel, true) && id in done && id !in sel && i <= 3
    ensures SameEntry(At(Frontier(after, WaveSteps(after, final, sel, Full, true), i), n, id), At(final, n, id))
  {
    hide Frontier, WaveSteps, WaveMap, ChangedIds, ValidCluster, Consistent, RolesStable;
    WaveFrontier(after, final, sel, Full, true, i);
    UnmovedEntry(after, work, final, done, sel, true, i, n, id);
  }

  // ---------------------------------------------------------------- validity throughout

  /** Every state a node runs during the rollout passed validation. */
  lemma {:induction false} LiveIsValid(live: Cluster, stages: seq<Stage>, k: nat, nodes: set<Id>)
    requires ValidCluster(live) && ValidStages(stages) && k <= |stages|
    ensures ValidCluster(Live(live, stages, k, nodes))
    decreases |stages|
  {
    if stages != [] && k > 0 {
      LiveIsValid(Install(live, stages[0], live.Keys), stages[1..], k - 1, nodes);
    }
  }

  lemma AfterIsWaveMap(work: Cluster, final: Cluster, sel: set<Id>)
    requires work.Keys == final.Keys
    ensures WaveMap(work, final, sel, false, 3) == AfterWave(work, final, sel)
  {
    hide AfterWave;
  }
}
