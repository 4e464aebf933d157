/** What a node holds beside its forwards while a rollout is under way: links, policies, checks,
    service ranges and blocks. They arrive before the first new forward and stay until the last. */
module RolloutResources {
  import opened Spec
  import opened CanarySelection
  import opened RolloutPlan
  import opened RolloutWaves
  import opened RolloutSafety
  import opened RolloutTheorems

  /** The same policy; traffic classes are allocated on publication. */
  predicate SamePolicy(a: Policy, b: Policy) {
    a.user == b.user && a.rate == b.rate && a.quota == b.quota && a.version == b.version
  }

  /** Every entry is one of the two states'. */
  predicate EntriesOfEither(s: NodeState, w: NodeState, f: NodeState) {
    forall id :: id in s.forwards ==>
      || (id in w.forwards && NoClass(s.forwards[id]) == NoClass(w.forwards[id]))
      || (id in f.forwards && NoClass(s.forwards[id]) == NoClass(f.forwards[id]))
  }

  /** Policies of either, those of `f` where they differ. */
  predicate BothPolicies(s: map<Id, Policy>, w: map<Id, Policy>, f: map<Id, Policy>) {
    && s.Keys == w.Keys + f.Keys
    && forall u :: u in s ==> SamePolicy(s[u], if u in f then f[u] else w[u])
  }

  /** What both states need: the resources of either, those of `f` where they differ. */
  predicate CarriesBoth(s: NodeState, w: NodeState, f: NodeState) {
    && s.links == w.links + f.links && s.checks == w.checks + f.checks && s.cidrs == w.cidrs + f.cidrs
    && BothPolicies(s.policies, w.policies, f.policies)
    && s.blocks == f.blocks
    && s.domain == (if w.domain == "" then f.domain else w.domain)
    && (w.schema != 0 || f.schema != 0 ==> s.schema == if w.schema < f.schema then f.schema else w.schema)
  }

  /** The node has not been touched yet, or carries both. */
  predicate Working(s: NodeState, w: NodeState, f: NodeState) {
    SameUpToClass(s, w) || (EntriesOfEither(s, w, f) && CarriesBoth(s, w, f))
  }

  /** ... or has arrived. */
  predicate Staged(s: NodeState, w: NodeState, f: NodeState) {
    Working(s, w, f) || SameUpToClass(s, f)
  }

  predicate AllWorking(c: Cluster, work: Cluster, final: Cluster) {
    c.Keys == work.Keys == final.Keys && forall n :: n in c ==> Working(c[n], work[n], final[n])
  }

  predicate AllStaged(c: Cluster, work: Cluster, final: Cluster) {
    c.Keys == work.Keys == final.Keys && forall n :: n in c ==> Staged(c[n], work[n], final[n])
  }

  lemma SameResources(a: NodeState, b: NodeState)
    requires SameUpToClass(a, b)
    ensures a.links == b.links && a.checks == b.checks && a.cidrs == b.cidrs && a.blocks == b.blocks
    ensures a.domain == b.domain && a.schema == b.schema
    ensures a.policies.Keys == b.policies.Keys && forall u :: u in a.policies ==> SamePolicy(a.policies[u], b.policies[u])
  {
    var x, y := WithoutClasses(a), WithoutClasses(b);
    assert a.policies.Keys == x.policies.Keys && b.policies.Keys == y.policies.Keys;
    forall u | u in a.policies
      ensures SamePolicy(a.policies[u], b.policies[u])
    {
      assert x.policies[u] == y.policies[u];
    }
  }

  /** Merging the target's resources in, whatever was merged before. */
  lemma MergeCarriesBoth(s: NodeState, w: NodeState, f: NodeState)
    requires Working(s, w, f)
    ensures CarriesBoth(Conservative(s, f), w, f)
  {
    hide SameUpToClass, EntriesOfEither, BothPolicies;
    if SameUpToClass(s, w) {
      SameResources(s, w);
      PoliciesMerged(s.policies, w.policies, f.policies);
    } else {
      PoliciesMergedAgain(s.policies, w.policies, f.policies);
      assert w.links + f.links + f.links == w.links + f.links;
      assert w.checks + f.checks + f.checks == w.checks + f.checks;
      assert w.cidrs + f.cidrs + f.cidrs == w.cidrs + f.cidrs;
    }
  }

  lemma PoliciesMerged(s: map<Id, Policy>, w: map<Id, Policy>, f: map<Id, Policy>)
    requires s.Keys == w.Keys && forall u :: u in s ==> SamePolicy(s[u], w[u])
    ensures BothPolicies(s + f, w, f)
  {
  }

  lemma PoliciesMergedAgain(s: map<Id, Policy>, w: map<Id, Policy>, f: map<Id, Policy>)
    requires BothPolicies(s, w, f)
    ensures BothPolicies(s + f, w, f)
  {
  }

  lemma RewriteWorks(s: NodeState, w: NodeState, f: NodeState, drops: set<Id>, puts: set<Id>)
    requires Working(s, w, f) && puts <= f.forwards.Keys
    ensures Working(Rewrite(s, f, drops, puts), w, f)
  {
    hide SameUpToClass, CarriesBoth;
    var r := Rewrite(s, f, drops, puts);
    if drops + puts != {} {
      MergeCarriesBoth(s, w, f);
      SameCarried(Conservative(s, f), r, w, f);
      if SameUpToClass(s, w) {
        SameUpToClassEntries(s, w);
      }
      forall id | id in r.forwards
        ensures || (id in w.forwards && NoClass(r.forwards[id]) == NoClass(w.forwards[id]))
                || (id in f.forwards && NoClass(r.forwards[id]) == NoClass(f.forwards[id]))
      {
        RewriteAt(s, f, drops, puts, id);
      }
    }
  }

  lemma SameCarried(s: NodeState, t: NodeState, w: NodeState, f: NodeState)
    requires CarriesBoth(s, w, f) && t == s.(forwards := t.forwards)
    ensures CarriesBoth(t, w, f)
  {
  }

  lemma WaveStaged(start: Cluster, work: Cluster, final: Cluster, sel: set<Id>, exact: bool, j: nat)
    requires AllWorking(start, work, final)
    ensures AllStaged(WaveMap(start, final, sel, exact, j), work, final)
    ensures !exact ==> AllWorking(WaveMap(start, final, sel, exact, j), work, final)
  {
    hide Working, SameUpToClass, Rewrite;
    var prepared := Prepared(start, final, sel);
    var promoted := Promoted(prepared, start, final, sel);
    forall n | n in start
      ensures Working(prepared[n], work[n], final[n]) && Working(promoted[n], work[n], final[n])
      ensures Working(Cleaned(promoted, start, final, sel)[n], work[n], final[n])
      ensures SameUpToClass(final[n], final[n])
    {
      RewriteWorks(start[n], work[n], final[n], {}, ExitIds(final[n], n, sel));
      RewriteWorks(prepared[n], work[n], final[n], IngressIds(start[n], n, sel), IngressIds(final[n], n, sel));
      RewriteWorks(promoted[n], work[n], final[n], ExitIds(start[n], n, sel), ExitIds(final[n], n, sel));
      SameAsItself(final[n]);
    }
  }

  lemma EndsStaged(work: Cluster, final: Cluster)
    requires work.Keys == final.Keys
    ensures AllWorking(work, work, final) && AllStaged(work, work, final) && AllStaged(final, work, final)
  {
    hide SameUpToClass;
    forall n | n in work
      ensures SameUpToClass(work[n], work[n]) && SameUpToClass(final[n], final[n])
    {
      SameAsItself(work[n]);
      SameAsItself(final[n]);
    }
  }

  lemma {:induction false} StepStaged(work: Cluster, final: Cluster, strategy: Strategy, hash: Id -> nat, i: nat)
    requires work.Keys == final.Keys && i <= |StepsOf(work, final, strategy, hash)|
    ensures AllStaged(Frontier(work, StepsOf(work, final, strategy, hash), i), work, final)
  {
    hide AllWorking, AllStaged, Frontier, WaveMap, ChangedIds, CanaryOf, WaveSteps, AfterWave;
    var canary := CanaryOf(work, final, strategy, hash);
    var changed := ChangedIds(work, final);
    EndsStaged(work, final);
    if changed == {} {
      UnmovedSteps(work, final, strategy, hash);
    } else if canary == {} {
      WaveFrontier(work, final, changed, Full, true, i);
      WaveStaged(work, work, final, changed, true, i);
    } else {
      CanaryFrontier(work, final, strategy, hash, i);
      CanaryFrontier(work, final, strategy, hash, 4);
      WaveStaged(work, work, final, canary, false, if i < 3 then i else 3);
      WaveStaged(work, work, final, canary, false, 3);
      AfterIsWaveMap(work, final, canary);
      if i >= 4 {
        WaveStaged(AfterWave(work, final, canary), work, final, changed - canary, true, i - 4);
      }
    }
  }

  lemma BetweenStaged(c: Cluster, a: Cluster, b: Cluster, work: Cluster, final: Cluster)
    requires Between(c, a, b) && AllStaged(a, work, final) && AllStaged(b, work, final)
    ensures AllStaged(c, work, final)
  {
    hide SameUpToClass, Staged;
    forall n | n in c
      ensures Staged(c[n], work[n], final[n])
    {
      SimilarStaged(c[n], if SameUpToClass(c[n], a[n]) then a[n] else b[n], work[n], final[n]);
    }
  }

  lemma SimilarStaged(s: NodeState, t: NodeState, w: NodeState, f: NodeState)
    requires SameUpToClass(s, t) && Staged(t, w, f)
    ensures Staged(s, w, f)
  {
    hide SameUpToClass, CarriesBoth;
    SameUpToClassEntries(s, t);
    if SameUpToClass(t, w) {
      SimilarStates(s, t, w);
    } else if SameUpToClass(t, f) {
      SimilarStates(s, t, f);
    } else {
      SimilarCarries(s, t, w, f);
    }
  }

  lemma SimilarCarries(s: NodeState, t: NodeState, w: NodeState, f: NodeState)
    requires SameUpToClass(s, t) && CarriesBoth(t, w, f)
    ensures CarriesBoth(s, w, f)
  {
    hide SameUpToClass;
    SameResources(s, t);
  }

  /** After any prefix of stages and any part of the next, each node is as it was, or as it will be, or
      carries what both need. */
  lemma {:induction false} ResourcesThroughout(live: Cluster, work: Cluster, final: Cluster, strategy: Strategy, hash: Id -> nat,
                        k: nat, nodes: set<Id>)
    requires work.Keys == final.Keys && Similar(live, work) && k <= |StagesFor(work, final, strategy, hash)|
    ensures AllStaged(Live(live, StagesFor(work, final, strategy, hash), k, nodes), work, final)
  {
    hide StepsOf, StagesOf, Frontier, Live, Similar, SameKeys, Between, AtStep, AllStaged, ChangedIds;
    var steps := StepsOf(work, final, strategy, hash);
    var c := Live(live, StagesOf(work, steps), k, nodes);
    StepsHaveSameKeys(work, final, strategy, hash);
    var i := LiveIsBetween(work, steps, live, k, nodes);
    StepsNonempty(work, final, strategy, hash);
    StepAt(c, work, final, strategy, hash, i);
    var at := if i < |steps| then i else |steps| - 1;
    StepStaged(work, final, strategy, hash, at);
    StepStaged(work, final, strategy, hash, at + 1);
    BetweenStaged(c, Frontier(work, steps, at), Frontier(work, steps, at + 1), work, final);
  }

  /** No traffic outside its policy: wherever an entry is new, the target's policy of its user is in
      force, and so are the target's checks, service ranges, links and blocks; wherever an entry is
      still the old one, its user has the policy of now or of the target. */
  lemma {:induction false} EntriesRunWithTheirResources(live: Cluster, work: Cluster, final: Cluster, strategy: Strategy,
                        hash: Id -> nat, k: nat, nodes: set<Id>, n: Id, id: Id)
    requires work.Keys == final.Keys && Similar(live, work) && k <= |StagesFor(work, final, strategy, hash)|
    ensures var c := Live(live, StagesFor(work, final, strategy, hash), k, nodes);
            n in work && At(c, n, id).Some? ==>
              var s, u := c[n], At(c, n, id).value.user;
              && (!SameEntry(At(c, n, id), At(work, n, id)) ==> HasAllOf(s, final[n]))
              && (!SameEntry(At(c, n, id), At(final, n, id)) && u in work[n].policies ==>
                    u in s.policies && (SamePolicy(s.policies[u], work[n].policies[u]) ||
                                        (u in final[n].policies && SamePolicy(s.policies[u], final[n].policies[u]))))
              && (u in work[n].policies && u in final[n].policies ==>
                    u in s.policies && (SamePolicy(s.policies[u], work[n].policies[u]) ||
                                        SamePolicy(s.policies[u], final[n].policies[u])))
  {
    hide StagesFor, Live, Similar, SameUpToClass, CarriesBoth, EntriesOfEither;
    ResourcesThroughout(live, work, final, strategy, hash, k, nodes);
    var c := Live(live, StagesFor(work, final, strategy, hash), k, nodes);
    if n in work && At(c, n, id).Some? {
      assert Staged(c[n], work[n], final[n]);
      if SameUpToClass(c[n], work[n]) {
        SameUpToClassEntries(c[n], work[n]);
        SameResources(c[n], work[n]);
      } else if SameUpToClass(c[n], final[n]) {
        SameUpToClassEntries(c[n], final[n]);
        SameResources(c[n], final[n]);
      } else {
        CarriedPolicy(c[n], work[n], final[n], At(c, n, id).value.user);
      }
    }
  }

  /** The state holds every resource of `f` as it is there. */
  predicate HasAllOf(s: NodeState, f: NodeState) {
    && (forall u :: u in f.policies ==> u in s.policies && SamePolicy(s.policies[u], f.policies[u]))
    && (forall k :: k in f.checks ==> k in s.checks && s.checks[k] == f.checks[k])
    && (forall l :: l in f.links ==> l in s.links && s.links[l] == f.links[l])
    && f.cidrs <= s.cidrs && s.blocks == f.blocks && f.schema <= s.schema
  }

  lemma CarriedPolicy(s: NodeState, w: NodeState, f: NodeState, u: Id)
    requires CarriesBoth(s, w, f)
    ensures HasAllOf(s, f)
    ensures u in w.policies ==> u in s.policies && (SamePolicy(s.policies[u], w.policies[u]) ||
                                                    (u in f.policies && SamePolicy(s.policies[u], f.policies[u])))
  {
  }

  // ---------------------------------------------------------------- links

  /** Through the whole rollout, on every node, the link of an entry resolves and is the very
      link the node had before, and the one it will have: no active carrier changes in place. */
  lemma {:induction false} ActiveLinksKept(live: Cluster, work: Cluster, final: Cluster, strategy: Strategy, hash: Id -> nat,
                        k: nat, nodes: set<Id>, n: Id, id: Id)
    requires WellPosed(work, final) && FabricStable(work, final) && ValidCluster(live) && Similar(live, work)
    requires ValidStages(StagesFor(work, final, strategy, hash))
    requires k <= |StagesFor(work, final, strategy, hash)|
    ensures var c := Live(live, StagesFor(work, final, strategy, hash), k, nodes);
            n in work && At(c, n, id).Some? && At(c, n, id).value.mode.ViaExit? ==>
              var link := At(c, n, id).value.link;
              && link in c[n].links
              && (link in work[n].links ==> c[n].links[link] == work[n].links[link])
              && (link in final[n].links ==> c[n].links[link] == final[n].links[link])
  {
    hide StagesFor, Live, Similar, Consistent, ValidStages, ValidCluster, FabricStable, AllStaged;
    var c := Live(live, StagesFor(work, final, strategy, hash), k, nodes);
    ResourcesThroughout(live, work, final, strategy, hash, k, nodes);
    LiveIsValid(live, StagesFor(work, final, strategy, hash), k, nodes);
    if n in work && At(c, n, id).Some? && At(c, n, id).value.mode.ViaExit? {
      LinkResolves(c, work, final, n, id);
    }
  }

  lemma LinkResolves(c: Cluster, work: Cluster, final: Cluster, n: Id, id: Id)
    requires AllStaged(c, work, final) && ValidCluster(c) && FabricStable(work, final)
    requires n in work && At(c, n, id).Some? && At(c, n, id).value.mode.ViaExit?
    ensures var link := At(c, n, id).value.link;
            && link in c[n].links
            && (link in work[n].links ==> c[n].links[link] == work[n].links[link])
            && (link in final[n].links ==> c[n].links[link] == final[n].links[link])
  {
    hide Disjoint, InServiceRange, SameUpToClass, ValidLink, LinksApart, Staged;
    var f := c[n].forwards[id];
    assert ValidForward(n, c[n], f);
    assert Staged(c[n], work[n], final[n]);
    StagedLink(c[n], work[n], final[n], id);
    assert Uses(work[n], f.link) || Uses(final[n], f.link);
  }

  lemma StagedLink(s: NodeState, w: NodeState, f: NodeState, id: Id)
    requires Staged(s, w, f) && id in s.forwards
    ensures (id in w.forwards && w.forwards[id].link == s.forwards[id].link) ||
            (id in f.forwards && f.forwards[id].link == s.forwards[id].link)
    ensures forall l :: l in s.links ==> (l in w.links && s.links[l] == w.links[l]) || (l in f.links && s.links[l] == f.links[l])
  {
    hide SameUpToClass;
    if SameUpToClass(s, w) {
      SameUpToClassEntries(s, w);
    } else if SameUpToClass(s, f) {
      SameUpToClassEntries(s, f);
    }
  }
}
