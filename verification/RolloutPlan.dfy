/** What a staged rollout is: the working maps it moves through and the stages it publishes.

    Everything here is a function of the completed current map and the completed target map,
    so no stage depends on the order in which a map of nodes or forwards is visited. */
module RolloutPlan {
  import opened Spec
  import opened CanarySelection

  datatype Wave = Canary | Full | Compensation

  datatype Phase = Prepare | Promote | Cleanup | Bake | Compensate

  /** A barrier: every node in `desired` receives its snapshot before the next stage starts. */
  datatype Stage = Stage(wave: Wave, phase: Phase, bakeSeconds: nat, desired: Cluster)

  datatype Strategy = Strategy(canaryPercent: nat, bakeSeconds: nat)

  function EffectivePercent(s: Strategy): nat {
    if s.canaryPercent == 0 then 100 else s.canaryPercent
  }

  function Canon(s: NodeState): NodeState {
    if s.schema == 0 then s.(schema := CURRENT_SCHEMA) else s
  }

  /** `primary` extended with an empty state for every node only `secondary` knows. */
  function Complete(primary: Cluster, secondary: Cluster): Cluster {
    map n | n in primary.Keys + secondary.Keys ::
      if n in primary then Canon(primary[n]) else EmptyState()
  }

  function Max(a: nat, b: nat): nat {
    if a < b then b else a
  }

  /** A state that can already carry the resources of `final` without losing its own. */
  function Conservative(s: NodeState, final: NodeState): NodeState {
    Canon(s.(schema := Max(s.schema, final.schema),
             domain := if s.domain == "" then final.domain else s.domain,
             cidrs := s.cidrs + final.cidrs,
             links := s.links + final.links,
             checks := s.checks + final.checks,
             policies := s.policies + final.policies,
             blocks := final.blocks))
  }

  /** One node's part in a phase: drop some forwards, then install some of the final ones. */
  function Rewrite(s: NodeState, final: NodeState, drops: set<Id>, puts: set<Id>): NodeState
    requires puts <= final.forwards.Keys
  {
    if drops + puts == {} then s
    else Conservative(s, final).(forwards :=
      map id | id in s.forwards.Keys - drops + puts ::
        if id in puts then final.forwards[id] else s.forwards[id])
  }

  function ExitIds(s: NodeState, node: Id, ids: set<Id>): set<Id> {
    set id | id in ids && id in s.forwards && IsExit(s.forwards[id], node)
  }

  function IngressIds(s: NodeState, node: Id, ids: set<Id>): set<Id> {
    set id | id in ids && id in s.forwards && s.forwards[id].ingress == node
  }

  function Prepared(start: Cluster, final: Cluster, sel: set<Id>): (next: Cluster)
    requires start.Keys == final.Keys
    ensures next.Keys == start.Keys
  {
    map n | n in start :: Rewrite(start[n], final[n], {}, ExitIds(final[n], n, sel))
  }

  function Promoted(work: Cluster, start: Cluster, final: Cluster, sel: set<Id>): (next: Cluster)
    requires work.Keys == start.Keys == final.Keys
    ensures next.Keys == start.Keys
  {
    map n | n in start ::
      Rewrite(work[n], final[n], IngressIds(start[n], n, sel), IngressIds(final[n], n, sel))
  }

  function Cleaned(work: Cluster, start: Cluster, final: Cluster, sel: set<Id>): (next: Cluster)
    requires work.Keys == start.Keys == final.Keys
    ensures next.Keys == start.Keys
  {
    map n | n in start ::
      Rewrite(work[n], final[n], ExitIds(start[n], n, sel), ExitIds(final[n], n, sel))
  }

  /** The state of a node in a map that may not know it. */
  function StateOf(c: Cluster, node: Id): NodeState {
    if node in c then c[node] else EmptyState()
  }

  /** The nodes whose state differs by more than allocated classes, with their new state. */
  function Changed(work: Cluster, next: Cluster): Cluster {
    map n | n in work.Keys + next.Keys && !SameUpToClass(StateOf(work, n), StateOf(next, n)) ::
      StateOf(next, n)
  }

  function Ids(c: Cluster): set<Id> {
    set n, id | n in c && id in c[n].forwards :: id
  }

  /** The forwards that are not in the same places with the same content before and after. */
  function ChangedIds(work: Cluster, final: Cluster): set<Id> {
    set id | id in Ids(work) + Ids(final) &&
             exists n :: n in work.Keys + final.Keys && !SameEntry(At(work, n, id), At(final, n, id))
  }

  /** A rollout before unchanged nodes are filtered out: maps to reach and bakes to sit through. */
  datatype Step = Release(wave: Wave, phase: Phase, next: Cluster) | Soak(seconds: nat)

  function AfterWave(start: Cluster, final: Cluster, sel: set<Id>): (next: Cluster)
    requires start.Keys == final.Keys
    ensures next.Keys == start.Keys
  {
    Cleaned(Promoted(Prepared(start, final, sel), start, final, sel), start, final, sel)
  }

  function WaveSteps(start: Cluster, final: Cluster, sel: set<Id>, wave: Wave, exact: bool): (steps: seq<Step>)
    requires start.Keys == final.Keys
    ensures |steps| == 3
  {
    var prepared := Prepared(start, final, sel);
    var promoted := Promoted(prepared, start, final, sel);
    [Release(wave, Prepare, prepared),
     Release(wave, Promote, promoted),
     Release(wave, Cleanup, if exact then final else Cleaned(promoted, start, final, sel))]
  }

  /** The stages a list of steps publishes: a map that changes no node is not published. */
  function StagesOf(work: Cluster, steps: seq<Step>): seq<Stage>
    decreases |steps|
  {
    if steps == [] then []
    else match steps[0]
      case Release(wave, phase, next) =>
        var desired := Changed(work, next);
        (if desired == map[] then [] else [Stage(wave, phase, 0, desired)]) + StagesOf(next, steps[1..])
      case Soak(seconds) =>
        [Stage(Canary, Bake, seconds, map[])] + StagesOf(work, steps[1..])
  }

  /** The canary set of a rollout; empty when the strategy does not split the changed forwards. */
  ghost function CanaryOf(work: Cluster, final: Cluster, strategy: Strategy, hash: Id -> nat): set<Id> {
    CanarySet(hash, ChangedIds(work, final), EffectivePercent(strategy))
  }

  ghost function StepsOf(work: Cluster, final: Cluster, strategy: Strategy, hash: Id -> nat): seq<Step>
    requires work.Keys == final.Keys
  {
    var changed := ChangedIds(work, final);
    var canary := CanaryOf(work, final, strategy, hash);
    if changed == {} then [Release(Full, Promote, final)]
    else if canary == {} then WaveSteps(work, final, changed, Full, true)
    else WaveSteps(work, final, canary, Canary, false) + [Soak(strategy.bakeSeconds)] +
         WaveSteps(AfterWave(work, final, canary), final, changed - canary, Full, true)
  }

  /** The stages of a rollout between two completed maps. */
  ghost function StagesFor(work: Cluster, final: Cluster, strategy: Strategy, hash: Id -> nat): seq<Stage>
    requires work.Keys == final.Keys
  {
    StagesOf(work, StepsOf(work, final, strategy, hash))
  }

  /** No link that a forward of the node uses before or after changes under its identifier. */
  ghost predicate FabricStable(work: Cluster, final: Cluster)
    requires work.Keys == final.Keys
  {
    forall n, link :: n in work && link in work[n].links && link in final[n].links &&
                      (Uses(work[n], link) || Uses(final[n], link)) ==>
      work[n].links[link] == final[n].links[link]
  }

  predicate Uses(s: NodeState, link: Id) {
    link != "" && exists id :: id in s.forwards && s.forwards[id].link == link
  }

  /** A node that keeps a forward keeps its role in it, and a forward that keeps its exit keeps
      its ingress. */
  ghost predicate RolesStable(work: Cluster, final: Cluster) {
    && (forall n, id :: At(work, n, id).Some? && At(final, n, id).Some? ==>
          RoleOf(At(work, n, id).value, n) == RoleOf(At(final, n, id).value, n))
    && (forall m, n, id :: At(work, m, id).Some? && At(final, n, id).Some? ==>
          IngressStable(At(work, m, id).value, At(final, n, id).value))
  }

  predicate IngressStable(before: Forward, after: Forward) {
    before.mode.ViaExit? && after.mode.ViaExit? && before.exit == after.exit ==> before.ingress == after.ingress
  }

  predicate ValidStages(stages: seq<Stage>) {
    forall i :: 0 <= i < |stages| ==> ValidCluster(stages[i].desired)
  }

  /** Both nodes of a placement carry the same entry, apart from the link each of them uses. */
  predicate SamePlacement(f: Forward, g: Forward) {
    && f.ingress == g.ingress && f.exit == g.exit && f.mode == g.mode
    && f.vip == g.vip && f.target == g.target && f.protocols == g.protocols
  }

  /** Every entry belongs to one placement of its forward, present at both of its ends. */
  ghost predicate Consistent(c: Cluster) {
    && (forall n, id :: At(c, n, id).Some? ==> Placed(c, n, id))
    && (forall m, n, id :: At(c, m, id).Some? && At(c, n, id).Some? ==>
          SamePlacement(At(c, m, id).value, At(c, n, id).value))
  }

  predicate Placed(c: Cluster, node: Id, id: Id)
    requires At(c, node, id).Some?
  {
    var f := At(c, node, id).value;
    && RoleOf(f, node) != Unassigned
    && At(c, f.ingress, id).Some?
    && (f.mode.ViaExit? ==> f.exit != f.ingress && At(c, f.exit, id).Some?)
  }

  /** The rollout is accepted: nothing unsafe in the transitions, every published wave valid. */
  ghost predicate Accepted(work: Cluster, final: Cluster, strategy: Strategy, hash: Id -> nat)
    requires work.Keys == final.Keys
  {
    && FabricStable(work, final)
    && RolesStable(work, final)
    && (ChangedIds(work, final) != {} ==>
          ValidStages(StagesFor(work, final, strategy, hash)))
  }

  /** The nodes in `nodes` install their snapshot of one stage. */
  function Install(live: Cluster, stage: Stage, nodes: set<Id>): Cluster {
    map n | n in live :: if n in nodes && n in stage.desired then stage.desired[n] else live[n]
  }

  /** What runs on the nodes once the first `done` stages are installed everywhere and the
      next one only on `nodes`. */
  function Live(live: Cluster, stages: seq<Stage>, done: nat, nodes: set<Id>): Cluster
    requires done <= |stages|
    decreases |stages|
  {
    if stages == [] then live
    else if done == 0 then Install(live, stages[0], nodes)
    else Live(Install(live, stages[0], live.Keys), stages[1..], done - 1, nodes)
  }

  function Replayed(live: Cluster, stages: seq<Stage>): Cluster {
    Live(live, stages, |stages|, {})
  }

  /** The traffic an ingress node sends to a service VIP is picked up by the exit node it names,
      on the same port, for every protocol, by an entry that names this ingress. */
  predicate Served(c: Cluster, node: Id, id: Id)
    requires At(c, node, id).Some?
  {
    var f := At(c, node, id).value;
    f.mode.ViaExit? && f.ingress == node ==>
      && At(c, f.exit, id).Some?
      && var e := At(c, f.exit, id).value;
         && f.vip.Some?
         && e.ingress == node && IsExit(e, f.exit)
         && ListenerOf(f.exit, e) == Endpoint(f.vip.value, f.target.port)
         && f.protocols <= e.protocols
  }

  ghost predicate ExitFirst(c: Cluster) {
    forall n, id :: At(c, n, id).Some? ==> Served(c, n, id)
  }

  /** On every exit node a forward keeps, it keeps its listener and drops no protocol. */
  ghost predicate PathStable(work: Cluster, final: Cluster) {
    forall n, id :: At(work, n, id).Some? && At(final, n, id).Some? ==>
      RetainedExit(n, At(work, n, id).value, At(final, n, id).value)
  }

  predicate RetainedExit(node: Id, before: Forward, after: Forward) {
    IsExit(before, node) && IsExit(after, node) ==>
      && before.vip == after.vip && before.target.port == after.target.port
      && before.protocols <= after.protocols
  }
}
