/** From the scheduler to the nodes: what placement guarantees about the states compiled from it. */
module EndToEnd {
  import opened Spec
  import opened Plan
  import opened Placing
  import opened Scheduling
  import opened PlanCompiler
  import opened PlacementMeaning
  import Nft = NftProgram

  /** Placement and compilation of a plan both succeeded. */
  ghost predicate Produced(p: Plan, w: World, order: seq<Id>, pl: map<Id, Placement>, vips: map<Id, Address>, c: Cluster) {
    && ValidPlan(p) && Scheduling.Known(p, order) && InOrder(p, w, order, pl) && (forall id :: id in pl <==> id in order)
    && Compiled(p, pl, vips, w.runtimes, c)
  }

  /** Every tunnel of a placement runs over reciprocal links, so the compilers agree on it. */
  lemma PlacedLinksMatch(p: Plan, w: World, order: seq<Id>, pl: map<Id, Placement>, id: Id)
    requires ValidPlan(p) && Scheduling.Known(p, order) && InOrder(p, w, order, pl) && id in order && id in pl
    requires pl[id].mode == ViaExit
    ensures LinksMatch(p, pl[id])
  {
    hide IsBackend, Has, Required, Fits, Facing, Lighter, IsChoice, UsageFrom;
    var k :| 0 <= k < |order| && order[k] == id;
    var q, usage := pl[id], UsageFrom(p, order[..k], pl);
    assert PlacedOn(p, w, usage, id, q);
    ChosenAreNodes(p, w, usage, id, q);
    assert ValidPlanNode(q.ingress, p.nodes[q.ingress]) && ValidPlanNode(q.exit, p.nodes[q.exit]);
  }

  /** Whatever was placed and compiled works: a packet for the forward reaches exactly the placed
      target, over a tunnel that both of its nodes agree on. */
  lemma PlacedTrafficArrives(p: Plan, w: World, order: seq<Id>, pl: map<Id, Placement>, vips: map<Id, Address>, c: Cluster,
                             id: Id, proto: Protocol, first: Nft.Program, second: Nft.Program, now: nat)
    requires Produced(p, w, order, pl, vips, c) && id in pl && proto in p.forwards[id].protocols
    requires Runs(first, pl[id].ingress, c[pl[id].ingress], now)
    requires pl[id].mode == ViaExit ==> Runs(second, pl[id].exit, c[pl[id].exit], now)
    ensures var key := Key(p.forwards[id].listen, proto);
            && key in first.dnat
            && (pl[id].mode == Direct ==> first.dnat[key] == pl[id].target)
            && (pl[id].mode == ViaExit ==>
                  && Key(first.dnat[key], proto) in second.dnat && second.dnat[Key(first.dnat[key], proto)] == pl[id].target
                  && LinksMatch(p, pl[id]) && id in vips && TunnelWorks(p, pl[id], vips[id], proto, c, first, second))
  {
    hide ValidPlan, InOrder, LinksOn, ChecksOn, PoliciesOn, ValidNode, Runs, TunnelWorks, LinksMatch, StateOn, LinksCompile;
    LookupGivesTarget(p, pl, vips, w.runtimes, c, id, proto, first, second, now);
    if pl[id].mode == ViaExit {
      PlacedLinksMatch(p, w, order, pl, id);
      assert Compilable(p, pl[id], vips);
      TunnelAgrees(p, pl, vips, w.runtimes, c, id, proto, first, second, now);
    }
  }

  // ---------------------------------------------------------------- capabilities

  /** The capabilities a state needs on the node that runs it. */
  function RequiredCapabilities(node: Id, s: NodeState): Demands {
    Demand("nft.protocol-block", 1, s.blocks != {}) + ForwardDemands(s) + PolicyDemands(node, s) + LinkDemands(s) +
    Demand("health.tcp-connect", 1, s.checks != map[])
  }

  function ForwardDemands(s: NodeState): Demands {
    PathDemands(s) + StateDemands(s)
  }

  function PathDemands(s: NodeState): Demands {
    Demand("nft.direct", if s.schema >= 2 then 2 else 1, exists id :: id in s.forwards && s.forwards[id].mode == Direct) +
    Demand("nft.via-exit", 1, exists id :: id in s.forwards && s.forwards[id].mode == ViaExit) +
    Demand("nft.static-snat", 1, exists id :: id in s.forwards && s.forwards[id].snat.Static?)
  }

  function StateDemands(s: NodeState): Demands {
    Demand("policy.local-deadline", 1, exists id :: id in s.forwards && HasDeadline(s.forwards[id])) +
    Demand("nft.drain", 1, exists id :: id in s.forwards && s.forwards[id].lifecycle == Draining) +
    Demand("nft.force-delete", 1, exists id :: id in s.forwards && s.forwards[id].lifecycle == ForceDeleting)
  }

  function PolicyDemands(node: Id, s: NodeState): Demands {
    var limited := exists id :: id in s.forwards && s.forwards[id].ingress == node && LimitedBy(s, s.forwards[id]);
    var metered := exists id :: id in s.forwards && s.forwards[id].ingress == node && MeteredBy(s, s.forwards[id]);
    Demand("tc.rate-limit", 1, limited) + Demand("usage.l3", 1, metered) + Demand("nft.directional-counters", 1, metered)
  }

  function LinkDemands(s: NodeState): Demands {
    Demand("fabric.policy-routing", 1, s.links != map[]) + Demand("fabric.mss-clamp", 1, s.links != map[]) +
    Demand("fabric.wireguard", 1, exists l :: l in s.links && s.links[l].transport == WireGuard) +
    Demand("fabric.direct-l3", 1, exists l :: l in s.links && s.links[l].transport == DirectL3) +
    Demand("fabric.gre", 1, exists l :: l in s.links && s.links[l].transport == Gre)
  }

  predicate HasDeadline(f: Forward) {
    f.expiresAt.Some? || f.drainDeadline.Some?
  }

  predicate LimitedBy(s: NodeState, f: Forward) {
    f.rate.Some? || (f.user in s.policies && s.policies[f.user].rate.Some?)
  }

  predicate MeteredBy(s: NodeState, f: Forward) {
    f.quota.Some? || (f.user in s.policies && s.policies[f.user].quota.Some?)
  }

  /** The role a node plays in a placement. */
  function RoleIn(q: Placement, node: Id): Option<NodeRole> {
    if node == q.ingress then Some(IngressRole)
    else if q.mode == ViaExit && node == q.exit then Some(ExitRole)
    else None
  }

  /** Placement checked each node for its role. */
  lemma RoleChecked(p: Plan, w: World, order: seq<Id>, pl: map<Id, Placement>, id: Id, node: Id)
    requires ValidPlan(p) && Scheduling.Known(p, order) && InOrder(p, w, order, pl) && id in order && id in pl
    requires RoleIn(pl[id], node).Some?
    ensures node in w.runtimes && id in p.forwards && p.forwards[id].pool in p.pools && pl[id].mode == p.forwards[id].mode
    ensures Has(w.runtimes[node], Required(p, p.forwards[id], RoleIn(pl[id], node).value))
  {
    hide IsBackend, Has, Required, Fits, Lighter, FirstMatch, UsageFrom;
    var k :| 0 <= k < |order| && order[k] == id;
    assert PlacedOn(p, w, UsageFrom(p, order[..k], pl), id, pl[id]);
  }

  /** What the check of a role covers. */
  lemma RoleCovers(p: Plan, f: PlannedForward, role: NodeRole, r: Runtime)
    requires f.pool in p.pools && Has(r, Required(p, f, role))
    ensures f.mode == Direct ==> 2 <= Version(r, "nft.direct")
    ensures f.mode == ViaExit ==>
      1 <= Version(r, "nft.via-exit") && 1 <= Version(r, "fabric.policy-routing") && 1 <= Version(r, "fabric.mss-clamp")
    ensures f.snat.Static? ==> 1 <= Version(r, "nft.static-snat")
    ensures f.expiresAt.Some? || f.drainDeadline.Some? ==> 1 <= Version(r, "policy.local-deadline")
    ensures f.lifecycle == Draining ==> 1 <= Version(r, "nft.drain")
    ensures f.lifecycle == ForceDeleting ==> 1 <= Version(r, "nft.force-delete")
    ensures role == IngressRole && (f.rate.Some? || (UserPolicy(p, f.user).Some? && UserPolicy(p, f.user).value.rate.Some?)) ==>
      1 <= Version(r, "tc.rate-limit")
    ensures role == IngressRole && (f.quota.Some? || (UserPolicy(p, f.user).Some? && UserPolicy(p, f.user).value.quota.Some?)) ==>
      1 <= Version(r, "usage.l3") && 1 <= Version(r, "nft.directional-counters")
    ensures p.pools[f.pool].health.Some? && ((f.mode == Direct && role == IngressRole) || (f.mode == ViaExit && role == ExitRole)) ==>
      1 <= Version(r, "health.tcp-connect")
  {
    hide Version;
    var required := Required(p, f, role);
    assert f.mode == Direct ==> ("nft.direct", 2) in required;
    assert f.mode == ViaExit ==> ("nft.via-exit", 1) in required && ("fabric.policy-routing", 1) in required && ("fabric.mss-clamp", 1) in required;
    assert f.snat.Static? ==> ("nft.static-snat", 1) in required;
    assert f.expiresAt.Some? || f.drainDeadline.Some? ==> ("policy.local-deadline", 1) in required;
    assert f.lifecycle == Draining ==> ("nft.drain", 1) in required;
    assert f.lifecycle == ForceDeleting ==> ("nft.force-delete", 1) in required;
    LimitsRequired(p, f, role);
  }

  lemma LimitsRequired(p: Plan, f: PlannedForward, role: NodeRole)
    requires f.pool in p.pools
    ensures role == IngressRole && (f.rate.Some? || (UserPolicy(p, f.user).Some? && UserPolicy(p, f.user).value.rate.Some?)) ==>
      ("tc.rate-limit", 1) in Required(p, f, role)
    ensures role == IngressRole && (f.quota.Some? || (UserPolicy(p, f.user).Some? && UserPolicy(p, f.user).value.quota.Some?)) ==>
      ("usage.l3", 1) in Required(p, f, role) && ("nft.directional-counters", 1) in Required(p, f, role)
    ensures p.pools[f.pool].health.Some? && ((f.mode == Direct && role == IngressRole) || (f.mode == ViaExit && role == ExitRole)) ==>
      ("health.tcp-connect", 1) in Required(p, f, role)
  {
  }

  // ---------------------------------------------------------------- coverage

  /** What the entries of a compiled state have in common with the plan. */
  lemma EntryFromPlan(p: Plan, w: World, order: seq<Id>, pl: map<Id, Placement>, vips: map<Id, Address>, c: Cluster, node: Id, id: Id)
    requires Produced(p, w, order, pl, vips, c) && node in c && id in c[node].forwards
    ensures id in pl && id in order && id in p.forwards && p.forwards[id].pool in p.pools && RoleIn(pl[id], node).Some?
    ensures var e, f := c[node].forwards[id], p.forwards[id];
            && e.mode == f.mode && e.snat == f.snat && e.expiresAt == f.expiresAt && e.drainDeadline == f.drainDeadline
            && e.lifecycle == f.lifecycle && e.rate == f.rate && e.quota == f.quota && e.user == f.user
            && (e.ingress == node ==> RoleIn(pl[id], node) == Some(IngressRole))
    ensures node in w.runtimes && Has(w.runtimes[node], Required(p, p.forwards[id], RoleIn(pl[id], node).value))
  {
    hide ValidPlan, InOrder, LinksOn, ChecksOn, PoliciesOn, ValidNode, ValidForward, EntryOn, Has, Required, RoleIn;
    assert id in pl;
    EntryIsThere(p, pl, vips, w.runtimes, c, id, node);
    EntryCopies(p, pl, vips, id, node);
    RoleChecked(p, w, order, pl, id, node);
  }

  lemma EntryCopies(p: Plan, pl: map<Id, Placement>, vips: map<Id, Address>, id: Id, node: Id)
    requires PlanCompiler.Known(p, pl) && id in pl && EntryOn(p, pl[id], vips, node).Some?
    ensures id in p.forwards && p.forwards[id].pool in p.pools && RoleIn(pl[id], node).Some?
    ensures var e, f := EntryOn(p, pl[id], vips, node).value, p.forwards[id];
            && e.mode == f.mode && e.snat == f.snat && e.expiresAt == f.expiresAt && e.drainDeadline == f.drainDeadline
            && e.lifecycle == f.lifecycle && e.rate == f.rate && e.quota == f.quota && e.user == f.user
            && (e.ingress == node ==> RoleIn(pl[id], node) == Some(IngressRole))
  {
  }

  lemma PoliciesFromPlan(p: Plan, w: World, order: seq<Id>, pl: map<Id, Placement>, vips: map<Id, Address>, c: Cluster, node: Id, u: Id)
    requires Produced(p, w, order, pl, vips, c) && node in c && u in c[node].policies
    ensures UserPolicy(p, u) == Some(c[node].policies[u])
  {
    hide ValidPlan, InOrder, LinksOn, ChecksOn, ForwardsOn, ValidNode;
  }

  /** A link is on a node because a tunnel placed there uses it, and its transport was checked. */
  lemma LinksFromPlan(p: Plan, w: World, order: seq<Id>, pl: map<Id, Placement>, vips: map<Id, Address>, c: Cluster, node: Id, l: Id)
    requires Produced(p, w, order, pl, vips, c) && node in c && l in c[node].links
    ensures node in w.runtimes && SupportsFabric(w.runtimes[node], c[node].links[l].transport)
  {
    hide ValidPlan, InOrder, ChecksOn, ForwardsOn, PoliciesOn, ValidNode, SupportsFabric, NeededLinks;
    assert LinksCompile(p, pl, w.runtimes, node) && c[node].links == LinksOn(p, pl, w.runtimes, node);
    assert l in NeededLinks(pl, node) && l in p.nodes[node].links && c[node].links[l].transport == p.nodes[node].links[l].transport;
    var id := NeededWhy(pl, node, l);
    TunnelSupported(p, w, order, pl, id);
  }

  lemma NeededWhy(pl: map<Id, Placement>, node: Id, l: Id) returns (id: Id)
    requires l in NeededLinks(pl, node)
    ensures id in pl && pl[id].mode == ViaExit
    ensures (pl[id].ingress == node && pl[id].linkIn == l) || (pl[id].exit == node && pl[id].linkOut == l)
  {
    id :| id in pl && pl[id].mode == ViaExit &&
      ((pl[id].ingress == node && pl[id].linkIn == l) || (pl[id].exit == node && pl[id].linkOut == l));
  }

  lemma TunnelSupported(p: Plan, w: World, order: seq<Id>, pl: map<Id, Placement>, id: Id)
    requires ValidPlan(p) && Scheduling.Known(p, order) && InOrder(p, w, order, pl) && id in order && id in pl
    requires pl[id].mode == ViaExit
    ensures var q := pl[id];
            && LinksMatch(p, q) && q.ingress in w.runtimes && q.exit in w.runtimes
            && SupportsFabric(w.runtimes[q.ingress], p.nodes[q.ingress].links[q.linkIn].transport)
            && SupportsFabric(w.runtimes[q.exit], p.nodes[q.exit].links[q.linkOut].transport)
  {
    hide ValidPlan, IsBackend, Has, Required, Fits, Lighter, UsageFrom, FirstMatch, SupportsFabric, LinksMatch;
    PlacedLinksMatch(p, w, order, pl, id);
    var k :| 0 <= k < |order| && order[k] == id;
    var q := pl[id];
    assert PlacedOn(p, w, UsageFrom(p, order[..k], pl), id, q);
    FirstMatchIsUnique(p.nodes[q.ingress], p.nodes[q.exit], q.linkIn, q.linkOut);
  }

  lemma ChecksFromPlan(p: Plan, w: World, order: seq<Id>, pl: map<Id, Placement>, vips: map<Id, Address>, c: Cluster, node: Id)
    requires Produced(p, w, order, pl, vips, c) && node in c && c[node].checks != map[]
    ensures node in w.runtimes && 1 <= Version(w.runtimes[node], "health.tcp-connect")
  {
    hide ValidPlan, InOrder, Has, Required, RoleIn, ProbeNode, Version, Compiled;
    var pool := ProbedPool(p, w, pl, vips, c, node);
    var id := ProbedWhy(p, pl, node, pool);
    RoleChecked(p, w, order, pl, id, node);
    ProbeRole(p, w, order, pl, id, node);
    RoleCovers(p, p.forwards[id], RoleIn(pl[id], node).value, w.runtimes[node]);
  }

  lemma ProbedPool(p: Plan, w: World, pl: map<Id, Placement>, vips: map<Id, Address>, c: Cluster, node: Id) returns (pool: Id)
    requires Compiled(p, pl, vips, w.runtimes, c) && node in c && c[node].checks != map[]
    ensures PlanCompiler.Known(p, pl) && pool in ProbedPools(p, pl, node, pl.Keys)
  {
    hide ValidPlan, ForwardsOn, PoliciesOn, LinksOn, LinksCompile, ValidNode, ProbedPools, CheckOf;
    assert c[node].checks == PoolChecks(p, ProbedPools(p, pl, node, pl.Keys));
    var k :| k in c[node].checks;
    pool := k.0;
  }

  lemma ProbedWhy(p: Plan, pl: map<Id, Placement>, node: Id, pool: Id) returns (id: Id)
    requires PlanCompiler.Known(p, pl) && pool in ProbedPools(p, pl, node, pl.Keys)
    ensures id in pl && id in p.forwards && p.forwards[id].pool in p.pools
    ensures ProbeNode(pl[id]) == node && p.pools[p.forwards[id].pool].health.Some?
    ensures RoleIn(pl[id], node).Some?
  {
    id :| id in pl && ProbeNode(pl[id]) == node && p.pools[p.forwards[id].pool].health.Some?;
  }

  /** The probing node is the exit of a tunnel, else the ingress. */
  lemma ProbeRole(p: Plan, w: World, order: seq<Id>, pl: map<Id, Placement>, id: Id, node: Id)
    requires ValidPlan(p) && Scheduling.Known(p, order) && InOrder(p, w, order, pl) && id in order && id in pl
    requires ProbeNode(pl[id]) == node
    ensures RoleIn(pl[id], node) == Some(if pl[id].mode == ViaExit then ExitRole else IngressRole)
  {
    hide ValidPlan, InOrder;
    if pl[id].mode == ViaExit {
      PlacedLinksMatch(p, w, order, pl, id);
    }
  }

  /** Every capability a compiled state asks for was there when its node was chosen, with a single
      exception that placement does not look at: the blocking of protocols. */
  lemma CapabilitiesCovered(p: Plan, w: World, order: seq<Id>, pl: map<Id, Placement>, vips: map<Id, Address>, c: Cluster, node: Id)
    requires Produced(p, w, order, pl, vips, c) && node in c
    ensures var r := if node in w.runtimes then w.runtimes[node] else Runtime(false, map[], "");
            Has(r, RequiredCapabilities(node, c[node])) <==>
            (c[node].blocks != {} ==> 1 <= Version(r, "nft.protocol-block"))
  {
    hide Produced, Has, Required, Version, SupportsFabric, ForwardDemands, PolicyDemands, LinkDemands;
    var r := if node in w.runtimes then w.runtimes[node] else Runtime(false, map[], "");
    var s := c[node];
    var block := Demand("nft.protocol-block", 1, s.blocks != {});
    forall d | d in RequiredCapabilities(node, s) && d !in block
      ensures d.1 <= Version(r, d.0)
    {
      CapabilityCovered(p, w, order, pl, vips, c, node, d);
    }
    HasEach(r, RequiredCapabilities(node, s));
    assert block <= RequiredCapabilities(node, s);
    assert s.blocks != {} ==> ("nft.protocol-block", 1) in block;
  }

  lemma HasEach(r: Runtime, required: Demands)
    ensures Has(r, required) <==> forall d :: d in required ==> d.1 <= Version(r, d.0)
  {
  }

  lemma CapabilityCovered(p: Plan, w: World, order: seq<Id>, pl: map<Id, Placement>, vips: map<Id, Address>, c: Cluster, node: Id, d: (string, nat))
    requires Produced(p, w, order, pl, vips, c) && node in c
    requires d in RequiredCapabilities(node, c[node]) && d !in Demand("nft.protocol-block", 1, c[node].blocks != {})
    ensures node in w.runtimes && d.1 <= Version(w.runtimes[node], d.0)
  {
    hide Produced, Has, Required, Version, SupportsFabric;
    var s := c[node];
    if s.checks != map[] {
      ChecksFromPlan(p, w, order, pl, vips, c, node);
    }
    forall l | l in s.links
      ensures node in w.runtimes && SupportsFabric(w.runtimes[node], s.links[l].transport)
    {
      LinksFromPlan(p, w, order, pl, vips, c, node, l);
    }
    forall u | u in s.policies
      ensures UserPolicy(p, u) == Some(s.policies[u])
    {
      PoliciesFromPlan(p, w, order, pl, vips, c, node, u);
    }
    forall id | id in s.forwards
      ensures ForwardCovered(w.runtimes, node, s, s.forwards[id])
    {
      EntryFromPlan(p, w, order, pl, vips, c, node, id);
      RoleCovers(p, p.forwards[id], RoleIn(pl[id], node).value, w.runtimes[node]);
    }
    StateIsCurrent(p, w, order, pl, vips, c, node);
    DemandCovered(w.runtimes, node, s, d);
  }

  /** All that one entry may ask of its node. */
  predicate ForwardCovered(runtimes: map<Id, Runtime>, node: Id, s: NodeState, f: Forward) {
    && node in runtimes
    && var r := runtimes[node];
       && (f.mode == Direct ==> 2 <= Version(r, "nft.direct"))
       && (f.mode == ViaExit ==> 1 <= Version(r, "nft.via-exit"))
       && (f.snat.Static? ==> 1 <= Version(r, "nft.static-snat"))
       && (HasDeadline(f) ==> 1 <= Version(r, "policy.local-deadline"))
       && (f.lifecycle == Draining ==> 1 <= Version(r, "nft.drain"))
       && (f.lifecycle == ForceDeleting ==> 1 <= Version(r, "nft.force-delete"))
       && (f.ingress == node && LimitedBy(s, f) ==> 1 <= Version(r, "tc.rate-limit"))
       && (f.ingress == node && MeteredBy(s, f) ==> 1 <= Version(r, "usage.l3") && 1 <= Version(r, "nft.directional-counters"))
  }

  lemma StateIsCurrent(p: Plan, w: World, order: seq<Id>, pl: map<Id, Placement>, vips: map<Id, Address>, c: Cluster, node: Id)
    requires Produced(p, w, order, pl, vips, c) && node in c
    ensures c[node].schema == CURRENT_SCHEMA
  {
    hide ValidPlan, InOrder, ForwardsOn, PoliciesOn, LinksOn, ChecksOn, ValidNode;
  }

  lemma DemandCovered(runtimes: map<Id, Runtime>, node: Id, s: NodeState, d: (string, nat))
    requires s.schema == CURRENT_SCHEMA
    requires d in RequiredCapabilities(node, s) && d !in Demand("nft.protocol-block", 1, s.blocks != {})
    requires forall id :: id in s.forwards ==> ForwardCovered(runtimes, node, s, s.forwards[id])
    requires forall l :: l in s.links ==> node in runtimes && SupportsFabric(runtimes[node], s.links[l].transport)
    requires s.checks != map[] ==> node in runtimes && 1 <= Version(runtimes[node], "health.tcp-connect")
    ensures node in runtimes && d.1 <= Version(runtimes[node], d.0)
  {
    hide Version, ForwardDemands, PolicyDemands, LinkDemands, ForwardCovered, SupportsFabric;
    if d in ForwardDemands(s) {
      ForwardDemandCovered(runtimes, node, s, d);
    } else if d in PolicyDemands(node, s) {
      PolicyDemandCovered(runtimes, node, s, d);
    } else if d in LinkDemands(s) {
      LinkDemandCovered(runtimes, node, s, d);
    }
  }

  /** The forward is a reason for the demand. */
  predicate Asks(f: Forward, d: (string, nat)) {
    || (f.mode == Direct && d == ("nft.direct", 2))
    || (f.mode == ViaExit && d == ("nft.via-exit", 1))
    || (f.snat.Static? && d == ("nft.static-snat", 1))
    || (HasDeadline(f) && d == ("policy.local-deadline", 1))
    || (f.lifecycle == Draining && d == ("nft.drain", 1))
    || (f.lifecycle == ForceDeleting && d == ("nft.force-delete", 1))
  }

  lemma ForwardDemandCovered(runtimes: map<Id, Runtime>, node: Id, s: NodeState, d: (string, nat))
    requires s.schema == CURRENT_SCHEMA && d in ForwardDemands(s)
    requires forall id :: id in s.forwards ==> ForwardCovered(runtimes, node, s, s.forwards[id])
    ensures node in runtimes && d.1 <= Version(runtimes[node], d.0)
  {
    hide Version, LimitedBy, MeteredBy, Asks;
    var id := AskingForward(s, d);
    AskIsCovered(runtimes, node, s, s.forwards[id], d);
  }

  lemma AskingForward(s: NodeState, d: (string, nat)) returns (id: Id)
    requires s.schema == CURRENT_SCHEMA && d in ForwardDemands(s)
    ensures id in s.forwards && Asks(s.forwards[id], d)
  {
    hide Asks, PathDemands, StateDemands;
    if d in PathDemands(s) {
      id := AskingPath(s, d);
    } else {
      id := AskingState(s, d);
    }
  }

  lemma AskingPath(s: NodeState, d: (string, nat)) returns (id: Id)
    requires s.schema == CURRENT_SCHEMA && d in PathDemands(s)
    ensures id in s.forwards && Asks(s.forwards[id], d)
  {
    hide HasDeadline;
    id :| id in s.forwards && Asks(s.forwards[id], d);
  }

  lemma AskingState(s: NodeState, d: (string, nat)) returns (id: Id)
    requires d in StateDemands(s)
    ensures id in s.forwards && Asks(s.forwards[id], d)
  {
    hide HasDeadline;
    id :| id in s.forwards && Asks(s.forwards[id], d);
  }

  lemma AskIsCovered(runtimes: map<Id, Runtime>, node: Id, s: NodeState, f: Forward, d: (string, nat))
    requires ForwardCovered(runtimes, node, s, f) && Asks(f, d)
    ensures d.1 <= Version(runtimes[node], d.0)
  {
    hide Version, HasDeadline, LimitedBy, MeteredBy;
  }

  lemma PolicyDemandCovered(runtimes: map<Id, Runtime>, node: Id, s: NodeState, d: (string, nat))
    requires d in PolicyDemands(node, s)
    requires forall id :: id in s.forwards ==> ForwardCovered(runtimes, node, s, s.forwards[id])
    ensures node in runtimes && d.1 <= Version(runtimes[node], d.0)
  {
    hide Version, HasDeadline, LimitedBy, MeteredBy;
  }

  lemma LinkDemandCovered(runtimes: map<Id, Runtime>, node: Id, s: NodeState, d: (string, nat))
    requires d in LinkDemands(s)
    requires forall l :: l in s.links ==> node in runtimes && SupportsFabric(runtimes[node], s.links[l].transport)
    ensures node in runtimes && d.1 <= Version(runtimes[node], d.0)
  {
    hide Version;
    var l :| l in s.links && (d == ("fabric.wireguard", 1) ==> s.links[l].transport == WireGuard)
                          && (d == ("fabric.direct-l3", 1) ==> s.links[l].transport == DirectL3)
                          && (d == ("fabric.gre", 1) ==> s.links[l].transport == Gre);
  }

  /** No link that placement chose is ever missing the key of its peer: its compilation cannot fail. */
  lemma PlacedLinksCompile(p: Plan, w: World, order: seq<Id>, pl: map<Id, Placement>, node: Id)
    requires ValidPlan(p) && Scheduling.Known(p, order) && InOrder(p, w, order, pl) && (forall id :: id in pl <==> id in order)
    requires node in p.nodes
    ensures LinksCompile(p, pl, w.runtimes, node)
  {
    hide ValidPlan, InOrder, NeededLinks, LinksMatch, SupportsFabric;
    forall l | l in p.nodes[node].links && l in NeededLinks(pl, node)
      ensures CompileLink(p.nodes[node].links[l], w.runtimes).Some?
    {
      var id := NeededWhy(pl, node, l);
      TunnelSupported(p, w, order, pl, id);
      PeerHasKey(p, w, pl[id]);
    }
  }

  lemma PeerHasKey(p: Plan, w: World, q: Placement)
    requires LinksMatch(p, q) && q.ingress in w.runtimes && q.exit in w.runtimes
    requires SupportsFabric(w.runtimes[q.ingress], p.nodes[q.ingress].links[q.linkIn].transport)
    requires SupportsFabric(w.runtimes[q.exit], p.nodes[q.exit].links[q.linkOut].transport)
    ensures CompileLink(p.nodes[q.ingress].links[q.linkIn], w.runtimes).Some?
    ensures CompileLink(p.nodes[q.exit].links[q.linkOut], w.runtimes).Some?
    ensures q.linkIn in p.nodes[q.ingress].links && q.linkOut in p.nodes[q.exit].links
  {
    hide Version;
  }

  // ---------------------------------------------------------------- nothing is asked in vain

  /** Whatever placement asks of a node for a forward shows in the state the node is given. */
  predicate Shows(p: Plan, f: PlannedForward, role: NodeRole, node: Id, s: NodeState)
    requires f.pool in p.pools
  {
    var policy := UserPolicy(p, f.user);
    && s.schema == CURRENT_SCHEMA
    && (exists id :: id in s.forwards && Copies(s.forwards[id], f) && (role == IngressRole ==> s.forwards[id].ingress == node))
    && (f.mode == ViaExit ==> s.links != map[])
    && (role == IngressRole && policy.Some? ==> f.user in s.policies && s.policies[f.user] == policy.value)
    && (p.pools[f.pool].health.Some? && role == (if f.mode == ViaExit then ExitRole else IngressRole) ==> s.checks != map[])
  }

  predicate Copies(e: Forward, f: PlannedForward) {
    && e.mode == f.mode && e.snat == f.snat && e.expiresAt == f.expiresAt && e.drainDeadline == f.drainDeadline
    && e.lifecycle == f.lifecycle && e.rate == f.rate && e.quota == f.quota && e.user == f.user
  }

  function Technique(t: Transport): string {
    match t
    case WireGuard => "fabric.wireguard"
    case DirectL3 => "fabric.direct-l3"
    case Gre => "fabric.gre"
  }

  /** What placement asks of a node for a tunnel is what a state with such a link requires, and a key to be
      reached under. */
  lemma TunnelsAskWhatTheyNeed(node: Id, s: NodeState, l: Id, r: Runtime)
    requires l in s.links
    ensures var t := s.links[l].transport;
            var needs := {("fabric.policy-routing", 1), ("fabric.mss-clamp", 1), (Technique(t), 1)};
            && needs <= RequiredCapabilities(node, s)
            && (SupportsFabric(r, t) <==> Has(r, needs) && (t == WireGuard ==> r.wireguardKey != ""))
  {
    var t := s.links[l].transport;
    var needs := {("fabric.policy-routing", 1), ("fabric.mss-clamp", 1), (Technique(t), 1)};
    assert needs <= LinkDemands(s);
    hide LinkDemands, ForwardDemands, PolicyDemands;
    forall d | d in needs
      ensures SupportsFabric(r, t) ==> d.1 <= Version(r, d.0)
    {
    }
    if Has(r, needs) {
      assert ("fabric.policy-routing", 1) in needs && ("fabric.mss-clamp", 1) in needs && (Technique(t), 1) in needs;
    }
  }

  /** Placement demands no capability of a node that the state compiled for it would not require. */
  lemma NothingAskedInVain(p: Plan, w: World, order: seq<Id>, pl: map<Id, Placement>, vips: map<Id, Address>, c: Cluster,
                           id: Id, node: Id)
    requires Produced(p, w, order, pl, vips, c) && id in pl && RoleIn(pl[id], node).Some?
    ensures node in c && id in p.forwards && p.forwards[id].pool in p.pools
    ensures Required(p, p.forwards[id], RoleIn(pl[id], node).value) <= RequiredCapabilities(node, c[node])
  {
    ItShows(p, w, order, pl, vips, c, id, node);
    hide Produced, RoleIn, Shows;
    AllShown(p, p.forwards[id], RoleIn(pl[id], node).value, node, c[node]);
  }

  lemma ItShows(p: Plan, w: World, order: seq<Id>, pl: map<Id, Placement>, vips: map<Id, Address>, c: Cluster, id: Id, node: Id)
    requires Produced(p, w, order, pl, vips, c) && id in pl && RoleIn(pl[id], node).Some?
    ensures node in c && id in p.forwards && p.forwards[id].pool in p.pools
    ensures Shows(p, p.forwards[id], RoleIn(pl[id], node).value, node, c[node])
  {
    NodeIsThere(p, w, order, pl, vips, c, id, node);
    StateIsCurrent(p, w, order, pl, vips, c, node);
    EntryShows(p, w, order, pl, vips, c, id, node);
    LinksShow(p, w, order, pl, vips, c, id, node);
    ChecksShow(p, w, order, pl, vips, c, id, node);
    PoliciesShow(p, w, order, pl, vips, c, id, node);
    hide Produced, Copies, PlanCompiler.Known, InOrder, ValidPlan;
  }

  lemma PoliciesShow(p: Plan, w: World, order: seq<Id>, pl: map<Id, Placement>, vips: map<Id, Address>, c: Cluster, id: Id, node: Id)
    requires Produced(p, w, order, pl, vips, c) && id in pl && node in c && id in p.forwards
    ensures var policy := UserPolicy(p, p.forwards[id].user);
            pl[id].ingress == node && policy.Some? ==>
              p.forwards[id].user in c[node].policies && c[node].policies[p.forwards[id].user] == policy.value
  {
    hide ValidPlan, InOrder, Compiled;
    UsersHaveTheirPolicies(p, pl, vips, w.runtimes, c, node, p.forwards[id].user);
  }

  lemma EntryShows(p: Plan, w: World, order: seq<Id>, pl: map<Id, Placement>, vips: map<Id, Address>, c: Cluster, id: Id, node: Id)
    requires Produced(p, w, order, pl, vips, c) && id in pl && RoleIn(pl[id], node).Some? && node in c
    ensures id in p.forwards && id in c[node].forwards
    ensures Copies(c[node].forwards[id], p.forwards[id]) && c[node].forwards[id].ingress == pl[id].ingress
  {
    hide ValidPlan, InOrder, Compiled, AsPlanned;
    EntriesAreAsPlanned(p, pl, vips, w.runtimes, c, id, node);
    EntryIsCopy(p, pl[id], vips, c[node].forwards[id], node);
  }

  lemma LinksShow(p: Plan, w: World, order: seq<Id>, pl: map<Id, Placement>, vips: map<Id, Address>, c: Cluster, id: Id, node: Id)
    requires Produced(p, w, order, pl, vips, c) && id in pl && RoleIn(pl[id], node).Some? && node in c
    ensures pl[id].mode == ViaExit ==> c[node].links != map[]
  {
    hide ValidPlan, InOrder, Compiled, LinksMatch;
    if pl[id].mode == ViaExit {
      PlacedLinksMatch(p, w, order, pl, id);
      LinkIsThere(p, pl, vips, w.runtimes, c, id, node);
    }
  }

  lemma ChecksShow(p: Plan, w: World, order: seq<Id>, pl: map<Id, Placement>, vips: map<Id, Address>, c: Cluster, id: Id, node: Id)
    requires Produced(p, w, order, pl, vips, c) && id in pl && node in c && id in p.forwards && p.forwards[id].pool in p.pools
    ensures p.pools[p.forwards[id].pool].health.Some? && node == (if pl[id].mode == ViaExit then pl[id].exit else pl[id].ingress) ==>
      c[node].checks != map[]
  {
    var b := SomeBackend(p, id);
    hide ValidPlan, InOrder, Compiled;
    if p.pools[p.forwards[id].pool].health.Some? {
      BackendsAreProbed(p, pl, vips, w.runtimes, c, id, b);
    }
  }

  lemma SomeBackend(p: Plan, id: Id) returns (b: Id)
    requires ValidPlan(p) && id in p.forwards
    ensures p.forwards[id].pool in p.pools && b in p.pools[p.forwards[id].pool].backends
  {
    b :| b in p.pools[p.forwards[id].pool].backends;
  }

  lemma EntryIsCopy(p: Plan, q: Placement, vips: map<Id, Address>, e: Forward, node: Id)
    requires q.forward in p.forwards && AsPlanned(p, q, vips, e, node)
    ensures Copies(e, p.forwards[q.forward]) && e.ingress == q.ingress
  {
  }

  /** The nodes of a placement are compiled, and its mode is the forward's. */
  lemma NodeIsThere(p: Plan, w: World, order: seq<Id>, pl: map<Id, Placement>, vips: map<Id, Address>, c: Cluster, id: Id, node: Id)
    requires Produced(p, w, order, pl, vips, c) && id in pl && RoleIn(pl[id], node).Some?
    ensures node in c && id in order && id in p.forwards && p.forwards[id].pool in p.pools && pl[id].mode == p.forwards[id].mode
  {
    hide ValidPlan, InOrder, StateOn, LinksCompile, ValidNode, Has, Required;
    RoleChecked(p, w, order, pl, id, node);
    assert Compilable(p, pl[id], vips);
  }

  lemma AllShown(p: Plan, f: PlannedForward, role: NodeRole, node: Id, s: NodeState)
    requires f.pool in p.pools && Shows(p, f, role, node, s)
    ensures Required(p, f, role) <= RequiredCapabilities(node, s)
  {
    PathShown(p, f, role, node, s);
    StateShown(p, f, role, node, s);
    PolicyShown(p, f, role, node, s);
    hide Shows, Demand, PathDemands, StateDemands, PolicyDemands, LinkDemands;
  }

  lemma PathShown(p: Plan, f: PlannedForward, role: NodeRole, node: Id, s: NodeState)
    requires f.pool in p.pools && Shows(p, f, role, node, s)
    ensures Demand("nft.direct", 2, f.mode == Direct) <= PathDemands(s)
    ensures Demand("nft.via-exit", 1, f.mode == ViaExit) <= PathDemands(s)
    ensures Demand("nft.static-snat", 1, f.snat.Static?) <= PathDemands(s)
    ensures Demand("fabric.policy-routing", 1, f.mode == ViaExit) <= LinkDemands(s)
    ensures Demand("fabric.mss-clamp", 1, f.mode == ViaExit) <= LinkDemands(s)
  {
  }

  lemma StateShown(p: Plan, f: PlannedForward, role: NodeRole, node: Id, s: NodeState)
    requires f.pool in p.pools && Shows(p, f, role, node, s)
    ensures Demand("policy.local-deadline", 1, f.expiresAt.Some? || f.drainDeadline.Some?) <= StateDemands(s)
    ensures Demand("nft.drain", 1, f.lifecycle == Draining) <= StateDemands(s)
    ensures Demand("nft.force-delete", 1, f.lifecycle == ForceDeleting) <= StateDemands(s)
  {
  }

  lemma PolicyShown(p: Plan, f: PlannedForward, role: NodeRole, node: Id, s: NodeState)
    requires f.pool in p.pools && Shows(p, f, role, node, s)
    ensures var policy := UserPolicy(p, f.user);
            var limited := role == IngressRole && (f.rate.Some? || (policy.Some? && policy.value.rate.Some?));
            var metered := role == IngressRole && (f.quota.Some? || (policy.Some? && policy.value.quota.Some?));
            var probed := p.pools[f.pool].health.Some? &&
                          ((f.mode == Direct && role == IngressRole) || (f.mode == ViaExit && role == ExitRole));
            && Demand("tc.rate-limit", 1, limited) <= PolicyDemands(node, s)
            && Demand("usage.l3", 1, metered) <= PolicyDemands(node, s)
            && Demand("nft.directional-counters", 1, metered) <= PolicyDemands(node, s)
            && Demand("health.tcp-connect", 1, probed) <= Demand("health.tcp-connect", 1, s.checks != map[])
  {
  }
}
