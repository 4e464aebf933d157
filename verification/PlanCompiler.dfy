/** From placements to the desired state of every node. */
module PlanCompiler {
  import opened Spec
  import opened Plan

  /** The link as the node receives it: a WireGuard link carries the public key of its peer. */
  function CompileLink(link: Link, runtimes: map<Id, Runtime>): Option<Link> {
    if link.transport != WireGuard then Some(link)
    else if link.peer in runtimes && runtimes[link.peer].wireguardKey != "" then
      Some(link.(settings := link.settings + runtimes[link.peer].wireguardKey))
    else None
  }

  predicate BackendFresh(p: Plan, q: Placement)
    requires q.forward in p.forwards
  {
    var pool := p.forwards[q.forward].pool;
    pool in p.pools && q.backend in p.pools[pool].backends && p.pools[pool].backends[q.backend].target == q.target
  }

  /** A placement can be compiled: its forward, backend, nodes and service VIP are known. */
  predicate Compilable(p: Plan, q: Placement, vips: map<Id, Address>) {
    && q.forward in p.forwards && BackendFresh(p, q)
    && q.ingress in p.nodes
    && (q.mode == ViaExit ==> q.exit in p.nodes && q.forward in vips)
  }

  /** The entry both nodes of a placement receive, apart from the link. */
  function BaseEntry(p: Plan, q: Placement, vips: map<Id, Address>): Forward
    requires q.forward in p.forwards
  {
    var f := p.forwards[q.forward];
    Forward(f.id, f.user, f.protocols, q.ingress, q.exit, f.listen, q.target,
            if q.mode == ViaExit && q.forward in vips then Some(vips[q.forward]) else None,
            "", f.mode, f.snat, 0, f.rate, f.quota, f.expiresAt, f.drainDeadline, f.lifecycle, f.version)
  }

  function EntryOn(p: Plan, q: Placement, vips: map<Id, Address>, node: Id): Option<Forward>
    requires q.forward in p.forwards
  {
    var base := BaseEntry(p, q, vips);
    if q.mode == Direct then if node == q.ingress then Some(base) else None
    else if node == q.exit then Some(base.(link := q.linkOut))
    else if node == q.ingress then Some(base.(link := q.linkIn))
    else None
  }

  function ProbeNode(q: Placement): Id {
    if q.mode == ViaExit then q.exit else q.ingress
  }

  function CheckOf(pool: Pool, backend: Backend): Check {
    Check(pool.id, backend.id, if backend.probe.Some? then backend.probe.value else backend.target,
          if pool.health.Some? then pool.health.value.timing else "", backend.version)
  }

  /** Placements are kept by the forward they are for. */
  predicate Keyed(placements: map<Id, Placement>) {
    forall id :: id in placements ==> placements[id].forward == id
  }

  /** The forwards these placements are for exist, and so do their pools. */
  predicate KnownAmong(p: Plan, placements: map<Id, Placement>, ids: set<Id>) {
    forall id :: id in ids && id in placements ==>
      placements[id].forward == id && id in p.forwards && p.forwards[id].pool in p.pools
  }

  predicate Known(p: Plan, placements: map<Id, Placement>) {
    KnownAmong(p, placements, placements.Keys)
  }

  function ForwardsOn(p: Plan, placements: map<Id, Placement>, vips: map<Id, Address>, node: Id, ids: set<Id>): map<Id, Forward>
    requires KnownAmong(p, placements, ids)
  {
    map id | id in ids && id in placements && EntryOn(p, placements[id], vips, node).Some? ::
      EntryOn(p, placements[id], vips, node).value
  }

  /** The pools a node probes: those behind the forwards that leave the cluster there. */
  function ProbedPools(p: Plan, placements: map<Id, Placement>, node: Id, ids: set<Id>): set<Id>
    requires KnownAmong(p, placements, ids)
  {
    set id | id in ids && id in placements && ProbeNode(placements[id]) == node
             && p.pools[p.forwards[id].pool].health.Some? :: p.forwards[id].pool
  }

  function BackendKeys(p: Plan, pools: set<Id>): (keys: set<(Id, Id)>)
    ensures forall k :: k in keys <==> k.0 in pools && k.0 in p.pools && k.1 in p.pools[k.0].backends
  {
    set q, b | q in pools && q in p.pools && b in p.pools[q].backends :: (q, b)
  }

  function PoolChecks(p: Plan, pools: set<Id>): map<(Id, Id), Check> {
    map k | k in BackendKeys(p, pools) :: CheckOf(p.pools[k.0], p.pools[k.0].backends[k.1])
  }

  function ChecksOn(p: Plan, placements: map<Id, Placement>, node: Id, ids: set<Id>): map<(Id, Id), Check>
    requires KnownAmong(p, placements, ids)
  {
    PoolChecks(p, ProbedPools(p, placements, node, ids))
  }

  function NeededLinks(placements: map<Id, Placement>, node: Id): set<Id> {
    (set id | id in placements && placements[id].mode == ViaExit && placements[id].ingress == node :: placements[id].linkIn) +
    (set id | id in placements && placements[id].mode == ViaExit && placements[id].exit == node :: placements[id].linkOut)
  }

  function IngressUsers(p: Plan, placements: map<Id, Placement>, node: Id): set<Id>
    requires Known(p, placements)
  {
    set id | id in placements && placements[id].ingress == node :: p.forwards[id].user
  }

  predicate LinksCompile(p: Plan, placements: map<Id, Placement>, runtimes: map<Id, Runtime>, node: Id)
    requires node in p.nodes
  {
    forall l :: l in p.nodes[node].links && l in NeededLinks(placements, node) ==>
      CompileLink(p.nodes[node].links[l], runtimes).Some?
  }

  function LinksOn(p: Plan, placements: map<Id, Placement>, runtimes: map<Id, Runtime>, node: Id): map<Id, Link>
    requires node in p.nodes && LinksCompile(p, placements, runtimes, node)
  {
    map l | l in p.nodes[node].links && l in NeededLinks(placements, node) :: CompileLink(p.nodes[node].links[l], runtimes).value
  }

  function PoliciesOn(p: Plan, placements: map<Id, Placement>, node: Id): map<Id, Policy>
    requires Known(p, placements)
  {
    map u | u in p.policies && u in IngressUsers(p, placements, node) :: p.policies[u]
  }

  /** What a node is to do. */
  function StateOn(p: Plan, placements: map<Id, Placement>, vips: map<Id, Address>, runtimes: map<Id, Runtime>, node: Id): NodeState
    requires Known(p, placements) && node in p.nodes && LinksCompile(p, placements, runtimes, node)
  {
    NodeState(CURRENT_SCHEMA, "cluster:" + p.id, p.cidrs, LinksOn(p, placements, runtimes, node),
              ChecksOn(p, placements, node, placements.Keys), PoliciesOn(p, placements, node), p.nodes[node].blocks,
              ForwardsOn(p, placements, vips, node, placements.Keys))
  }

  predicate AllCompilable(p: Plan, placements: map<Id, Placement>, vips: map<Id, Address>, ids: set<Id>) {
    forall id :: id in ids && id in placements ==> Compilable(p, placements[id], vips)
  }

  predicate NodeCompiles(p: Plan, placements: map<Id, Placement>, vips: map<Id, Address>, runtimes: map<Id, Runtime>, node: Id)
    requires Known(p, placements) && node in p.nodes
  {
    LinksCompile(p, placements, runtimes, node) && ValidNode(node, StateOn(p, placements, vips, runtimes, node))
  }

  /** Compile: entries are distributed placement by placement, then policies and links node by
      node; any unknown reference and any invalid state refuses the whole plan. */
  method Compile(p: Plan, placements: map<Id, Placement>, vips: map<Id, Address>, runtimes: map<Id, Runtime>)
    returns (r: Option<Cluster>)
    requires Keyed(placements)
    ensures r.Some? <==> AllCompilable(p, placements, vips, placements.Keys) && Known(p, placements)
                         && forall n :: n in p.nodes ==> NodeCompiles(p, placements, vips, runtimes, n)
    ensures r.Some? ==> r.value.Keys == p.nodes.Keys
    ensures r.Some? ==> forall n :: n in p.nodes ==>
      LinksCompile(p, placements, runtimes, n) && r.value[n] == StateOn(p, placements, vips, runtimes, n)
  {
    hide Known, Distributed, NodeCompiles, LinksCompile, AllCompilable, Keyed, StateOn;
    AllAreKnown(p, placements, vips);
    var ok, forwards, checks := DistributeAll(p, placements, vips);
    if !ok {
      return None;
    }
    r := Assemble(p, placements, vips, runtimes, forwards, checks);
  }

  /** The nodes have what the placements in `ids` give them. */
  ghost predicate Distributed(p: Plan, placements: map<Id, Placement>, vips: map<Id, Address>, ids: set<Id>,
                              forwards: map<Id, map<Id, Forward>>, checks: map<Id, map<(Id, Id), Check>>)
  {
    && KnownAmong(p, placements, ids)
    && forwards.Keys == p.nodes.Keys == checks.Keys
    && forall n :: n in p.nodes ==>
         forwards[n] == ForwardsOn(p, placements, vips, n, ids) && checks[n] == ChecksOn(p, placements, n, ids)
  }

  /** The first unknown reference stops the distribution. */
  method DistributeAll(p: Plan, placements: map<Id, Placement>, vips: map<Id, Address>)
    returns (ok: bool, forwards: map<Id, map<Id, Forward>>, checks: map<Id, map<(Id, Id), Check>>)
    requires Keyed(placements)
    ensures ok <==> AllCompilable(p, placements, vips, placements.Keys)
    ensures ok ==> Distributed(p, placements, vips, placements.Keys, forwards, checks)
  {
    hide Compilable, Keyed, KnownAmong, Distributed, AllCompilable;
    forwards := map n | n in p.nodes :: map[];
    checks := map n | n in p.nodes :: map[];
    NothingPlaced(p, placements, vips, forwards, checks);
    var ids := placements.Keys;
    ghost var done: set<Id> := {};
    while ids != {}
      invariant ids !! done && ids + done == placements.Keys
      invariant AllCompilable(p, placements, vips, done) && Distributed(p, placements, vips, done, forwards, checks)
      decreases |ids|
    {
      var id :| id in ids;
      OneMoreCompilable(p, placements, vips, done, id);
      if !Compilable(p, placements[id], vips) {
        return false, forwards, checks;
      }
      forwards, checks := Distribute(p, placements, vips, done, id, forwards, checks);
      OneLess(placements.Keys, ids, done, id);
      ids, done := ids - {id}, done + {id};
    }
    assert done == placements.Keys;
    return true, forwards, checks;
  }

  lemma OneLess(all: set<Id>, ids: set<Id>, done: set<Id>, id: Id)
    requires id in ids && ids !! done && ids + done == all
    ensures ids - {id} !! done + {id} && (ids - {id}) + (done + {id}) == all && |ids - {id}| < |ids|
  {
  }

  lemma OneMoreCompilable(p: Plan, placements: map<Id, Placement>, vips: map<Id, Address>, done: set<Id>, id: Id)
    requires Keyed(placements) && AllCompilable(p, placements, vips, done) && id in placements
    ensures Compilable(p, placements[id], vips) <==> AllCompilable(p, placements, vips, done + {id})
    ensures !Compilable(p, placements[id], vips) ==> !AllCompilable(p, placements, vips, placements.Keys)
  {
    hide Compilable;
  }

  /** What can be compiled is known. */
  lemma AllAreKnown(p: Plan, placements: map<Id, Placement>, vips: map<Id, Address>)
    requires Keyed(placements)
    ensures AllCompilable(p, placements, vips, placements.Keys) ==> Known(p, placements)
  {
    hide BackendFresh;
    forall id | id in placements && AllCompilable(p, placements, vips, placements.Keys)
      ensures id in p.forwards && p.forwards[id].pool in p.pools
    {
      assert Compilable(p, placements[id], vips);
      assert BackendFresh(p, placements[id]) ==> p.forwards[id].pool in p.pools by { FreshIsKnown(p, placements[id]); }
    }
  }

  lemma FreshIsKnown(p: Plan, q: Placement)
    requires q.forward in p.forwards
    ensures BackendFresh(p, q) ==> p.forwards[q.forward].pool in p.pools
  {
  }

  lemma NothingPlaced(p: Plan, placements: map<Id, Placement>, vips: map<Id, Address>,
                      forwards: map<Id, map<Id, Forward>>, checks: map<Id, map<(Id, Id), Check>>)
    requires forwards.Keys == p.nodes.Keys == checks.Keys
    requires forall n :: n in p.nodes ==> forwards[n] == map[] && checks[n] == map[]
    ensures AllCompilable(p, placements, vips, {}) && Distributed(p, placements, vips, {}, forwards, checks)
  {
  }

  lemma OneMoreKnown(p: Plan, placements: map<Id, Placement>, vips: map<Id, Address>, done: set<Id>, id: Id)
    requires Keyed(placements) && KnownAmong(p, placements, done) && id in placements && Compilable(p, placements[id], vips)
    ensures placements[id].forward == id && id in p.forwards && p.forwards[id].pool in p.pools
    ensures KnownAmong(p, placements, done + {id})
  {
  }

  /** Gives one placement's entries and health checks to its nodes. */
  method Distribute(p: Plan, placements: map<Id, Placement>, vips: map<Id, Address>, ghost done: set<Id>, id: Id,
                    before: map<Id, map<Id, Forward>>, checked: map<Id, map<(Id, Id), Check>>)
    returns (forwards: map<Id, map<Id, Forward>>, checks: map<Id, map<(Id, Id), Check>>)
    requires Keyed(placements) && id in placements && id !in done && Compilable(p, placements[id], vips)
    requires Distributed(p, placements, vips, done, before, checked)
    ensures Distributed(p, placements, vips, done + {id}, forwards, checks)
  {
    hide BaseEntry, CheckOf, ForwardsOn, ChecksOn, KnownAmong, BackendFresh, EntryOn, PoolChecks;
    OneMoreKnown(p, placements, vips, done, id);
    var q, pool := placements[id], p.forwards[id].pool;
    forall n
      ensures ForwardsOn(p, placements, vips, n, done + {id}) ==
              WithEntry(ForwardsOn(p, placements, vips, n, done), id, EntryOn(p, q, vips, n))
    {
      OneMoreForward(p, placements, vips, n, done, id);
    }
    forwards := PlaceEntries(p, q, vips, before);
    checks := checked;
    forall n
      ensures ChecksOn(p, placements, n, done + {id}) ==
              if ProbeNode(q) == n && p.pools[pool].health.Some? then ChecksOn(p, placements, n, done) + PoolChecks(p, {pool})
              else ChecksOn(p, placements, n, done)
    {
      OneMoreCheck(p, placements, n, done, id);
    }
    if p.pools[pool].health.Some? {
      var probe := ProbeNode(q);
      checks := checks[probe := checks[probe] + PoolChecks(p, {pool})];
    }
  }

  method PlaceEntries(p: Plan, q: Placement, vips: map<Id, Address>, before: map<Id, map<Id, Forward>>)
    returns (forwards: map<Id, map<Id, Forward>>)
    requires Compilable(p, q, vips) && before.Keys == p.nodes.Keys
    ensures forwards.Keys == p.nodes.Keys
    ensures forall n :: n in p.nodes ==> forwards[n] == WithEntry(before[n], q.forward, EntryOn(p, q, vips, n))
  {
    hide BaseEntry, BackendFresh;
    forwards := before;
    var id, base := q.forward, BaseEntry(p, q, vips);
    if q.mode == Direct {
      forwards := forwards[q.ingress := forwards[q.ingress][id := base]];
    } else {
      forwards := forwards[q.ingress := forwards[q.ingress][id := base.(link := q.linkIn)]];
      forwards := forwards[q.exit := forwards[q.exit][id := base.(link := q.linkOut)]];
    }
  }

  function WithEntry(m: map<Id, Forward>, id: Id, e: Option<Forward>): map<Id, Forward> {
    if e.Some? then m[id := e.value] else m
  }

  lemma OneMoreForward(p: Plan, placements: map<Id, Placement>, vips: map<Id, Address>, node: Id, done: set<Id>, id: Id)
    requires KnownAmong(p, placements, done) && KnownAmong(p, placements, done + {id}) && id in placements && id !in done
    ensures ForwardsOn(p, placements, vips, node, done + {id}) ==
            WithEntry(ForwardsOn(p, placements, vips, node, done), id, EntryOn(p, placements[id], vips, node))
  {
    hide EntryOn;
  }

  lemma OneMoreCheck(p: Plan, placements: map<Id, Placement>, node: Id, done: set<Id>, id: Id)
    requires KnownAmong(p, placements, done) && KnownAmong(p, placements, done + {id}) && id in placements
    ensures ChecksOn(p, placements, node, done + {id}) ==
            if ProbeNode(placements[id]) == node && p.pools[p.forwards[id].pool].health.Some? then
              ChecksOn(p, placements, node, done) + PoolChecks(p, {p.forwards[id].pool})
            else ChecksOn(p, placements, node, done)
  {
    hide PoolChecks;
    var pool, pools := p.forwards[id].pool, ProbedPools(p, placements, node, done);
    var more := ProbedPools(p, placements, node, done + {id});
    if ProbeNode(placements[id]) == node && p.pools[pool].health.Some? {
      assert more == pools + {pool};
      OneMorePool(p, pools, pool);
    } else {
      assert more == pools;
    }
  }

  lemma OneMorePool(p: Plan, pools: set<Id>, pool: Id)
    ensures PoolChecks(p, pools + {pool}) == PoolChecks(p, pools) + PoolChecks(p, {pool})
  {
    hide CheckOf, BackendKeys;
    assert BackendKeys(p, pools + {pool}) == BackendKeys(p, pools) + BackendKeys(p, {pool});
  }

  /** The per-node part: the users seen at the ingress, the links in use, and validation. */
  method Assemble(p: Plan, placements: map<Id, Placement>, vips: map<Id, Address>, runtimes: map<Id, Runtime>,
                  forwards: map<Id, map<Id, Forward>>, checks: map<Id, map<(Id, Id), Check>>)
    returns (r: Option<Cluster>)
    requires Known(p, placements) && AllCompilable(p, placements, vips, placements.Keys)
    requires Distributed(p, placements, vips, placements.Keys, forwards, checks)
    ensures r.Some? <==> forall n :: n in p.nodes ==> NodeCompiles(p, placements, vips, runtimes, n)
    ensures r.Some? ==> r.value.Keys == p.nodes.Keys
    ensures r.Some? ==> forall n :: n in p.nodes ==>
      LinksCompile(p, placements, runtimes, n) && r.value[n] == StateOn(p, placements, vips, runtimes, n)
  {
    hide ForwardsOn, ChecksOn, Known, ValidNode, LinksCompile, LinksOn, PoliciesOn, StateOn, NodeCompiles;
    var desired: Cluster := map[];
    var nodes := p.nodes.Keys;
    while nodes != {}
      invariant nodes <= p.nodes.Keys
      invariant forall n :: n in desired <==> n in p.nodes.Keys - nodes
      invariant forall n :: n in p.nodes.Keys - nodes ==> NodeCompiles(p, placements, vips, runtimes, n)
      invariant forall n :: n in p.nodes.Keys - nodes ==>
        LinksCompile(p, placements, runtimes, n) && desired[n] == StateOn(p, placements, vips, runtimes, n)
      decreases |nodes|
    {
      var n :| n in nodes;
      nodes := nodes - {n};
      NodeCompilesWhen(p, placements, vips, runtimes, n);
      if !LinksCompile(p, placements, runtimes, n) {
        return None;
      }
      var state := NodeState(CURRENT_SCHEMA, "cluster:" + p.id, p.cidrs, LinksOn(p, placements, runtimes, n), checks[n],
                             PoliciesOn(p, placements, n), p.nodes[n].blocks, forwards[n]);
      StateParts(p, placements, vips, runtimes, n);
      if !ValidNode(n, state) {
        return None;
      }
      desired := desired[n := state];
    }
    return Some(desired);
  }

  lemma NodeCompilesWhen(p: Plan, placements: map<Id, Placement>, vips: map<Id, Address>, runtimes: map<Id, Runtime>, n: Id)
    requires Known(p, placements) && n in p.nodes
    ensures NodeCompiles(p, placements, vips, runtimes, n) <==>
            LinksCompile(p, placements, runtimes, n) && ValidNode(n, StateOn(p, placements, vips, runtimes, n))
  {
    hide ValidNode, StateOn, LinksCompile;
  }

  lemma StateParts(p: Plan, placements: map<Id, Placement>, vips: map<Id, Address>, runtimes: map<Id, Runtime>, n: Id)
    requires Known(p, placements) && n in p.nodes && LinksCompile(p, placements, runtimes, n)
    ensures StateOn(p, placements, vips, runtimes, n) ==
            NodeState(CURRENT_SCHEMA, "cluster:" + p.id, p.cidrs, LinksOn(p, placements, runtimes, n),
                      ChecksOn(p, placements, n, placements.Keys), PoliciesOn(p, placements, n), p.nodes[n].blocks,
                      ForwardsOn(p, placements, vips, n, placements.Keys))
  {
    hide LinksOn, ChecksOn, PoliciesOn, ForwardsOn;
  }
}
