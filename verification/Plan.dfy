/** The cluster plan, the runtime of its nodes, and placements. */
module Plan {
  import opened Spec

  datatype NodeRole = IngressRole | ExitRole

  /** A zero bandwidth means that it is not limited. */
  datatype Capacity = Capacity(maxForwards: nat, ingress: nat, egress: nat)

  datatype Reservation = Reservation(ingress: nat, egress: nat)

  /** No identifiers and no labels select every node. */
  datatype Selector = Selector(ids: set<Id>, labels: map<string, string>)

  datatype DomainPolicy = Distinct | Prefer | AnyDomain

  datatype Node = Node(
    id: Id, enabled: bool, roles: set<NodeRole>, labels: map<string, string>, domain: string,
    capacity: Capacity, links: map<Id, Link>, blocks: set<Block>)

  datatype Backend = Backend(id: Id, target: Endpoint, probe: Option<Endpoint>, priority: nat, version: nat)

  /** `staleAfter` is in seconds. */
  datatype Health = Health(timing: string, staleAfter: nat)

  datatype Pool = Pool(id: Id, backends: map<Id, Backend>, health: Option<Health>)

  datatype PlannedForward = PlannedForward(
    id: Id, user: Id, protocols: set<Protocol>, listen: Endpoint, mode: PathMode,
    ingress: Selector, exit: Selector, domains: DomainPolicy, pool: Id, snat: Snat, reservation: Reservation,
    rate: Option<RateLimit>, quota: Option<nat>, expiresAt: Option<nat>, drainDeadline: Option<nat>,
    lifecycle: Lifecycle, version: nat)

  datatype Plan = Plan(
    id: Id, cidrs: set<Prefix>, nodes: map<Id, Node>, policies: map<Id, Policy>, pools: map<Id, Pool>,
    forwards: map<Id, PlannedForward>)

  datatype Runtime = Runtime(available: bool, capabilities: map<string, nat>, wireguardKey: string)

  /** `exit`, `linkIn` and `linkOut` are empty on a direct path. */
  datatype Placement = Placement(
    forward: Id, ingress: Id, exit: Id, backend: Id, target: Endpoint, mode: PathMode, linkIn: Id, linkOut: Id)

  /** What plan validation guarantees and placement relies on. */
  predicate ValidPlan(p: Plan) {
    && (forall n :: n in p.nodes ==> ValidPlanNode(n, p.nodes[n]))
    && (forall f :: f in p.forwards ==>
          && p.forwards[f].id == f && p.forwards[f].pool in p.pools && p.forwards[f].protocols != {}
          && p.pools[p.forwards[f].pool].backends != map[])
    && (forall q :: q in p.pools ==> forall b :: b in p.pools[q].backends ==> p.pools[q].backends[b].id == b)
  }

  predicate ValidPlanNode(n: Id, node: Node) {
    && node.id == n && n != "" && node.capacity.maxForwards > 0
    && forall l :: l in node.links ==>
         && node.links[l].id == l && l != "" && node.links[l].peer != n
         && 0 < node.links[l].routingID < 0xFFFF
  }
}
