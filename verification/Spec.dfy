/** The desired state of one node, as the controller compiles it and the agent installs it.

    A `NodeState` keeps forwards, links, health checks and user policies in maps keyed by
    their identifier; modules `StateLists` and `StateValidation` connect it with the list form the controller
    stores. Addresses are IPv4, the only family validation admits. */
module Spec {
  datatype Option<+T> = None | Some(value: T)

  type Id = string

  type Address = a: int | 0 <= a < 0x1_0000_0000

  type Port = p: int | 0 <= p < 0x1_0000

  const CURRENT_SCHEMA: nat := 5

  const VIA_EXIT_SCHEMA: nat := 3

  datatype Endpoint = Endpoint(address: Address, port: Port)

  /** An IPv4 prefix: the address as written, and the number of fixed leading bits. */
  datatype Prefix = Prefix(address: Address, bits: nat)

  /** Number of addresses in a prefix with that many fixed bits. */
  function Size(bits: nat): (size: nat)
    ensures 1 <= size
    decreases 32 - bits
  {
    if bits >= 32 then 1 else 2 * Size(bits + 1)
  }

  function Base(p: Prefix): (base: nat)
    ensures base <= p.address < base + Size(p.bits)
  {
    Floor(p.address, Size(p.bits))
  }

  /** The largest multiple of `unit` not above `x`. */
  function Floor(x: nat, unit: nat): (floor: nat)
    requires unit != 0
    ensures floor <= x < floor + unit
  {
    x / unit * unit
  }

  predicate Contains(p: Prefix, a: Address) {
    Base(p) <= a < Base(p) + Size(p.bits)
  }

  datatype Protocol = Tcp | Udp

  datatype PathMode = Direct | ViaExit

  datatype Lifecycle = Active | Paused | Draining | ForceDeleting

  datatype Snat = Masquerade | Static(address: Address)

  datatype RateLimit = RateLimit(ingress: nat, egress: nat, burst: nat)

  /** A controller-resolved forward, as delivered to its ingress node and to its exit node.
      `exit` is empty and `vip` absent on a direct path. */
  datatype Forward = Forward(
    id: Id, user: Id, protocols: set<Protocol>, ingress: Id, exit: Id,
    listen: Endpoint, target: Endpoint, vip: Option<Address>, link: Id, mode: PathMode,
    snat: Snat, classID: nat, rate: Option<RateLimit>, quota: Option<nat>,
    expiresAt: Option<nat>, drainDeadline: Option<nat>, lifecycle: Lifecycle, version: nat)

  datatype Transport = WireGuard | DirectL3 | Gre

  /** One node-to-node carrier; `settings` stands for the transport-specific parameters. */
  datatype Link = Link(
    id: Id, peer: Id, transport: Transport, device: string, local: Prefix, peerAddress: Address,
    mtu: nat, routingID: nat, settings: string, version: nat)

  datatype Policy = Policy(user: Id, classID: nat, rate: Option<RateLimit>, quota: Option<nat>, version: nat)

  datatype Check = Check(pool: Id, backend: Id, endpoint: Endpoint, timing: string, version: nat)

  /** A protocol-block policy that blocks nothing and an absent one are the same empty set. */
  datatype Block = Http | Https | Socks | Tls

  datatype NodeState = NodeState(
    schema: nat, domain: string, cidrs: set<Prefix>, links: map<Id, Link>,
    checks: map<(Id, Id), Check>, policies: map<Id, Policy>, blocks: set<Block>,
    forwards: map<Id, Forward>)

  function EmptyState(): NodeState {
    NodeState(CURRENT_SCHEMA, "", {}, map[], map[], map[], {}, map[])
  }

  /** The states of a set of nodes. */
  type Cluster = map<Id, NodeState>

  predicate IsExit(f: Forward, node: Id) {
    f.mode == ViaExit && node == f.exit
  }

  datatype Role = Ingress | Exit | Unassigned

  function RoleOf(f: Forward, node: Id): Role {
    if node == f.ingress then Ingress
    else if IsExit(f, node) then Exit
    else Unassigned
  }

  /** Where a node matches the traffic of a forward: the exit node listens on the service VIP
      and the target port, every other node on the listen endpoint. */
  function ListenerOf(node: Id, f: Forward): Endpoint {
    if IsExit(f, node) && f.vip.Some? then Endpoint(f.vip.value, f.target.port) else f.listen
  }

  datatype Key = Key(endpoint: Endpoint, protocol: Protocol)

  function KeysOf(node: Id, f: Forward): set<Key> {
    set p | p in f.protocols :: Key(ListenerOf(node, f), p)
  }

  predicate InServiceRange(s: NodeState, a: Address) {
    exists p :: p in s.cidrs && Contains(p, a)
  }

  predicate ValidForward(node: Id, s: NodeState, f: Forward) {
    && f.protocols != {}
    && !InServiceRange(s, f.listen.address)
    && !InServiceRange(s, f.target.address)
    && (f.snat.Static? ==> !InServiceRange(s, f.snat.address))
    && (f.mode.Direct? ==>
          f.exit == "" && f.vip.None? && f.link == "" && f.ingress == node)
    && (f.mode.ViaExit? ==>
          && s.schema >= VIA_EXIT_SCHEMA
          && f.exit != "" && f.exit != f.ingress
          && (node == f.ingress || node == f.exit)
          && f.vip.Some? && InServiceRange(s, f.vip.value)
          && f.link != "" && f.link in s.links
          && s.links[f.link].peer == (if node == f.exit then f.ingress else f.exit))
  }

  /** Two forwards of one node never compete for a listener or for a service VIP. */
  predicate Disjoint(node: Id, f: Forward, g: Forward) {
    && KeysOf(node, f) !! KeysOf(node, g)
    && (f.mode.ViaExit? && g.mode.ViaExit? ==> f.vip != g.vip)
    && (f.classID != 0 ==> f.classID != g.classID)
  }

  predicate Overlap(p: Prefix, q: Prefix) {
    Contains(p, Base(q)) || Contains(q, Base(p))
  }

  predicate MeetsServiceRange(s: NodeState, p: Prefix) {
    exists q :: q in s.cidrs && Overlap(p, q)
  }

  /** A carrier leads to another node, inside a prefix of its own that no service range touches. */
  predicate ValidLink(node: Id, s: NodeState, l: Link) {
    && l.peer != node
    && Contains(l.local, l.peerAddress) && l.peerAddress != l.local.address
    && !MeetsServiceRange(s, l.local) && !InServiceRange(s, l.peerAddress)
  }

  /** Only trusted layer-3 carriers may share an interface, and with it a local address. */
  predicate LinksApart(l: Link, m: Link) {
    && l.routingID != m.routingID
    && (l.device == m.device ==> l.transport == m.transport == DirectL3)
    && (l.local.address == m.local.address ==> l.transport == m.transport == DirectL3 && l.device == m.device)
  }

  /** The cross-element part of the desired-state validation. */
  predicate ValidNode(node: Id, s: NodeState) {
    && (forall id :: id in s.forwards ==> ValidForward(node, s, s.forwards[id]))
    && (forall i, j :: i in s.forwards && j in s.forwards && i != j ==>
          Disjoint(node, s.forwards[i], s.forwards[j]))
    && (forall i, j :: i in s.policies && j in s.policies && i != j && s.policies[i].classID != 0 ==>
          s.policies[i].classID != s.policies[j].classID)
    && (forall i, j :: i in s.policies && j in s.forwards && s.policies[i].classID != 0 ==>
          s.policies[i].classID != s.forwards[j].classID)
    && (forall l :: l in s.links ==> ValidLink(node, s, s.links[l]))
    && (forall l, m :: l in s.links && m in s.links && l != m ==> LinksApart(s.links[l], s.links[m]))
    && (forall k :: k in s.checks ==> !InServiceRange(s, s.checks[k].endpoint.address))
  }

  predicate ValidCluster(c: Cluster) {
    forall n :: n in c ==> ValidNode(n, c[n])
  }

  /** The entry a cluster holds for a forward on a node, if any. */
  function At(c: Cluster, node: Id, id: Id): Option<Forward> {
    if node in c && id in c[node].forwards then Some(c[node].forwards[id]) else None
  }

  function NoClass(f: Forward): Forward {
    f.(classID := 0)
  }

  /** What two states have in common when only their allocated traffic classes differ. */
  function WithoutClasses(s: NodeState): NodeState {
    s.(policies := map u | u in s.policies :: s.policies[u].(classID := 0),
       forwards := map id | id in s.forwards :: NoClass(s.forwards[id]))
  }

  predicate SameUpToClass(a: NodeState, b: NodeState) {
    WithoutClasses(a) == WithoutClasses(b)
  }

  predicate SameEntry(a: Option<Forward>, b: Option<Forward>) {
    a.Some? == b.Some? && (a.Some? ==> NoClass(a.value) == NoClass(b.value))
  }

  /** Equal in everything but allocated traffic classes. */
  predicate SameButClasses(a: NodeState, b: NodeState) {
    && a.schema == b.schema && a.domain == b.domain && a.cidrs == b.cidrs && a.links == b.links && a.checks == b.checks
    && a.blocks == b.blocks && a.policies.Keys == b.policies.Keys && a.forwards.Keys == b.forwards.Keys
    && (forall u :: u in a.policies ==> a.policies[u] == b.policies[u].(classID := a.policies[u].classID))
    && (forall id :: id in a.forwards ==> a.forwards[id] == b.forwards[id].(classID := a.forwards[id].classID))
  }

  lemma SameUpToClassExactly(a: NodeState, b: NodeState)
    ensures SameUpToClass(a, b) <==> SameButClasses(a, b)
  {
    var x, y := WithoutClasses(a), WithoutClasses(b);
    if SameUpToClass(a, b) {
      assert a.policies.Keys == x.policies.Keys && b.policies.Keys == y.policies.Keys;
      assert a.forwards.Keys == x.forwards.Keys && b.forwards.Keys == y.forwards.Keys;
      assert forall u :: u in a.policies ==> x.policies[u] == y.policies[u];
      assert forall id :: id in a.forwards ==> x.forwards[id] == y.forwards[id];
    }
    if SameButClasses(a, b) {
      assert x.policies == y.policies && x.forwards == y.forwards;
    }
  }

  lemma SameAsItself(s: NodeState)
    ensures SameUpToClass(s, s)
  {
  }

  lemma SameUpToClassEntries(a: NodeState, b: NodeState)
    requires SameUpToClass(a, b)
    ensures a.forwards.Keys == b.forwards.Keys
    ensures forall id :: id in a.forwards ==> NoClass(a.forwards[id]) == NoClass(b.forwards[id])
    ensures a.links == b.links
  {
    var x, y := WithoutClasses(a), WithoutClasses(b);
    assert a.forwards.Keys == x.forwards.Keys && b.forwards.Keys == y.forwards.Keys;
    forall id | id in a.forwards
      ensures NoClass(a.forwards[id]) == NoClass(b.forwards[id])
    {
      assert x.forwards[id] == y.forwards[id];
    }
  }

  lemma SameRanges(s: NodeState, t: NodeState, p: Prefix)
    requires s.cidrs == t.cidrs
    ensures MeetsServiceRange(s, p) <==> MeetsServiceRange(t, p)
    ensures forall a :: InServiceRange(s, a) <==> InServiceRange(t, a)
  {
  }

  lemma SameValidity(node: Id, r: NodeState, z: NodeState, f: Forward, g: Forward)
    requires r.schema == z.schema && r.cidrs == z.cidrs && r.links == z.links && NoClass(f) == NoClass(g)
    ensures ValidForward(node, r, f) <==> ValidForward(node, z, g)
  {
    assert forall a :: InServiceRange(r, a) == InServiceRange(z, a);
  }
}
