/** The compiler chain preserves meaning: what the emitted tables do with a packet on both nodes is
    what the placement asked for, and the three compilers agree on the tunnel in between. */
module PlacementMeaning {
  import opened Spec
  import opened Plan
  import opened PlanCompiler
  import Nft = NftProgram
  import Fabric = FabricProgram

  /** The outcome of a successful compilation. */
  predicate Compiled(p: Plan, placements: map<Id, Placement>, vips: map<Id, Address>, runtimes: map<Id, Runtime>, c: Cluster) {
    && ValidPlan(p) && Known(p, placements) && AllCompilable(p, placements, vips, placements.Keys)
    && c.Keys == p.nodes.Keys
    && forall n :: n in p.nodes ==>
         LinksCompile(p, placements, runtimes, n) && c[n] == StateOn(p, placements, vips, runtimes, n) && ValidNode(n, c[n])
  }

  /** The nft program a node runs for its state. */
  ghost predicate Runs(prog: Nft.Program, node: Id, s: NodeState, now: nat) {
    Nft.Implements(prog, node, s, now, s.forwards.Keys)
  }

  /** The two nodes of a placement have reciprocal links. */
  predicate LinksMatch(p: Plan, q: Placement) {
    && q.ingress in p.nodes && q.exit in p.nodes && q.ingress != q.exit
    && q.linkIn in p.nodes[q.ingress].links && q.linkOut in p.nodes[q.exit].links
    && var i, o := p.nodes[q.ingress].links[q.linkIn], p.nodes[q.exit].links[q.linkOut];
       && i.peer == q.exit && o.peer == q.ingress && i.transport == o.transport
       && i.peerAddress == o.local.address && o.peerAddress == i.local.address
  }

  /** The entry a compiled placement leaves on a node. */
  lemma EntryIsThere(p: Plan, placements: map<Id, Placement>, vips: map<Id, Address>, runtimes: map<Id, Runtime>, c: Cluster,
                     id: Id, node: Id)
    requires Compiled(p, placements, vips, runtimes, c) && id in placements && node in c
    ensures id in c[node].forwards <==> EntryOn(p, placements[id], vips, node).Some?
    ensures id in c[node].forwards ==>
              c[node].forwards[id] == EntryOn(p, placements[id], vips, node).value && ValidForward(node, c[node], c[node].forwards[id])
  {
    hide ValidPlan, LinksOn, ChecksOn, PoliciesOn, ValidForward, EntryOn;
  }

  /** Looking a packet up in the ingress table, and what comes out of it in the exit table, gives the
      placed target, for every protocol of the forward. */
  lemma LookupGivesTarget(p: Plan, placements: map<Id, Placement>, vips: map<Id, Address>, runtimes: map<Id, Runtime>, c: Cluster,
                          id: Id, proto: Protocol, first: Nft.Program, second: Nft.Program, now: nat)
    requires Compiled(p, placements, vips, runtimes, c) && id in placements && proto in p.forwards[id].protocols
    requires Runs(first, placements[id].ingress, c[placements[id].ingress], now)
    requires placements[id].mode == ViaExit ==> Runs(second, placements[id].exit, c[placements[id].exit], now)
    ensures var key := Key(p.forwards[id].listen, proto);
            && key in first.dnat
            && (placements[id].mode == Direct ==> first.dnat[key] == placements[id].target)
            && (placements[id].mode == ViaExit ==>
                  && Key(first.dnat[key], proto) in second.dnat
                  && second.dnat[Key(first.dnat[key], proto)] == placements[id].target)
  {
    hide ValidPlan, StateOn, LinksCompile, Runs, ValidNode;
    var q := placements[id];
    assert Compilable(p, q, vips);
    EntryIsThere(p, placements, vips, runtimes, c, id, q.ingress);
    EntryMatches(c, q.ingress, id, proto, first, now);
    if q.mode == ViaExit {
      EntryIsThere(p, placements, vips, runtimes, c, id, q.exit);
      EntryMatches(c, q.exit, id, proto, second, now);
    }
  }

  lemma EntryMatches(c: Cluster, node: Id, id: Id, proto: Protocol, prog: Nft.Program, now: nat)
    requires node in c && id in c[node].forwards && proto in c[node].forwards[id].protocols
    requires Runs(prog, node, c[node], now)
    ensures var f := c[node].forwards[id];
            var key := Key(Nft.MatchOf(node, f), proto);
            key in prog.dnat && prog.dnat[key] == Nft.TargetOf(node, f) && Nft.Entered(prog, node, c[node], f, key, now)
  {
    var f := c[node].forwards[id];
    assert Key(Nft.MatchOf(node, f), proto) in Nft.MatchKeys(node, f);
  }

  /** The link an entry uses, as compiled on its node. */
  lemma LinkIsThere(p: Plan, placements: map<Id, Placement>, vips: map<Id, Address>, runtimes: map<Id, Runtime>, c: Cluster,
                    id: Id, node: Id)
    requires Compiled(p, placements, vips, runtimes, c) && id in placements && node in c
    requires placements[id].mode == ViaExit && LinksMatch(p, placements[id])
    requires node == placements[id].ingress || node == placements[id].exit
    ensures id in c[node].forwards && c[node].forwards[id].mode == ViaExit && c[node].forwards[id].vip.Some?
    ensures var l := c[node].forwards[id].link;
            var link := p.nodes[node].links[if node == placements[id].exit then placements[id].linkOut else placements[id].linkIn];
            && l in c[node].links
            && c[node].links[l].device == link.device && c[node].links[l].local == link.local
            && c[node].links[l].peerAddress == link.peerAddress && c[node].links[l].routingID == link.routingID
  {
    hide ChecksOn, PoliciesOn, ForwardsOn, Disjoint, InServiceRange, ValidPlan, LinksOn, LinksCompile, NeededLinks, ValidNode;
    var q := placements[id];
    assert Compilable(p, q, vips);
    EntryIsThere(p, placements, vips, runtimes, c, id, node);
    NeededBy(placements, id);
    UsedLinkCompiles(p, placements, runtimes, node, if node == q.exit then q.linkOut else q.linkIn);
  }

  lemma NeededBy(placements: map<Id, Placement>, id: Id)
    requires id in placements && placements[id].mode == ViaExit
    ensures placements[id].linkIn in NeededLinks(placements, placements[id].ingress)
    ensures placements[id].linkOut in NeededLinks(placements, placements[id].exit)
  {
  }

  lemma UsedLinkCompiles(p: Plan, placements: map<Id, Placement>, runtimes: map<Id, Runtime>, node: Id, l: Id)
    requires node in p.nodes && LinksCompile(p, placements, runtimes, node)
    requires l in p.nodes[node].links && l in NeededLinks(placements, node)
    ensures var links, link := LinksOn(p, placements, runtimes, node), p.nodes[node].links[l];
            && l in links && links[l].device == link.device && links[l].local == link.local
            && links[l].peerAddress == link.peerAddress && links[l].routingID == link.routingID
  {
    hide NeededLinks;
  }

  /** Both directions of a tunnel: the ingress routes the VIP to the exit's own fabric address and may
      send it there; the exit accepts the source the ingress uses, and its reply mark selects a rule
      and a table that lead back to the ingress. */
  ghost predicate TunnelWorks(p: Plan, q: Placement, vip: Address, proto: Protocol, c: Cluster, first: Nft.Program, second: Nft.Program)
    requires LinksMatch(p, q) && q.forward in p.forwards && q.ingress in c && q.exit in c
  {
    var i, o := p.nodes[q.ingress].links[q.linkIn], p.nodes[q.exit].links[q.linkOut];
    var there := Fabric.ProgramOf(q.ingress, c[q.ingress], c[q.ingress].forwards.Keys);
    var back := Fabric.ProgramOf(q.exit, c[q.exit], c[q.exit].forwards.Keys);
    var sent, arrived := Key(p.forwards[q.forward].listen, proto), Key(Endpoint(vip, q.target.port), proto);
    // out: the VIP goes through the link to the address the exit has there
    && Fabric.Route(vip, i.device, Some(o.local.address), Fabric.MAIN_TABLE) in there.routes
    && q.linkIn in there.allowed && vip in there.allowed[q.linkIn] && o.local.address in there.allowed[q.linkIn]
    // it leaves with an address the exit's link accepts
    && sent in first.snat && first.snat[sent] == i.local.address
    && q.linkOut in back.allowed && first.snat[sent] in back.allowed[q.linkOut]
    // back: the reply mark leads through its own table to the ingress
    && arrived in second.routeMarks
    && Fabric.Rule(second.routeMarks[arrived], Fabric.RouteTable(o.routingID), Fabric.RulePriority(o.routingID)) in back.rules
    && Fabric.Route(i.local.address, o.device, None, Fabric.RouteTable(o.routingID)) in back.routes
    // and the kernels have no other choice
    && OnlyWayOut(there, vip, q.linkIn)
    && OnlyWayBack(back, Nft.RoutingMark(o.routingID), Fabric.RouteTable(o.routingID))
  }

  /** One route for the VIP among those everybody uses, and one link that may carry it. */
  predicate OnlyWayOut(program: Fabric.Program, vip: Address, link: Id) {
    && (forall r, s :: r in program.routes && s in program.routes &&
                       r.destination == s.destination == vip && r.table == s.table == Fabric.MAIN_TABLE ==>
          r == s)
    && (forall l :: l in program.allowed && vip in program.allowed[l] ==> l == link)
  }

  /** One rule for the mark, and one route in the table it leads to. */
  predicate OnlyWayBack(program: Fabric.Program, mark: nat, table: nat) {
    && (forall r, s :: r in program.rules && s in program.rules && r.mark == s.mark == mark ==> r == s)
    && (forall r, s :: r in program.routes && s in program.routes && r.table == s.table == table ==> r == s)
  }

  /** The three compilers agree on every tunnel over reciprocal links. */
  lemma TunnelAgrees(p: Plan, placements: map<Id, Placement>, vips: map<Id, Address>, runtimes: map<Id, Runtime>, c: Cluster,
                     id: Id, proto: Protocol, first: Nft.Program, second: Nft.Program, now: nat)
    requires Compiled(p, placements, vips, runtimes, c) && id in placements && proto in p.forwards[id].protocols
    requires placements[id].mode == ViaExit && LinksMatch(p, placements[id]) && id in vips
    requires Runs(first, placements[id].ingress, c[placements[id].ingress], now)
    requires Runs(second, placements[id].exit, c[placements[id].exit], now)
    ensures TunnelWorks(p, placements[id], vips[id], proto, c, first, second)
  {
    hide ValidPlan, StateOn, LinksCompile, Runs, ValidNode, Fabric.ProgramOf, OnlyWayOut, OnlyWayBack;
    var q := placements[id];
    NoOtherWay(c, q.ingress, id);
    NoOtherWay(c, q.exit, id);
    LinkIsThere(p, placements, vips, runtimes, c, id, q.ingress);
    LinkIsThere(p, placements, vips, runtimes, c, id, q.exit);
    EntryIsThere(p, placements, vips, runtimes, c, id, q.ingress);
    EntryIsThere(p, placements, vips, runtimes, c, id, q.exit);
    EntryMatches(c, q.ingress, id, proto, first, now);
    EntryMatches(c, q.exit, id, proto, second, now);
    OutgoingRoute(c, q.ingress, id);
    ArrivingRoute(c, q.exit, id);
  }

  lemma OutgoingRoute(c: Cluster, node: Id, id: Id)
    requires node in c && id in c[node].forwards && c[node].forwards[id].ingress == node
    requires Fabric.Carries(node, c[node], c[node].forwards[id])
    ensures var f, prog := c[node].forwards[id], Fabric.ProgramOf(node, c[node], c[node].forwards.Keys);
            && Fabric.VipRoute(c[node], f) in prog.routes
            && f.link in prog.allowed && f.vip.value in prog.allowed[f.link] && c[node].links[f.link].peerAddress in prog.allowed[f.link]
  {
    assert id in Fabric.Outgoing(node, c[node], c[node].forwards.Keys);
  }

  lemma ArrivingRoute(c: Cluster, node: Id, id: Id)
    requires node in c && id in c[node].forwards && c[node].forwards[id].ingress != node
    requires Fabric.Carries(node, c[node], c[node].forwards[id])
    ensures var f, prog := c[node].forwards[id], Fabric.ProgramOf(node, c[node], c[node].forwards.Keys);
            var link := c[node].links[f.link];
            && Fabric.PeerRoute(link) in prog.routes && Fabric.ReplyRule(link) in prog.rules
            && f.link in prog.allowed && link.peerAddress in prog.allowed[f.link]
  {
    assert id in Fabric.Arriving(node, c[node], c[node].forwards.Keys);
  }

  /** A VIP belongs to one forward of a node, and a routing identifier to one link. */
  lemma NoOtherWay(c: Cluster, node: Id, id: Id)
    requires node in c && ValidNode(node, c[node])
    ensures id in c[node].forwards && Fabric.Carries(node, c[node], c[node].forwards[id]) ==>
      var f, prog := c[node].forwards[id], Fabric.ProgramOf(node, c[node], c[node].forwards.Keys);
      var routing := c[node].links[f.link].routingID;
      OnlyWayOut(prog, f.vip.value, f.link) && OnlyWayBack(prog, Nft.RoutingMark(routing), Fabric.RouteTable(routing))
  {
    hide ValidNode, OnlyWayOut, OnlyWayBack;
    var s := c[node];
    if id in s.forwards && Fabric.Carries(node, s, s.forwards[id]) {
      OneWayOut(node, s, id);
      OneWayBack(node, s, s.forwards[id].link);
    }
  }

  lemma OneWayOut(node: Id, s: NodeState, id: Id)
    requires ValidNode(node, s) && id in s.forwards && Fabric.Carries(node, s, s.forwards[id])
    ensures OnlyWayOut(Fabric.ProgramOf(node, s, s.forwards.Keys), s.forwards[id].vip.value, s.forwards[id].link)
  {
    hide ValidNode, InServiceRange, ValidLink;
    var vip, prog := s.forwards[id].vip.value, Fabric.ProgramOf(node, s, s.forwards.Keys);
    forall j | j in s.forwards && Fabric.Carries(node, s, s.forwards[j]) && s.forwards[j].vip == Some(vip)
      ensures j == id
    {
      OneVipEach(node, s, id, j);
    }
    forall l | l in s.links
      ensures s.links[l].peerAddress != vip
    {
      PeersAreNoVips(node, s, id, l);
    }
    forall r | r in prog.routes && r.destination == vip && r.table == Fabric.MAIN_TABLE
      ensures r == Fabric.VipRoute(s, s.forwards[id])
    {
      assert forall l :: l in s.links ==> Fabric.PeerRoute(s.links[l]).table != Fabric.MAIN_TABLE;
    }
  }

  lemma OneVipEach(node: Id, s: NodeState, i: Id, j: Id)
    requires ValidNode(node, s) && i in s.forwards && j in s.forwards
    requires s.forwards[i].mode == s.forwards[j].mode == ViaExit && s.forwards[i].vip == s.forwards[j].vip
    ensures i == j
  {
    hide ValidForward, KeysOf, ValidLink, LinksApart;
    assert i != j ==> Disjoint(node, s.forwards[i], s.forwards[j]);
  }

  lemma PeersAreNoVips(node: Id, s: NodeState, id: Id, l: Id)
    requires ValidNode(node, s) && id in s.forwards && l in s.links && Fabric.Carries(node, s, s.forwards[id])
    ensures s.links[l].peerAddress != s.forwards[id].vip.value
  {
    hide Disjoint, LinksApart, InServiceRange;
    assert ValidLink(node, s, s.links[l]) && ValidForward(node, s, s.forwards[id]);
  }

  lemma OneWayBack(node: Id, s: NodeState, l: Id)
    requires ValidNode(node, s) && l in s.links
    ensures OnlyWayBack(Fabric.ProgramOf(node, s, s.forwards.Keys), Nft.RoutingMark(s.links[l].routingID), Fabric.RouteTable(s.links[l].routingID))
  {
    hide ValidNode;
    var routing, prog := s.links[l].routingID, Fabric.ProgramOf(node, s, s.forwards.Keys);
    forall m | m in s.links && s.links[m].routingID == routing
      ensures m == l
    {
      OneRoutingEach(node, s, l, m);
    }
    forall r | r in prog.rules && r.mark == Nft.RoutingMark(routing)
      ensures r == Fabric.ReplyRule(s.links[l])
    {
    }
    forall r | r in prog.routes && r.table == Fabric.RouteTable(routing)
      ensures r == Fabric.PeerRoute(s.links[l])
    {
    }
  }

  lemma OneRoutingEach(node: Id, s: NodeState, l: Id, m: Id)
    requires ValidNode(node, s) && l in s.links && m in s.links && s.links[l].routingID == s.links[m].routingID
    ensures l == m
  {
    hide ValidForward, Disjoint, ValidLink;
    assert l != m ==> LinksApart(s.links[l], s.links[m]);
  }

  // ---------------------------------------------------------------- what else a node receives

  /** An entry says what the plan says of its forward, and where the forward was placed. */
  predicate AsPlanned(p: Plan, q: Placement, vips: map<Id, Address>, e: Forward, node: Id)
    requires q.forward in p.forwards
  {
    var f := p.forwards[q.forward];
    && e.id == f.id && e.user == f.user && e.protocols == f.protocols && e.listen == f.listen && e.mode == f.mode
    && e.snat == f.snat && e.rate == f.rate && e.quota == f.quota && e.expiresAt == f.expiresAt
    && e.drainDeadline == f.drainDeadline && e.lifecycle == f.lifecycle && e.version == f.version
    && e.ingress == q.ingress && e.exit == q.exit && e.target == q.target
    && (q.mode == Direct ==> e.link == "")
    && (q.mode == ViaExit ==> q.forward in vips && e.vip == Some(vips[q.forward]))
    && (q.mode == ViaExit && node == q.exit ==> e.link == q.linkOut)
    && (q.mode == ViaExit && node == q.ingress && node != q.exit ==> e.link == q.linkIn)
  }

  /** Every placed forward is on its nodes, and nowhere else, as planned. */
  lemma EntriesAreAsPlanned(p: Plan, placements: map<Id, Placement>, vips: map<Id, Address>, runtimes: map<Id, Runtime>, c: Cluster,
                            id: Id, node: Id)
    requires Compiled(p, placements, vips, runtimes, c) && id in placements && node in c
    ensures placements[id].forward == id && id in p.forwards && p.forwards[id].pool in p.pools
    ensures var backends := p.pools[p.forwards[id].pool].backends;
            placements[id].backend in backends && placements[id].target == backends[placements[id].backend].target
    ensures id in c[node].forwards <==>
            node == placements[id].ingress || (placements[id].mode == ViaExit && node == placements[id].exit)
    ensures id in c[node].forwards ==> AsPlanned(p, placements[id], vips, c[node].forwards[id], node)
  {
    hide ValidPlan, LinksOn, ChecksOn, PoliciesOn, ValidForward, ValidNode, StateOn, LinksCompile;
    EntryIsThere(p, placements, vips, runtimes, c, id, node);
    assert Compilable(p, placements[id], vips);
  }

  /** The node that hands traffic to the target probes every backend of the pool, at the backend's probe
      address if it has one. */
  lemma BackendsAreProbed(p: Plan, placements: map<Id, Placement>, vips: map<Id, Address>, runtimes: map<Id, Runtime>, c: Cluster,
                          id: Id, b: Id)
    requires Compiled(p, placements, vips, runtimes, c) && id in placements
    requires p.pools[p.forwards[id].pool].health.Some? && b in p.pools[p.forwards[id].pool].backends
    ensures var q, pool := placements[id], p.forwards[id].pool;
            var node := if q.mode == ViaExit then q.exit else q.ingress;
            var backend, health := p.pools[pool].backends[b], p.pools[pool].health.value;
            && node in c && (pool, b) in c[node].checks
            && c[node].checks[(pool, b)] ==
               Check(p.pools[pool].id, backend.id, if backend.probe.Some? then backend.probe.value else backend.target,
                     health.timing, backend.version)
  {
    hide ValidPlan, LinksOn, ForwardsOn, PoliciesOn, ValidNode, LinksCompile, BackendFresh;
    var q, pool := placements[id], p.forwards[id].pool;
    assert Compilable(p, q, vips);
    var node := if q.mode == ViaExit then q.exit else q.ingress;
    assert c[node] == StateOn(p, placements, vips, runtimes, node);
    assert pool in ProbedPools(p, placements, node, placements.Keys);
    assert (pool, b) in BackendKeys(p, ProbedPools(p, placements, node, placements.Keys));
  }

  /** The users of a node are those whose forwards enter there: it has the plan's policy of each of them, and
      no other. */
  lemma UsersHaveTheirPolicies(p: Plan, placements: map<Id, Placement>, vips: map<Id, Address>, runtimes: map<Id, Runtime>, c: Cluster,
                               node: Id, u: Id)
    requires Compiled(p, placements, vips, runtimes, c) && node in c
    ensures u in c[node].policies <==>
            u in p.policies && exists id :: id in placements && placements[id].ingress == node && p.forwards[id].user == u
    ensures u in c[node].policies ==> c[node].policies[u] == p.policies[u]
  {
    hide ValidPlan, LinksOn, ForwardsOn, ChecksOn, ValidNode, LinksCompile;
    assert c[node] == StateOn(p, placements, vips, runtimes, node);
  }

  /** Some tunnel runs over this link of the node. */
  predicate Tunnels(placements: map<Id, Placement>, node: Id, l: Id) {
    exists id :: id in placements && placements[id].mode == ViaExit
                 && ((placements[id].ingress == node && placements[id].linkIn == l) ||
                     (placements[id].exit == node && placements[id].linkOut == l))
  }

  /** A node has the links of its tunnels and no other, and a WireGuard link comes with the key of its peer. */
  lemma LinksAreThoseOfTunnels(p: Plan, placements: map<Id, Placement>, vips: map<Id, Address>, runtimes: map<Id, Runtime>, c: Cluster,
                               node: Id, l: Id)
    requires Compiled(p, placements, vips, runtimes, c) && node in c
    ensures l in c[node].links <==> l in p.nodes[node].links && Tunnels(placements, node, l)
    ensures l in c[node].links ==>
      var link, from := c[node].links[l], p.nodes[node].links[l];
      && link == from.(settings := link.settings)
      && (from.transport != WireGuard ==> link == from)
      && (from.transport == WireGuard ==> from.peer in runtimes && runtimes[from.peer].wireguardKey != ""
                                          && link.settings == from.settings + runtimes[from.peer].wireguardKey)
  {
    hide ValidPlan, ForwardsOn, ChecksOn, PoliciesOn, ValidNode, NeededLinks, Tunnels;
    assert c[node] == StateOn(p, placements, vips, runtimes, node);
    NeededMeans(placements, node, l);
  }

  lemma NeededMeans(placements: map<Id, Placement>, node: Id, l: Id)
    ensures l in NeededLinks(placements, node) <==> Tunnels(placements, node, l)
  {
  }
}
