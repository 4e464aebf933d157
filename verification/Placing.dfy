/** The scheduler: which nodes carry a forward. */
module Placing {
  import opened Spec
  import opened Ordering
  import opened Plan

  /** The number of values of a 64-bit word. */
  function Word(): nat {
    0x1_0000_0000_0000_0000
  }

  /** What is already placed on a node; bandwidth sums wrap at 64 bits. */
  datatype Usage = Usage(forwards: nat, ingress: nat, egress: nat)

  function None0(): Usage {
    Usage(0, 0, 0)
  }

  function UsageOf(usage: map<Id, Usage>, node: Id): Usage {
    if node in usage then usage[node] else None0()
  }

  /** A forward without a reservation reserves its rate limit. */
  function EffectiveReservation(f: PlannedForward): Reservation {
    var r := f.reservation;
    if f.rate.None? then r
    else Reservation(if r.ingress == 0 then f.rate.value.ingress else r.ingress,
                     if r.egress == 0 then f.rate.value.egress else r.egress)
  }

  /** Subtraction on unsigned 64-bit words. */
  function Minus(a: int, b: int): int {
    (a - b) % Word()
  }

  predicate Fits(node: Node, current: Usage, r: Reservation) {
    && current.forwards < node.capacity.maxForwards
    && (node.capacity.ingress != 0 ==> r.ingress <= Minus(node.capacity.ingress, current.ingress))
    && (node.capacity.egress != 0 ==> r.egress <= Minus(node.capacity.egress, current.egress))
  }

  function Consume(usage: map<Id, Usage>, node: Id, r: Reservation): map<Id, Usage> {
    var u := UsageOf(usage, node);
    usage[node := Usage(u.forwards + 1, (u.ingress + r.ingress) % Word(), (u.egress + r.egress) % Word())]
  }

  // ---------------------------------------------------------------- eligibility

  function Version(r: Runtime, name: string): nat {
    if name in r.capabilities then r.capabilities[name] else 0
  }

  /** Required capabilities: names with their least version. */
  type Demands = set<(string, nat)>

  predicate Has(r: Runtime, required: Demands) {
    forall d :: d in required ==> d.1 <= Version(r, d.0)
  }

  function Demand(name: string, version: nat, needed: bool): Demands {
    if needed then {(name, version)} else {}
  }

  function UserPolicy(p: Plan, user: Id): Option<Policy> {
    if user in p.policies then Some(p.policies[user]) else None
  }

  /** The capabilities a node needs to play a role in a forward. */
  function Required(p: Plan, f: PlannedForward, role: NodeRole): Demands
    requires f.pool in p.pools
  {
    var policy := UserPolicy(p, f.user);
    var limited := role == IngressRole && (f.rate.Some? || (policy.Some? && policy.value.rate.Some?));
    var metered := role == IngressRole && (f.quota.Some? || (policy.Some? && policy.value.quota.Some?));
    var probed := p.pools[f.pool].health.Some? &&
                  ((f.mode == Direct && role == IngressRole) || (f.mode == ViaExit && role == ExitRole));
    Demand("nft.direct", 2, f.mode == Direct) +
    Demand("nft.via-exit", 1, f.mode == ViaExit) + Demand("fabric.policy-routing", 1, f.mode == ViaExit) +
    Demand("fabric.mss-clamp", 1, f.mode == ViaExit) +
    Demand("tc.rate-limit", 1, limited) + Demand("usage.l3", 1, metered) + Demand("nft.directional-counters", 1, metered) +
    Demand("nft.static-snat", 1, f.snat.Static?) +
    Demand("policy.local-deadline", 1, f.expiresAt.Some? || f.drainDeadline.Some?) +
    Demand("nft.drain", 1, f.lifecycle == Draining) + Demand("nft.force-delete", 1, f.lifecycle == ForceDeleting) +
    Demand("health.tcp-connect", 1, probed)
  }

  predicate SupportsFabric(r: Runtime, t: Transport) {
    && 1 <= Version(r, "fabric.policy-routing") && 1 <= Version(r, "fabric.mss-clamp")
    && match t
       case WireGuard => 1 <= Version(r, "fabric.wireguard") && r.wireguardKey != ""
       case DirectL3 => 1 <= Version(r, "fabric.direct-l3")
       case Gre => 1 <= Version(r, "fabric.gre")
  }

  predicate Selected(s: Selector, n: Node) {
    && (s.ids != {} ==> n.id in s.ids)
    && forall k :: k in s.labels ==> (if k in n.labels then n.labels[k] else "") == s.labels[k]
  }

  /** Reciprocal links between two nodes, with each other's addresses. */
  predicate LinksPair(first: Node, second: Node, i: Id, o: Id) {
    && i in first.links && o in second.links
    && first.links[i].peer == second.id && second.links[o].peer == first.id
    && first.links[i].transport == second.links[o].transport
    && first.links[i].peerAddress == second.links[o].local.address
    && second.links[o].peerAddress == first.links[i].local.address
  }

  /** reciprocalLink: the first link back, by identifier, with the same transport. */
  predicate IsReciprocal(second: Node, peer: Id, t: Transport, o: Id) {
    && o in second.links && second.links[o].peer == peer && second.links[o].transport == t
    && forall x :: x in second.links && second.links[x].peer == peer && second.links[x].transport == t ==> x == o || Before(o, x)
  }

  /** The pairs matchingLinks considers: for each link the one reciprocal link, if addresses agree. */
  predicate Matching(first: Node, second: Node, i: Id, o: Id) {
    LinksPair(first, second, i, o) && IsReciprocal(second, first.id, first.links[i].transport, o)
  }

  /** The choice is made by identifier: no other link that matches comes before. */
  predicate FirstMatch(first: Node, second: Node, i: Id, o: Id) {
    Matching(first, second, i, o) && forall x, y :: x in first.links && y in second.links && Matching(first, second, x, y) ==> x == i || Before(i, x)
  }

  /** What a role of a forward asks of a node. */
  datatype Ask = Ask(forward: PlannedForward, role: NodeRole, selector: Selector, opposite: Option<Id>)

  ghost predicate Eligible(p: Plan, a: Ask, runtimes: map<Id, Runtime>, usage: map<Id, Usage>, n: Id)
    requires a.forward.pool in p.pools
  {
    && n in p.nodes && n in runtimes
    && var node := p.nodes[n];
       && a.opposite != Some(n) && node.enabled && a.role in node.roles && Selected(a.selector, node)
       && Fits(node, UsageOf(usage, n), EffectiveReservation(a.forward))
       && runtimes[n].available && Has(runtimes[n], Required(p, a.forward, a.role))
       && (a.opposite.Some? ==> Facing(p, a, runtimes, n))
  }

  /** The node can face the one already chosen for the other role. */
  ghost predicate Facing(p: Plan, a: Ask, runtimes: map<Id, Runtime>, n: Id)
    requires a.opposite.Some? && n in p.nodes && n in runtimes
  {
    var m := a.opposite.value;
    && m in p.nodes && m in runtimes
    && (a.forward.domains == Distinct ==> p.nodes[n].domain != p.nodes[m].domain)
    && exists i, o :: FirstMatch(p.nodes[m], p.nodes[n], i, o)
         && SupportsFabric(runtimes[m], p.nodes[m].links[i].transport)
         && SupportsFabric(runtimes[n], p.nodes[n].links[o].transport)
  }

  // ---------------------------------------------------------------- the load order

  function MaxForwards(p: Plan, n: Id): nat {
    if n in p.nodes then p.nodes[n].capacity.maxForwards else 1
  }

  function Domain(p: Plan, n: Id): string {
    if n in p.nodes then p.nodes[n].domain else ""
  }

  /** A preferred node lies in another failure domain than the opposite one. */
  predicate Preferable(p: Plan, a: Ask, n: Id) {
    a.opposite.Some? && a.forward.domains == Prefer && Domain(p, n) != Domain(p, a.opposite.value)
  }

  /** Preferred nodes first, then by load: fractions are compared by cross-multiplication. */
  predicate Lighter(p: Plan, a: Ask, usage: map<Id, Usage>, m: Id, n: Id) {
    if Preferable(p, a, m) != Preferable(p, a, n) then Preferable(p, a, m)
    else
      var left := UsageOf(usage, m).forwards * MaxForwards(p, n);
      var right := UsageOf(usage, n).forwards * MaxForwards(p, m);
      if left == right then Before(m, n) else left < right
  }

  function LoadOrder(p: Plan, a: Ask, usage: map<Id, Usage>): (Id, Id) -> bool {
    (m, n) => Lighter(p, a, usage, m, n)
  }

  lemma Fractions(a: nat, x: nat, b: nat, y: nat, c: nat, z: nat)
    requires x > 0 && y > 0 && z > 0
    requires a * y <= b * x && b * z <= c * y
    ensures a * z <= c * x
    ensures a * y < b * x || b * z < c * y ==> a * z < c * x
  {
    Scale(a * y, b * x, z);
    Scale(b * z, c * y, x);
    assert a * y * z == a * z * y && b * x * z == b * z * x && c * y * x == c * x * y;
    Unscale(a * z, c * x, y);
  }

  lemma Scale(a: nat, b: nat, k: nat)
    requires a <= b && k > 0
    ensures a * k <= b * k && (a < b ==> a * k < b * k)
  {
  }

  lemma Unscale(a: nat, b: nat, k: nat)
    requires a * k <= b * k && k > 0
    ensures a <= b && (a * k < b * k ==> a < b)
  {
  }

  lemma LoadOrderIsStrictTotal(p: Plan, a: Ask, usage: map<Id, Usage>)
    requires ValidPlan(p)
    ensures StrictTotal(LoadOrder(p, a, usage))
  {
    hide Preferable, Before;
    var less := LoadOrder(p, a, usage);
    forall m, n
      ensures less(m, n) ==> !less(n, m)
      ensures m == n || less(m, n) || less(n, m)
    {
      BeforeIsStrict(m, n);
      BeforeIsTotal(m, n);
    }
    forall l, m, n | less(l, m) && less(m, n)
      ensures less(l, n)
    {
      LighterIsTransitive(p, a, usage, l, m, n);
    }
  }

  lemma LighterIsTransitive(p: Plan, a: Ask, usage: map<Id, Usage>, l: Id, m: Id, n: Id)
    requires ValidPlan(p) && Lighter(p, a, usage, l, m) && Lighter(p, a, usage, m, n)
    ensures Lighter(p, a, usage, l, n)
  {
    hide Preferable, Before;
    PositiveMax(p, l);
    PositiveMax(p, m);
    PositiveMax(p, n);
    if Preferable(p, a, l) == Preferable(p, a, m) == Preferable(p, a, n) {
      Fractions(UsageOf(usage, l).forwards, MaxForwards(p, l), UsageOf(usage, m).forwards, MaxForwards(p, m),
                UsageOf(usage, n).forwards, MaxForwards(p, n));
      if Before(l, m) && Before(m, n) {
        BeforeIsTransitive(l, m, n);
      }
    }
  }

  lemma PositiveMax(p: Plan, n: Id)
    requires ValidPlan(p)
    ensures MaxForwards(p, n) > 0
  {
    if n in p.nodes {
      assert ValidPlanNode(n, p.nodes[n]);
    }
  }

  // ---------------------------------------------------------------- choosing a node

  /** A sticky node stays if it may; otherwise the lightest eligible node is taken. */
  ghost predicate IsChoice(p: Plan, a: Ask, runtimes: map<Id, Runtime>, usage: map<Id, Usage>, previous: Id, n: Id)
    requires a.forward.pool in p.pools
  {
    && Eligible(p, a, runtimes, usage, n)
    && if previous != "" && Eligible(p, a, runtimes, usage, previous) then n == previous
       else forall m :: Eligible(p, a, runtimes, usage, m) && m != n ==> Lighter(p, a, usage, n, m)
  }

  /** `n` is as good as `m`: in another failure domain than the opposite node, if that is preferred and `m`
      is; and then no fuller in proportion to its limit, or as full and first by identifier. */
  predicate AsGood(p: Plan, a: Ask, usage: map<Id, Usage>, n: Id, m: Id)
    requires n in p.nodes && m in p.nodes
  {
    var used, other := if n in usage then usage[n].forwards else 0, if m in usage then usage[m].forwards else 0;
    var first, second := p.nodes[n], p.nodes[m];
    var apart := a.forward.domains == Prefer && a.opposite.Some? && a.opposite.value in p.nodes;
    var near := if apart then p.nodes[a.opposite.value].domain else "";
    && (apart && second.domain != near ==> first.domain != near)
    && (!apart || (first.domain != near <==> second.domain != near) ==>
          && used * second.capacity.maxForwards <= other * first.capacity.maxForwards
          && (used * second.capacity.maxForwards == other * first.capacity.maxForwards ==> n == m || Before(n, m)))
  }

  lemma LighterIsAsGood(p: Plan, a: Ask, usage: map<Id, Usage>, n: Id, m: Id)
    requires n in p.nodes && m in p.nodes && Lighter(p, a, usage, n, m)
    requires a.opposite.Some? ==> a.opposite.value in p.nodes
    ensures AsGood(p, a, usage, n, m)
  {
  }

  /** The choice does not depend on the order in which the nodes are visited. */
  lemma ChoiceIsUnique(p: Plan, a: Ask, runtimes: map<Id, Runtime>, usage: map<Id, Usage>, previous: Id, m: Id, n: Id)
    requires ValidPlan(p) && a.forward.pool in p.pools
    requires IsChoice(p, a, runtimes, usage, previous, m) && IsChoice(p, a, runtimes, usage, previous, n)
    ensures m == n
  {
    hide Eligible, Lighter;
    LoadOrderIsStrictTotal(p, a, usage);
    var less := LoadOrder(p, a, usage);
    assert less(m, n) == Lighter(p, a, usage, m, n) && less(n, m) == Lighter(p, a, usage, n, m);
  }

  /** Two links that lead from each node to the other, in one technique, each to the address of the other. */
  predicate FaceEachOther(first: Node, second: Node, i: Id, o: Id) {
    && i in first.links && o in second.links
    && var f, s := first.links[i], second.links[o];
       && f.peer == second.id && s.peer == first.id && f.transport == s.transport
       && f.peerAddress == s.local.address && s.peerAddress == f.local.address
  }

  /** Another link of the second node, to the same peer in the same technique, comes before `o` and is the only
      one looked at. */
  ghost predicate ShadowedBy(first: Node, second: Node, i: Id, o: Id) {
    i in first.links && exists x :: x != o && !Before(o, x) && LeadsTo(second, x, first.id, first.links[i].transport)
  }

  predicate LeadsTo(node: Node, l: Id, peer: Id, t: Transport) {
    l in node.links && node.links[l].peer == peer && node.links[l].transport == t
  }

  lemma MatchingMeans(first: Node, second: Node, i: Id, o: Id)
    ensures Matching(first, second, i, o) <==> FaceEachOther(first, second, i, o) && !ShadowedBy(first, second, i, o)
  {
  }

  method MatchingLinks(first: Node, second: Node) returns (r: Option<(Id, Id)>)
    ensures r.Some? ==> FirstMatch(first, second, r.value.0, r.value.1)
    ensures r.None? ==> forall i, o :: !Matching(first, second, i, o)
    ensures r.Some? ==>
      && FaceEachOther(first, second, r.value.0, r.value.1)
      && (forall o :: FaceEachOther(first, second, r.value.0, o) ==> o == r.value.1 || Before(r.value.1, o))
      && forall i, o :: Matching(first, second, i, o) ==> i == r.value.0 || Before(r.value.0, i)
    ensures r.None? ==> forall i, o :: FaceEachOther(first, second, i, o) ==> ShadowedBy(first, second, i, o)
  {
    forall i, o
      ensures Matching(first, second, i, o) ==> FaceEachOther(first, second, i, o)
      ensures FaceEachOther(first, second, i, o) ==> Matching(first, second, i, o) || ShadowedBy(first, second, i, o)
    {
      MatchingMeans(first, second, i, o);
    }
    hide Matching, LinksPair, IsReciprocal, FaceEachOther, ShadowedBy;
    var links := SortIds(first.links.Keys);
    for k := 0 to |links|
      invariant forall j, o :: 0 <= j < k ==> !Matching(first, second, links[j], o)
    {
      var i := links[k];
      assert i in links;
      var back := ReciprocalLink(second, first.id, first.links[i].transport);
      if back.Some? {
        MatchIs(first, second, i, back.value);
        if LinksPair(first, second, i, back.value) {
          forall x, y | x in first.links && y in second.links && Matching(first, second, x, y)
            ensures x == i || Before(i, x)
          {
            var j :| 0 <= j < |links| && links[j] == x;
            assert j > k ==> ById()(links[k], links[j]);
          }
          return Some((i, back.value));
        }
      } else {
        NoReciprocal(first, second, i);
      }
    }
    forall i, o
      ensures !Matching(first, second, i, o)
    {
      if i in first.links {
        var j :| 0 <= j < |links| && links[j] == i;
      } else {
        NotALink(first, second, i, o);
      }
    }
    return None;
  }

  lemma NotALink(first: Node, second: Node, i: Id, o: Id)
    requires i !in first.links
    ensures !Matching(first, second, i, o)
  {
  }

  lemma NoReciprocal(first: Node, second: Node, i: Id)
    requires i in first.links
    requires forall o :: o in second.links ==> !(second.links[o].peer == first.id && second.links[o].transport == first.links[i].transport)
    ensures forall o :: !Matching(first, second, i, o)
  {
  }

  lemma MatchIs(first: Node, second: Node, i: Id, o: Id)
    requires i in first.links && IsReciprocal(second, first.id, first.links[i].transport, o)
    ensures Matching(first, second, i, o) <==> LinksPair(first, second, i, o)
    ensures forall x :: Matching(first, second, i, x) ==> x == o
  {
    hide LinksPair;
    forall x | IsReciprocal(second, first.id, first.links[i].transport, x)
      ensures x == o
    {
      BeforeIsStrict(x, o);
    }
  }

  method ReciprocalLink(second: Node, peer: Id, t: Transport) returns (r: Option<Id>)
    ensures r.Some? ==> IsReciprocal(second, peer, t, r.value)
    ensures r.None? ==> forall o :: o in second.links ==> !(second.links[o].peer == peer && second.links[o].transport == t)
  {
    var links := SortIds(second.links.Keys);
    for k := 0 to |links|
      invariant forall j :: 0 <= j < k ==> !(second.links[links[j]].peer == peer && second.links[links[j]].transport == t)
    {
      var o := links[k];
      assert o in links;
      if second.links[o].peer == peer && second.links[o].transport == t {
        forall x | x in second.links && second.links[x].peer == peer && second.links[x].transport == t
          ensures x == o || Before(o, x)
        {
          assert x in links;
          var j :| 0 <= j < |links| && links[j] == x;
          assert j > k ==> ById()(links[k], links[j]);
        }
        return Some(o);
      }
    }
    forall o | o in second.links
      ensures !(second.links[o].peer == peer && second.links[o].transport == t)
    {
      assert o in links;
      var j :| 0 <= j < |links| && links[j] == o;
    }
    return None;
  }

  method Candidate(p: Plan, a: Ask, runtimes: map<Id, Runtime>, usage: map<Id, Usage>, n: Id) returns (eligible: bool)
    requires a.forward.pool in p.pools && n in p.nodes
    ensures eligible <==> Eligible(p, a, runtimes, usage, n)
  {
    hide Matching, Has, Required, Fits, Selected, SupportsFabric;
    var node := p.nodes[n];
    if a.opposite == Some(n) || !node.enabled || a.role !in node.roles || !Selected(a.selector, node) ||
       !Fits(node, UsageOf(usage, n), EffectiveReservation(a.forward)) {
      return false;
    }
    if n !in runtimes || !runtimes[n].available || !Has(runtimes[n], Required(p, a.forward, a.role)) {
      return false;
    }
    if a.opposite.Some? {
      var m := a.opposite.value;
      if m !in p.nodes || m !in runtimes {
        return false;
      }
      var links := MatchingLinks(p.nodes[m], node);
      if links.None? {
        assert forall i, o :: !FirstMatch(p.nodes[m], node, i, o);
        return false;
      }
      var (i, o) := links.value;
      FirstMatchIsUnique(p.nodes[m], node, i, o);
      LinksKnown(p.nodes[m], node, i, o);
      if !SupportsFabric(runtimes[m], p.nodes[m].links[i].transport) || !SupportsFabric(runtimes[n], node.links[o].transport) {
        return false;
      }
      if a.forward.domains == Distinct && node.domain == p.nodes[m].domain {
        return false;
      }
    }
    return true;
  }

  lemma LinksKnown(first: Node, second: Node, i: Id, o: Id)
    requires Matching(first, second, i, o)
    ensures i in first.links && o in second.links
  {
  }

  lemma FirstMatchIsUnique(first: Node, second: Node, i: Id, o: Id)
    requires FirstMatch(first, second, i, o)
    ensures forall x, y :: FirstMatch(first, second, x, y) ==> x == i && y == o
  {
    forall x, y | FirstMatch(first, second, x, y)
      ensures x == i && y == o
    {
      BeforeIsStrict(x, i);
      assert x == i;
      MatchIs(first, second, i, o);
    }
  }

  /** chooseNode. */
  method ChooseNode(p: Plan, a: Ask, runtimes: map<Id, Runtime>, usage: map<Id, Usage>, previous: Id) returns (r: Option<Id>)
    requires ValidPlan(p) && a.forward.pool in p.pools
    ensures r.Some? ==> IsChoice(p, a, runtimes, usage, previous, r.value)
    ensures r.Some? ==> Eligible(p, a, runtimes, usage, r.value)
    ensures r.Some? && previous != "" && Eligible(p, a, runtimes, usage, previous) ==> r.value == previous
    ensures r.Some? && (previous == "" || !Eligible(p, a, runtimes, usage, previous)) ==>
      forall m :: Eligible(p, a, runtimes, usage, m) ==> m in p.nodes && AsGood(p, a, usage, r.value, m)
    ensures r.None? ==> forall n :: !Eligible(p, a, runtimes, usage, n)
  {
    hide Eligible, Lighter, ValidPlan, AsGood;
    LoadOrderIsStrictTotal(p, a, usage);
    var candidates: seq<Id> := [];
    var nodes := p.nodes.Keys;
    while nodes != {}
      invariant nodes <= p.nodes.Keys
      invariant Sorted(candidates, LoadOrder(p, a, usage))
      invariant forall n :: n in candidates <==> n in p.nodes.Keys - nodes && Eligible(p, a, runtimes, usage, n)
      decreases |nodes|
    {
      var n :| n in nodes;
      nodes := nodes - {n};
      var eligible := Candidate(p, a, runtimes, usage, n);
      if eligible {
        candidates := Insert(candidates, n, LoadOrder(p, a, usage));
      }
    }
    EligibleIsNode(p, a, runtimes, usage);
    if |candidates| == 0 {
      return None;
    }
    if previous != "" && previous in candidates {
      return Some(previous);
    }
    var first := candidates[0];
    assert first in candidates;
    forall m | Eligible(p, a, runtimes, usage, m) && m != first
      ensures Lighter(p, a, usage, first, m)
    {
      assert m in candidates;
      var k :| 0 <= k < |candidates| && candidates[k] == m;
      assert LoadOrder(p, a, usage)(candidates[0], candidates[k]);
    }
    ChoiceIsBest(p, a, runtimes, usage, previous, first);
    return Some(first);
  }

  lemma EligibleIsNode(p: Plan, a: Ask, runtimes: map<Id, Runtime>, usage: map<Id, Usage>)
    requires a.forward.pool in p.pools
    ensures forall n :: Eligible(p, a, runtimes, usage, n) ==> n in p.nodes
  {
  }

  /** A choice that is not sticky is as good as every other eligible node. */
  lemma ChoiceIsBest(p: Plan, a: Ask, runtimes: map<Id, Runtime>, usage: map<Id, Usage>, previous: Id, n: Id)
    requires a.forward.pool in p.pools && IsChoice(p, a, runtimes, usage, previous, n)
    requires previous == "" || !Eligible(p, a, runtimes, usage, previous)
    ensures n in p.nodes && forall m :: Eligible(p, a, runtimes, usage, m) ==> m in p.nodes && AsGood(p, a, usage, n, m)
  {
    EligibleIsNode(p, a, runtimes, usage);
    hide Eligible, Lighter, AsGood;
    forall m | Eligible(p, a, runtimes, usage, m)
      ensures m in p.nodes && AsGood(p, a, usage, n, m)
    {
      OppositeIsNode(p, a, runtimes, usage, m);
      if m == n {
        AsGoodAsItself(p, a, usage, m);
      } else {
        LighterIsAsGood(p, a, usage, n, m);
      }
    }
  }

  lemma OppositeIsNode(p: Plan, a: Ask, runtimes: map<Id, Runtime>, usage: map<Id, Usage>, n: Id)
    requires a.forward.pool in p.pools && Eligible(p, a, runtimes, usage, n)
    ensures a.opposite.Some? ==> a.opposite.value in p.nodes
  {
    hide Fits, Has, Required, Selected, FirstMatch, SupportsFabric;
  }

  lemma AsGoodAsItself(p: Plan, a: Ask, usage: map<Id, Usage>, n: Id)
    requires n in p.nodes
    ensures AsGood(p, a, usage, n, n)
  {
  }

  /** What an eligible node is like: nothing more is asked of it, and nothing less. */
  lemma EligibleIsSuited(p: Plan, a: Ask, runtimes: map<Id, Runtime>, usage: map<Id, Usage>, n: Id)
    requires ValidPlan(p) && a.forward.pool in p.pools
    ensures Eligible(p, a, runtimes, usage, n) <==>
            && Suited(p, runtimes, a.role, a.selector, n)
            && Fits(p.nodes[n], UsageOf(usage, n), EffectiveReservation(a.forward))
            && Has(runtimes[n], Required(p, a.forward, a.role))
            && (a.opposite.Some? ==> Reaches(p, a, runtimes, n, a.opposite.value))
  {
    hide Fits, Has, Required, FirstMatch, SupportsFabric;
    if n in p.nodes {
      assert ValidPlanNode(n, p.nodes[n]);
    }
  }

  /** The two nodes are different ones, in different domains if they must be, and face each other over a tunnel that
      both support. */
  ghost predicate Reaches(p: Plan, a: Ask, runtimes: map<Id, Runtime>, n: Id, m: Id)
    requires n in p.nodes && n in runtimes
  {
    && m in p.nodes && m in runtimes && n != m
    && (a.forward.domains == Distinct ==> p.nodes[n].domain != p.nodes[m].domain)
    && exists i, o :: FirstMatch(p.nodes[m], p.nodes[n], i, o)
         && SupportsFabric(runtimes[m], p.nodes[m].links[i].transport)
         && SupportsFabric(runtimes[n], p.nodes[n].links[o].transport)
  }

  /** The node is switched on and reachable, plays the role, and is one that the selector names. */
  predicate Suited(p: Plan, runtimes: map<Id, Runtime>, role: NodeRole, s: Selector, n: Id) {
    && n in p.nodes && n in runtimes && runtimes[n].available
    && p.nodes[n].enabled && role in p.nodes[n].roles
    && (s.ids != {} ==> n in s.ids)
    && forall k :: k in s.labels ==> s.labels[k] == if k in p.nodes[n].labels then p.nodes[n].labels[k] else ""
  }

  // ---------------------------------------------------------------- choosing a backend

  datatype HealthStatus = Healthy | Unknown | Unhealthy

  /** What was last observed of a backend from a node, `None` if never. */
  datatype Observation = Observation(status: HealthStatus, version: nat, at: int)

  const CLOCK_SKEW: int := 300

  function StatusOf(pool: Pool, b: Backend, seen: map<Id, Observation>, now: int): HealthStatus {
    if pool.health.Some? && b.id in seen && seen[b.id].version == b.version
       && now >= seen[b.id].at - CLOCK_SKEW && now - seen[b.id].at <= pool.health.value.staleAfter
    then seen[b.id].status else Unknown
  }

  predicate Sooner(pool: Pool, a: Id, b: Id)
    requires a in pool.backends && b in pool.backends
  {
    pool.backends[a].priority < pool.backends[b].priority ||
    (pool.backends[a].priority == pool.backends[b].priority && Before(a, b))
  }

  /** The previous backend if none beats its priority, else the first by priority and identifier. */
  predicate IsPreferred(pool: Pool, among: set<Id>, previous: Id, b: Id)
    requires among <= pool.backends.Keys
  {
    && b in among
    && if previous in among && forall x :: x in among ==> pool.backends[previous].priority <= pool.backends[x].priority
       then b == previous
       else forall x :: x in among && x != b ==> Sooner(pool, b, x)
  }

  function WithStatus(pool: Pool, seen: map<Id, Observation>, now: int, status: HealthStatus): set<Id> {
    set b | b in pool.backends && StatusOf(pool, pool.backends[b], seen, now) == status
  }

  /** Healthy backends before unknown ones; with neither, the previous one is kept. */
  predicate IsBackend(pool: Pool, previous: Id, seen: map<Id, Observation>, now: int, b: Id) {
    var healthy, unknown := WithStatus(pool, seen, now, Healthy), WithStatus(pool, seen, now, Unknown);
    if pool.health.None? then IsPreferred(pool, pool.backends.Keys, previous, b)
    else if healthy != {} then IsPreferred(pool, healthy, previous, b)
    else if unknown != {} then if previous in unknown then b == previous else IsPreferred(pool, unknown, "", b)
    else if previous in pool.backends then b == previous
    else IsPreferred(pool, pool.backends.Keys, "", b)
  }

  lemma PreferredIsKnown(pool: Pool, previous: Id)
    ensures forall among, x :: among <= pool.backends.Keys && IsPreferred(pool, among, previous, x) ==> x in pool.backends
  {
  }

  lemma SoonerIsTransitive(pool: Pool, a: Id, b: Id, c: Id)
    requires {a, b, c} <= pool.backends.Keys && Sooner(pool, a, b) && Sooner(pool, b, c)
    ensures Sooner(pool, a, c)
  {
    if Before(a, b) && Before(b, c) {
      BeforeIsTransitive(a, b, c);
    }
  }

  method PreferredBackend(pool: Pool, among: set<Id>, previous: Id) returns (b: Id)
    requires among != {} && among <= pool.backends.Keys
    ensures IsPreferred(pool, among, previous, b)
  {
    b :| b in among;
    var rest := among - {b};
    while rest != {}
      invariant rest <= among && b in among && b !in rest
      invariant forall x :: x in among - rest && x != b ==> Sooner(pool, b, x)
      decreases |rest|
    {
      var c :| c in rest;
      rest := rest - {c};
      BeforeIsTotal(b, c);
      if Sooner(pool, c, b) {
        forall x | x in among - rest && x != c
          ensures Sooner(pool, c, x)
        {
          if x != b {
            SoonerIsTransitive(pool, c, b, x);
          }
        }
        b := c;
      }
    }
    assert among - rest == among;
    if previous in among && pool.backends[previous].priority == pool.backends[b].priority {
      b := previous;
    }
  }

  method Classify(pool: Pool, seen: map<Id, Observation>, now: int) returns (healthy: set<Id>, unknown: set<Id>)
    ensures healthy == WithStatus(pool, seen, now, Healthy) && unknown == WithStatus(pool, seen, now, Unknown)
  {
    hide StatusOf;
    healthy, unknown := {}, {};
    var rest := pool.backends.Keys;
    while rest != {}
      invariant rest <= pool.backends.Keys
      invariant forall b :: b in healthy <==>
        b in pool.backends && b !in rest && StatusOf(pool, pool.backends[b], seen, now) == Healthy
      invariant forall b :: b in unknown <==>
        b in pool.backends && b !in rest && StatusOf(pool, pool.backends[b], seen, now) == Unknown
      decreases |rest|
    {
      var x :| x in rest;
      rest := rest - {x};
      var status := StatusOf(pool, pool.backends[x], seen, now);
      if status == Unknown {
        unknown := unknown + {x};
      } else if status == Healthy {
        healthy := healthy + {x};
      }
    }
  }

  method ChooseBackend(pool: Pool, previous: Id, seen: map<Id, Observation>, now: int) returns (b: Id)
    requires pool.backends != map[]
    ensures b in pool.backends && IsBackend(pool, previous, seen, now, b)
  {
    hide StatusOf, IsPreferred;
    assert pool.backends.Keys != {};
    assert forall among, x :: among <= pool.backends.Keys && IsPreferred(pool, among, previous, x) ==> x in pool.backends by {
      PreferredIsKnown(pool, previous);
    }
    PreferredIsKnown(pool, "");
    if pool.health.None? {
      b := PreferredBackend(pool, pool.backends.Keys, previous);
      return;
    }
    var healthy, unknown := Classify(pool, seen, now);
    if healthy != {} {
      b := PreferredBackend(pool, healthy, previous);
    } else if unknown != {} {
      if previous in unknown {
        return previous;
      }
      b := PreferredBackend(pool, unknown, "");
    } else if previous in pool.backends {
      b := previous;
    } else {
      b := PreferredBackend(pool, pool.backends.Keys, "");
    }
  }

  /** A backend with a fresh healthy observation is never passed over for one without, nor for one of
      worse priority. */
  lemma {:induction false} HealthyIsPreferred(pool: Pool, previous: Id, seen: map<Id, Observation>, now: int, b: Id, x: Id)
    requires IsBackend(pool, previous, seen, now, b) && pool.health.Some?
    requires x in pool.backends && pool.backends[x].id in seen
    requires var o := seen[pool.backends[x].id];
             o.status == Healthy && o.version == pool.backends[x].version
             && o.at - 300 <= now <= o.at + pool.health.value.staleAfter
    ensures b in pool.backends && pool.backends[b].id in seen
    ensures var o := seen[pool.backends[b].id];
            o.status == Healthy && o.version == pool.backends[b].version
            && o.at - 300 <= now <= o.at + pool.health.value.staleAfter
    ensures pool.backends[b].priority <= pool.backends[x].priority
    ensures pool.backends[b].priority == pool.backends[x].priority ==> b == previous || b == x || Before(b, x)
  {
    assert x in WithStatus(pool, seen, now, Healthy);
  }

  /** An unhealthy one is chosen only if every backend is known to be unhealthy; without health checks the
      first by priority is. */
  lemma UnhealthyIsTheLastResort(pool: Pool, previous: Id, seen: map<Id, Observation>, now: int, b: Id, x: Id)
    requires IsBackend(pool, previous, seen, now, b) && x in pool.backends
    ensures b in pool.backends
    ensures pool.health.None? ==> pool.backends[b].priority <= pool.backends[x].priority
    ensures pool.health.Some? && pool.backends[b].id in seen ==>
      var o := seen[pool.backends[b].id];
      o.status == Unhealthy && o.version == pool.backends[b].version && o.at - 300 <= now <= o.at + pool.health.value.staleAfter ==>
        && pool.backends[x].id in seen
        && var y := seen[pool.backends[x].id];
           y.status == Unhealthy && y.version == pool.backends[x].version && y.at - 300 <= now <= y.at + pool.health.value.staleAfter
  {
    assert StatusOf(pool, pool.backends[x], seen, now) == Unknown ==> x in WithStatus(pool, seen, now, Unknown);
    assert StatusOf(pool, pool.backends[x], seen, now) == Healthy ==> x in WithStatus(pool, seen, now, Healthy);
  }

  /** The backend of before is kept among equals: against healthy ones of the same priority, and, where none is
      known to be healthy, whatever its priority, unless it is known to be unhealthy and another one is not. */
  lemma BackendIsKept(pool: Pool, previous: Id, seen: map<Id, Observation>, now: int, b: Id)
    requires IsBackend(pool, previous, seen, now, b) && previous in pool.backends
    ensures pool.health.None? && (forall x :: x in pool.backends ==> pool.backends[previous].priority <= pool.backends[x].priority)
            ==> b == previous
    ensures pool.health.Some? && (forall x :: x in pool.backends ==> StatusOf(pool, pool.backends[x], seen, now) != Healthy)
            && (StatusOf(pool, pool.backends[previous], seen, now) == Unknown ||
                forall x :: x in pool.backends ==> StatusOf(pool, pool.backends[x], seen, now) == Unhealthy)
            ==> b == previous
  {
    assert WithStatus(pool, seen, now, Healthy) != {} ==>
             exists x :: x in pool.backends && StatusOf(pool, pool.backends[x], seen, now) == Healthy;
    assert WithStatus(pool, seen, now, Unknown) != {} ==>
             exists x :: x in pool.backends && StatusOf(pool, pool.backends[x], seen, now) == Unknown;
  }
}
