/** The fabric program of one node: which addresses each link carries, and where they are routed. */
module FabricProgram {
  import opened Spec
  import NftProgram

  const MAIN_TABLE: nat := 254

  function RouteTable(routingID: nat): nat {
    47000 + routingID
  }

  function RulePriority(routingID: nat): nat {
    20000 + routingID
  }

  /** A route to a single host. */
  datatype Route = Route(destination: Address, device: string, gateway: Option<Address>, table: nat)

  datatype Rule = Rule(mark: nat, table: nat, priority: nat)

  /** `allowed` lists, for each link, the hosts its peer may send from and be sent to. */
  datatype Program = Program(active: bool, allowed: map<Id, set<Address>>, routes: set<Route>, rules: set<Rule>)

  predicate Carries(node: Id, s: NodeState, f: Forward) {
    f.mode == ViaExit && f.link in s.links && f.vip.Some?
  }

  function VipRoute(s: NodeState, f: Forward): Route
    requires f.link in s.links && f.vip.Some?
  {
    Route(f.vip.value, s.links[f.link].device, Some(s.links[f.link].peerAddress), MAIN_TABLE)
  }

  function PeerRoute(link: Link): Route {
    Route(link.peerAddress, link.device, None, RouteTable(link.routingID))
  }

  function ReplyRule(link: Link): Rule {
    Rule(NftProgram.RoutingMark(link.routingID), RouteTable(link.routingID), RulePriority(link.routingID))
  }

  /** The forwards among `ids` that leave through their link, and those that arrive through it. */
  function Outgoing(node: Id, s: NodeState, ids: set<Id>): set<Id> {
    set id | id in ids && id in s.forwards && Carries(node, s, s.forwards[id]) && s.forwards[id].ingress == node
  }

  function Arriving(node: Id, s: NodeState, ids: set<Id>): set<Id> {
    set id | id in ids && id in s.forwards && Carries(node, s, s.forwards[id]) && s.forwards[id].ingress != node
  }

  function AllowedOn(node: Id, s: NodeState, ids: set<Id>, link: Id): set<Address>
    requires link in s.links
  {
    {s.links[link].peerAddress} + set id | id in Outgoing(node, s, ids) && s.forwards[id].link == link :: s.forwards[id].vip.value
  }

  function RoutesOf(node: Id, s: NodeState, ids: set<Id>): set<Route> {
    (set id | id in Outgoing(node, s, ids) :: VipRoute(s, s.forwards[id])) +
    (set id | id in Arriving(node, s, ids) :: PeerRoute(s.links[s.forwards[id].link]))
  }

  function RulesOf(node: Id, s: NodeState, ids: set<Id>): set<Rule> {
    set id | id in Arriving(node, s, ids) :: ReplyRule(s.links[s.forwards[id].link])
  }

  function ProgramOf(node: Id, s: NodeState, ids: set<Id>): Program {
    Program(s.links != map[], map l | l in s.links :: AllowedOn(node, s, ids, l), RoutesOf(node, s, ids), RulesOf(node, s, ids))
  }

  /** Compile: links first, then the routes and rules each forward needs. */
  method Compile(node: Id, s: NodeState) returns (r: Option<Program>)
    ensures r.Some? <==> ValidNode(node, s)
    ensures r.Some? ==> r.value == ProgramOf(node, s, s.forwards.Keys)
  {
    hide ValidNode, ProgramOf;
    if !ValidNode(node, s) {
      return None;
    }
    var allowed := map l | l in s.links :: {s.links[l].peerAddress};
    var p := Program(s.links != map[], allowed, {}, {});
    NoForwards(node, s);
    var ids := s.forwards.Keys;
    while ids != {}
      invariant ids <= s.forwards.Keys
      invariant p == ProgramOf(node, s, s.forwards.Keys - ids)
      decreases |ids|
    {
      var id :| id in ids;
      var f := s.forwards[id];
      LinkKnown(node, s, id);
      OneForward(node, s, s.forwards.Keys - ids, id);
      assert s.forwards.Keys - (ids - {id}) == s.forwards.Keys - ids + {id};
      ids := ids - {id};
      p := AddForward(p, node, s, f);
    }
    assert s.forwards.Keys - ids == s.forwards.Keys;
    return Some(p);
  }

  function AddForward(p: Program, node: Id, s: NodeState, f: Forward): Program {
    if !Carries(node, s, f) then p
    else if f.ingress == node then
      p.(allowed := if f.link in p.allowed then p.allowed[f.link := p.allowed[f.link] + {f.vip.value}] else p.allowed,
         routes := p.routes + {VipRoute(s, f)})
    else
      p.(routes := p.routes + {PeerRoute(s.links[f.link])}, rules := p.rules + {ReplyRule(s.links[f.link])})
  }

  /** On the ingress of a tunnel the way to the VIP leads over the link; on its exit the way back to the ingress
      has a table of its own, which the mark of its replies selects. */
  predicate RoutedBy(node: Id, s: NodeState, f: Forward, r: Route) {
    f.mode == ViaExit && f.link in s.links && f.vip.Some? &&
    var l := s.links[f.link];
    if f.ingress == node then r == Route(f.vip.value, l.device, Some(l.peerAddress), 254)
    else r == Route(l.peerAddress, l.device, None, 47000 + l.routingID)
  }

  predicate SelectedBy(node: Id, s: NodeState, f: Forward, r: Rule) {
    f.mode == ViaExit && f.ingress != node && f.link in s.links && f.vip.Some? &&
    var id := s.links[f.link].routingID;
    r == Rule(0x4700_0000 + id, 47000 + id, 20000 + id)
  }

  /** The program, entry by entry: no route, rule or allowed address without a tunnel, and none missing. */
  lemma EntriesMean(node: Id, s: NodeState, r: Route, rule: Rule, l: Id, a: Address)
    ensures var p := ProgramOf(node, s, s.forwards.Keys);
            && (r in p.routes <==> exists id :: id in s.forwards && RoutedBy(node, s, s.forwards[id], r))
            && (rule in p.rules <==> exists id :: id in s.forwards && SelectedBy(node, s, s.forwards[id], rule))
            && (l in p.allowed <==> l in s.links)
            && (l in s.links ==>
                  (a in p.allowed[l] <==> a == s.links[l].peerAddress || exists id :: id in s.forwards && Reached(node, s.forwards[id], l, a)))
  {
    forall id | id in s.forwards
      ensures RoutedBy(node, s, s.forwards[id], r) ==> r in RoutesOf(node, s, s.forwards.Keys)
      ensures SelectedBy(node, s, s.forwards[id], rule) ==> rule in RulesOf(node, s, s.forwards.Keys)
    {
      assert id in Outgoing(node, s, s.forwards.Keys) <==> Carries(node, s, s.forwards[id]) && s.forwards[id].ingress == node;
      assert id in Arriving(node, s, s.forwards.Keys) <==> Carries(node, s, s.forwards[id]) && s.forwards[id].ingress != node;
    }
  }

  /** The node reaches the address as a VIP over the link. */
  predicate Reached(node: Id, f: Forward, l: Id, a: Address) {
    f.mode == ViaExit && f.ingress == node && f.link == l && f.vip == Some(a)
  }

  lemma NoForwards(node: Id, s: NodeState)
    ensures ProgramOf(node, s, s.forwards.Keys - s.forwards.Keys) ==
            Program(s.links != map[], map l | l in s.links :: {s.links[l].peerAddress}, {}, {})
  {
    assert s.forwards.Keys - s.forwards.Keys == {};
    assert Outgoing(node, s, {}) == {} && Arriving(node, s, {}) == {};
    assert RoutesOf(node, s, {}) == {} && RulesOf(node, s, {}) == {};
    assert forall l :: l in s.links ==> AllowedOn(node, s, {}, l) == {s.links[l].peerAddress};
  }

  lemma LinkKnown(node: Id, s: NodeState, id: Id)
    requires ValidNode(node, s) && id in s.forwards
    ensures s.forwards[id].mode == ViaExit <==> Carries(node, s, s.forwards[id])
  {
    assert ValidForward(node, s, s.forwards[id]);
  }

  lemma OneForward(node: Id, s: NodeState, done: set<Id>, id: Id)
    requires id in s.forwards
    ensures ProgramOf(node, s, done + {id}) == AddForward(ProgramOf(node, s, done), node, s, s.forwards[id])
  {
    hide AllowedOn, RoutesOf, RulesOf, VipRoute, PeerRoute, ReplyRule;
    OneMoreRoutes(node, s, done, id);
    forall l | l in s.links
      ensures AllowedOn(node, s, done + {id}, l) == AllowedOn(node, s, done, l) + NewAllowed(node, s, s.forwards[id], l)
    {
      OneMoreAllowed(node, s, done, id, l);
    }
    SameAllowed(node, s, done, id);
  }

  function NewAllowed(node: Id, s: NodeState, f: Forward, l: Id): set<Address> {
    if Carries(node, s, f) && f.ingress == node && f.link == l then {f.vip.value} else {}
  }

  lemma SameAllowed(node: Id, s: NodeState, done: set<Id>, id: Id)
    requires id in s.forwards
    requires forall l :: l in s.links ==>
      AllowedOn(node, s, done + {id}, l) == AllowedOn(node, s, done, l) + NewAllowed(node, s, s.forwards[id], l)
    ensures ProgramOf(node, s, done + {id}).allowed == AddForward(ProgramOf(node, s, done), node, s, s.forwards[id]).allowed
  {
    hide AllowedOn, RoutesOf, RulesOf;
    var p, q := AddForward(ProgramOf(node, s, done), node, s, s.forwards[id]).allowed, ProgramOf(node, s, done + {id}).allowed;
    assert p.Keys == s.links.Keys == q.Keys;
    forall l | l in s.links
      ensures p[l] == q[l]
    {
    }
  }

  lemma OneMoreRoutes(node: Id, s: NodeState, done: set<Id>, id: Id)
    requires id in s.forwards
    ensures var f := s.forwards[id];
            && RoutesOf(node, s, done + {id}) == RoutesOf(node, s, done) +
                 (if !Carries(node, s, f) then {} else if f.ingress == node then {VipRoute(s, f)} else {PeerRoute(s.links[f.link])})
            && RulesOf(node, s, done + {id}) == RulesOf(node, s, done) +
                 if Carries(node, s, f) && f.ingress != node then {ReplyRule(s.links[f.link])} else {}
  {
    hide VipRoute, PeerRoute, ReplyRule;
    OneMore(node, s, done, id);
  }

  lemma OneMore(node: Id, s: NodeState, done: set<Id>, id: Id)
    requires id in s.forwards
    ensures Outgoing(node, s, done + {id}) ==
            Outgoing(node, s, done) + if Carries(node, s, s.forwards[id]) && s.forwards[id].ingress == node then {id} else {}
    ensures Arriving(node, s, done + {id}) ==
            Arriving(node, s, done) + if Carries(node, s, s.forwards[id]) && s.forwards[id].ingress != node then {id} else {}
  {
  }

  lemma OneMoreAllowed(node: Id, s: NodeState, done: set<Id>, id: Id, l: Id)
    requires id in s.forwards && l in s.links
    ensures var f := s.forwards[id];
            AllowedOn(node, s, done + {id}, l) ==
            AllowedOn(node, s, done, l) + if Carries(node, s, f) && f.ingress == node && f.link == l then {f.vip.value} else {}
  {
    OneMore(node, s, done, id);
  }

  /** Distinct routing identifiers, distinct marks, tables and priorities; and no routing mark is
      ever a traffic mark. */
  lemma MarksApart(a: nat, b: nat, classID: nat)
    requires a < 0x1_0000 && b < 0x1_0000 && classID < 0x1_0000 && a != b
    ensures NftProgram.RoutingMark(a) != NftProgram.RoutingMark(b)
    ensures RouteTable(a) != RouteTable(b) && RulePriority(a) != RulePriority(b) && RouteTable(a) != MAIN_TABLE
    ensures NftProgram.RoutingMark(a) != NftProgram.TrafficMark(classID)
    ensures NftProgram.RoutingMark(a) / 0x1_0000 == 0x4700 && NftProgram.TrafficMark(classID) / 0x1_0000 == 0x4600
  {
  }
}
