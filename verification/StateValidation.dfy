/** Desired states as they are stored and sent, with lists: their canonical form, and validation by
    owner tables that are filled on the way. */
module StateValidation {
  import opened Spec
  import opened Ordering
  import opened StateLists

  /** `cidrs` stays a set: prefixes carry no identifier. */
  datatype Listed = Listed(
    schema: nat, domain: string, cidrs: set<Prefix>, links: seq<Link>, checks: seq<Check>, policies: seq<Policy>,
    blocks: set<Block>, forwards: seq<Forward>)

  function LinkKey(): Link -> Id {
    (l: Link) => l.id
  }

  function PolicyKey(): Policy -> Id {
    (p: Policy) => p.user
  }

  function CheckKey(): Check -> (Id, Id) {
    (c: Check) => (c.pool, c.backend)
  }

  /** What a stored state stands for. */
  function ToState(l: Listed): NodeState {
    NodeState(l.schema, l.domain, l.cidrs, Mapped(l.links, LinkKey()), Mapped(l.checks, CheckKey()),
              Mapped(l.policies, PolicyKey()), l.blocks, Mapped(l.forwards, ForwardKey()))
  }

  predicate WellKeyed(l: Listed) {
    && DistinctKeys(l.links, LinkKey()) && DistinctKeys(l.checks, CheckKey())
    && DistinctKeys(l.policies, PolicyKey()) && DistinctKeys(l.forwards, ForwardKey())
  }

  function ByPair(): ((Id, Id), (Id, Id)) -> bool {
    (a: (Id, Id), b: (Id, Id)) => if a.0 == b.0 then Before(a.1, b.1) else Before(a.0, b.0)
  }

  lemma PairsAreOrdered()
    ensures StrictTotal(ByPair())
  {
    forall a: (Id, Id), b: (Id, Id)
      ensures ByPair()(a, b) ==> !ByPair()(b, a)
      ensures a == b || ByPair()(a, b) || ByPair()(b, a)
    {
      BeforeIsStrict(a.0, b.0);
      BeforeIsTotal(a.0, b.0);
      BeforeIsStrict(a.1, b.1);
      BeforeIsTotal(a.1, b.1);
    }
    forall a: (Id, Id), b: (Id, Id), c: (Id, Id) | ByPair()(a, b) && ByPair()(b, c)
      ensures ByPair()(a, c)
    {
      BeforeIsStrict(a.0, b.0);
      if Before(a.0, b.0) && Before(b.0, c.0) {
        BeforeIsTransitive(a.0, b.0, c.0);
        BeforeIsStrict(a.0, c.0);
      }
      if Before(a.1, b.1) && Before(b.1, c.1) {
        BeforeIsTransitive(a.1, b.1, c.1);
      }
    }
  }

  // ---------------------------------------------------------------- the canonical form

  predicate IsCanonical(l: Listed) {
    && SortedByKey(l.links, LinkKey(), ById()) && SortedByKey(l.checks, CheckKey(), ByPair())
    && SortedByKey(l.policies, PolicyKey(), ById()) && SortedByKey(l.forwards, ForwardKey(), ById())
  }

  /** Links and forwards by identifier, policies by user, checks by pool and, within a pool, by backend. */
  predicate Arranged(l: Listed) {
    && (forall i, j :: 0 <= i < j < |l.links| ==> Before(l.links[i].id, l.links[j].id))
    && (forall i, j :: 0 <= i < j < |l.policies| ==> Before(l.policies[i].user, l.policies[j].user))
    && (forall i, j :: 0 <= i < j < |l.forwards| ==> Before(l.forwards[i].id, l.forwards[j].id))
    && forall i, j :: 0 <= i < j < |l.checks| ==>
         Before(l.checks[i].pool, l.checks[j].pool) ||
         (l.checks[i].pool == l.checks[j].pool && Before(l.checks[i].backend, l.checks[j].backend))
  }

  /** No identifier, no user and no pair of pool and backend occurs twice. */
  predicate KeysDiffer(l: Listed) {
    && (forall i, j :: 0 <= i < j < |l.links| ==> l.links[i].id != l.links[j].id)
    && (forall i, j :: 0 <= i < j < |l.policies| ==> l.policies[i].user != l.policies[j].user)
    && (forall i, j :: 0 <= i < j < |l.forwards| ==> l.forwards[i].id != l.forwards[j].id)
    && forall i, j :: 0 <= i < j < |l.checks| ==>
         l.checks[i].pool != l.checks[j].pool || l.checks[i].backend != l.checks[j].backend
  }

  lemma KeyedMeans(l: Listed)
    ensures WellKeyed(l) <==> KeysDiffer(l)
  {
  }

  /** Canonical: the lists sorted by their keys. */
  method Canonical(l: Listed) returns (c: Listed)
    requires WellKeyed(l)
    ensures IsCanonical(c) && ToState(c) == ToState(l)
    ensures Arranged(c)
  {
    hide Mapped;
    ByIdIsStrictTotal();
    PairsAreOrdered();
    var links := SortByKey(l.links, LinkKey(), ById());
    var checks := SortByKey(l.checks, CheckKey(), ByPair());
    var policies := SortByKey(l.policies, PolicyKey(), ById());
    var forwards := SortByKey(l.forwards, ForwardKey(), ById());
    c := l.(links := links, checks := checks, policies := policies, forwards := forwards);
  }

  /** Two states have the same canonical form, and so the same checksum, exactly when they stand for
      the same state: no order of the lists and no traversal order of a map shows. */
  lemma CanonicalIgnoresOrder(a: Listed, b: Listed)
    requires IsCanonical(a) && IsCanonical(b)
    ensures a == b <==> ToState(a) == ToState(b)
  {
    hide Mapped, SortedByKey;
    if ToState(a) == ToState(b) {
      ByIdIsStrictTotal();
      PairsAreOrdered();
      CanonicalIsUnique(a.links, b.links, LinkKey(), ById());
      CanonicalIsUnique(a.checks, b.checks, CheckKey(), ByPair());
      CanonicalIsUnique(a.policies, b.policies, PolicyKey(), ById());
      CanonicalIsUnique(a.forwards, b.forwards, ForwardKey(), ById());
    }
  }

  // ---------------------------------------------------------------- validation

  /** The links of a list, each valid by itself and none in the way of another one. */
  predicate LinksOk(node: Id, s: NodeState, links: seq<Link>) {
    && (forall i :: 0 <= i < |links| ==> ValidLink(node, s, links[i]))
    && (forall i, j :: 0 <= i < j < |links| ==> links[i].id != links[j].id && LinksApart(links[i], links[j]))
  }

  predicate ChecksOk(s: NodeState, checks: seq<Check>) {
    forall i :: 0 <= i < |checks| ==> !InServiceRange(s, checks[i].endpoint.address)
  }

  /** Classes of policies: 0 means none. */
  predicate ClassesDistinct(policies: seq<Policy>) {
    forall i, j :: 0 <= i < j < |policies| && policies[i].classID != 0 ==> policies[i].classID != policies[j].classID
  }

  function Classes(policies: seq<Policy>): set<nat> {
    set p | p in policies && p.classID != 0 :: p.classID
  }

  /** The forwards of a list, each valid by itself and none in the way of another one. */
  predicate ForwardsOk(node: Id, s: NodeState, classes: set<nat>, forwards: seq<Forward>) {
    && (forall i :: 0 <= i < |forwards| ==> ValidForward(node, s, forwards[i]) && forwards[i].classID !in classes)
    && (forall i, j :: 0 <= i < j < |forwards| ==> forwards[i].id != forwards[j].id && Disjoint(node, forwards[i], forwards[j]))
  }

  method CheckKeys<K(==), T>(xs: seq<T>, key: T -> K) returns (ok: bool)
    ensures ok <==> DistinctKeys(xs, key)
  {
    var seen: set<K> := {};
    ok := true;
    for i := 0 to |xs|
      invariant forall j :: 0 <= j < i ==> key(xs[j]) in seen
      invariant forall k :: k in seen ==> exists j :: 0 <= j < i && key(xs[j]) == k
      invariant ok <==> DistinctKeys(xs[..i], key)
    {
      OneMoreKey(xs, key, i);
      if key(xs[i]) in seen {
        ok := false;
      }
      seen := seen + {key(xs[i])};
    }
    assert xs[..|xs|] == xs;
  }

  lemma OneMoreKey<K, T>(xs: seq<T>, key: T -> K, i: nat)
    requires i < |xs|
    ensures DistinctKeys(xs[..i + 1], key) <==> DistinctKeys(xs[..i], key) && forall j :: 0 <= j < i ==> key(xs[j]) != key(xs[i])
  {
    var more := xs[..i + 1];
    assert forall j :: 0 <= j < i ==> more[j] == xs[..i][j] == xs[j];
    assert more[i] == xs[i];
  }

  /** What the links seen so far occupy; of an address the transport and the interface it is on. */
  datatype LinkOwners = LinkOwners(
    ids: set<Id>, routing: set<nat>, devices: map<string, Transport>, locals: map<Address, (Transport, string)>)

  predicate LinkFree(o: LinkOwners, l: Link) {
    && l.id !in o.ids && l.routingID !in o.routing
    && (l.device in o.devices ==> o.devices[l.device] == l.transport == DirectL3)
    && (l.local.address in o.locals ==> o.locals[l.local.address] == (DirectL3, l.device) && l.transport == DirectL3)
  }

  function LinkTaken(o: LinkOwners, l: Link): LinkOwners {
    LinkOwners(o.ids + {l.id}, o.routing + {l.routingID}, o.devices[l.device := l.transport],
               o.locals[l.local.address := (l.transport, l.device)])
  }

  predicate Entered(o: LinkOwners, l: Link) {
    && l.id in o.ids && l.routingID in o.routing
    && l.device in o.devices && o.devices[l.device] == l.transport
    && l.local.address in o.locals && o.locals[l.local.address] == (l.transport, l.device)
  }

  predicate Owned(o: LinkOwners, links: seq<Link>) {
    && (forall id :: id in o.ids ==> exists l :: l in links && l.id == id)
    && (forall r :: r in o.routing ==> exists l :: l in links && l.routingID == r)
    && (forall d :: d in o.devices ==> exists l :: l in links && l.device == d)
    && (forall a :: a in o.locals ==> exists l :: l in links && l.local.address == a)
  }

  /** The tables after links that do not conflict: each owner is any one of them. */
  predicate Describes(o: LinkOwners, links: seq<Link>) {
    (forall l :: l in links ==> Entered(o, l)) && Owned(o, links)
  }

  method CheckLinks(node: Id, s: NodeState, links: seq<Link>) returns (ok: bool)
    ensures ok <==> LinksOk(node, s, links)
  {
    hide ValidLink, LinksOk, LinksApart, Describes, Entered, Owned, LinkFree, LinkTaken;
    ok := true;
    var o := LinkOwners({}, {}, map[], map[]);
    NoLinks(node, s);
    for i := 0 to |links|
      invariant ok <==> LinksOk(node, s, links[..i])
      invariant ok ==> Describes(o, links[..i])
    {
      var l := links[i];
      assert links[..i + 1] == links[..i] + [l];
      OneMoreLink(node, s, links[..i], l);
      if ok {
        FreeIsApart(o, links[..i], l);
      }
      if !ValidLink(node, s, l) || !LinkFree(o, l) {
        ok := false;
      }
      o := LinkTaken(o, l);
    }
    assert links[..|links|] == links;
  }

  lemma NoLinks(node: Id, s: NodeState)
    ensures LinksOk(node, s, []) && Describes(LinkOwners({}, {}, map[], map[]), [])
  {
  }

  lemma OneMoreLink(node: Id, s: NodeState, before: seq<Link>, l: Link)
    ensures LinksOk(node, s, before + [l]) <==>
            LinksOk(node, s, before) && ValidLink(node, s, l) && forall m :: m in before ==> m.id != l.id && LinksApart(m, l)
  {
    hide ValidLink, LinksApart;
    var xs := before + [l];
    assert forall i :: 0 <= i < |before| ==> xs[i] == before[i];
    assert xs[|before|] == l;
    if LinksOk(node, s, xs) {
      forall m | m in before
        ensures m.id != l.id && LinksApart(m, l)
      {
        var i :| 0 <= i < |before| && before[i] == m;
        assert xs[i] == m && xs[|before|] == l;
      }
    }
  }

  /** The tables decide whether the next link is in the way of any earlier one. */
  lemma FreeIsApart(o: LinkOwners, before: seq<Link>, l: Link)
    requires Describes(o, before)
    ensures LinkFree(o, l) <==> forall m :: m in before ==> m.id != l.id && LinksApart(m, l)
    ensures LinkFree(o, l) ==> Describes(LinkTaken(o, l), before + [l])
  {
    hide Entered, Owned, LinkFree, LinkTaken, LinksApart;
    forall m | m in before && LinkFree(o, l)
      ensures m.id != l.id && LinksApart(m, l)
      ensures Entered(LinkTaken(o, l), m)
    {
      EnteredIsApart(o, m, l);
    }
    if forall m :: m in before ==> m.id != l.id && LinksApart(m, l) {
      ApartIsFree(o, before, l);
    }
    if LinkFree(o, l) {
      TakenIsOwned(o, before, l);
    }
  }

  lemma EnteredIsApart(o: LinkOwners, m: Link, l: Link)
    requires Entered(o, m) && LinkFree(o, l)
    ensures m.id != l.id && LinksApart(m, l) && Entered(LinkTaken(o, l), m)
  {
  }

  lemma ApartIsFree(o: LinkOwners, before: seq<Link>, l: Link)
    requires Describes(o, before) && forall m :: m in before ==> m.id != l.id && LinksApart(m, l)
    ensures LinkFree(o, l)
  {
    hide Entered, LinksApart;
    forall m | m in before
      ensures l.routingID != m.routingID
      ensures l.device == m.device ==> l.device in o.devices && o.devices[l.device] == l.transport == DirectL3
      ensures l.local.address == m.local.address ==>
        l.local.address in o.locals && o.locals[l.local.address] == (DirectL3, l.device) && l.transport == DirectL3
    {
      SharedIsTrusted(o, m, l);
    }
  }

  lemma SharedIsTrusted(o: LinkOwners, m: Link, l: Link)
    requires Entered(o, m) && LinksApart(m, l)
    ensures l.routingID != m.routingID
    ensures l.device == m.device ==> l.device in o.devices && o.devices[l.device] == l.transport == DirectL3
    ensures l.local.address == m.local.address ==>
      l.local.address in o.locals && o.locals[l.local.address] == (DirectL3, l.device) && l.transport == DirectL3
  {
  }

  lemma TakenIsOwned(o: LinkOwners, before: seq<Link>, l: Link)
    requires Owned(o, before)
    ensures Owned(LinkTaken(o, l), before + [l]) && Entered(LinkTaken(o, l), l)
  {
    assert forall m :: m in before ==> m in before + [l];
    assert l in before + [l];
  }

  method CheckHealthChecks(s: NodeState, checks: seq<Check>) returns (ok: bool)
    ensures ok <==> DistinctKeys(checks, CheckKey()) && ChecksOk(s, checks)
  {
    hide InServiceRange;
    ok := CheckKeys(checks, CheckKey());
    ghost var distinct := ok;
    for i := 0 to |checks|
      invariant ok <==> distinct && forall j :: 0 <= j < i ==> !InServiceRange(s, checks[j].endpoint.address)
    {
      if InServiceRange(s, checks[i].endpoint.address) {
        ok := false;
      }
    }
  }

  method CheckPolicies(policies: seq<Policy>) returns (ok: bool, classes: set<nat>)
    ensures ok <==> DistinctKeys(policies, PolicyKey()) && ClassesDistinct(policies)
    ensures classes == Classes(policies)
  {
    ok := CheckKeys(policies, PolicyKey());
    ghost var distinct := ok;
    classes := {};
    for i := 0 to |policies|
      invariant forall c :: c in classes <==> exists j :: 0 <= j < i && policies[j].classID == c && c != 0
      invariant ok <==> distinct && forall j, k :: 0 <= j < k < i && policies[j].classID != 0 ==> policies[j].classID != policies[k].classID
    {
      var c := policies[i].classID;
      if c != 0 {
        if c in classes {
          ok := false;
        } else {
          classes := classes + {c};
        }
      }
    }
  }

  /** What the forwards seen so far occupy. */
  datatype Owners = Owners(ids: set<Id>, classes: set<nat>, keys: set<Key>, vips: set<Address>)

  function OwnersOf(node: Id, classes: set<nat>, forwards: seq<Forward>): Owners {
    Owners(set f | f in forwards :: f.id,
           classes + set f | f in forwards && f.classID != 0 :: f.classID,
           set f, k | f in forwards && k in KeysOf(node, f) :: k,
           set f | f in forwards && f.mode == ViaExit && f.vip.Some? :: f.vip.value)
  }

  /** The forward collides with none of the owners. */
  predicate Free(node: Id, o: Owners, f: Forward) {
    && f.id !in o.ids && (f.classID != 0 ==> f.classID !in o.classes) && KeysOf(node, f) !! o.keys
    && (f.mode == ViaExit && f.vip.Some? ==> f.vip.value !in o.vips)
  }

  method CheckForwards(node: Id, s: NodeState, classes: set<nat>, forwards: seq<Forward>) returns (ok: bool)
    requires 0 !in classes
    ensures ok <==> ForwardsOk(node, s, classes, forwards)
  {
    hide ValidForward, Disjoint, KeysOf, Free, OwnersOf;
    ok := true;
    var o := Owners({}, classes, {}, {});
    NothingOwned(node, classes);
    for i := 0 to |forwards|
      invariant o == OwnersOf(node, classes, forwards[..i])
      invariant ok <==> ForwardsOk(node, s, classes, forwards[..i])
    {
      var f := forwards[i];
      assert forwards[..i + 1] == forwards[..i] + [f];
      OneMoreForward(node, s, classes, forwards[..i], f);
      if !ValidForward(node, s, f) || !Free(node, o, f) {
        ok := false;
      }
      o := Taken(node, o, f);
    }
    assert forwards[..|forwards|] == forwards;
  }

  function Taken(node: Id, o: Owners, f: Forward): Owners {
    Owners(o.ids + {f.id}, if f.classID != 0 then o.classes + {f.classID} else o.classes, o.keys + KeysOf(node, f),
           if f.mode == ViaExit && f.vip.Some? then o.vips + {f.vip.value} else o.vips)
  }

  lemma NothingOwned(node: Id, classes: set<nat>)
    ensures OwnersOf(node, classes, []) == Owners({}, classes, {}, {})
  {
  }

  lemma OneMoreForward(node: Id, s: NodeState, classes: set<nat>, before: seq<Forward>, f: Forward)
    requires 0 !in classes
    ensures OwnersOf(node, classes, before + [f]) == Taken(node, OwnersOf(node, classes, before), f)
    ensures ForwardsOk(node, s, classes, before + [f]) <==>
            ForwardsOk(node, s, classes, before) && ValidForward(node, s, f) && Free(node, OwnersOf(node, classes, before), f)
  {
    OwnersGrow(node, classes, before, f);
    if ForwardsOk(node, s, classes, before) && ValidForward(node, s, f) {
      FreeIsDisjoint(node, s, classes, before, f);
    }
    PrefixOk(node, s, classes, before, f);
  }

  lemma OwnersGrow(node: Id, classes: set<nat>, before: seq<Forward>, f: Forward)
    ensures OwnersOf(node, classes, before + [f]) == Taken(node, OwnersOf(node, classes, before), f)
  {
    hide KeysOf;
    var a, b := OwnersOf(node, classes, before + [f]), Taken(node, OwnersOf(node, classes, before), f);
    assert forall g :: g in before + [f] <==> g in before || g == f;
    assert a.ids == b.ids && a.classes == b.classes && a.keys == b.keys && a.vips == b.vips;
  }

  lemma PrefixOk(node: Id, s: NodeState, classes: set<nat>, before: seq<Forward>, f: Forward)
    ensures ForwardsOk(node, s, classes, before + [f]) <==>
            ForwardsOk(node, s, classes, before) && ValidForward(node, s, f) && f.classID !in classes
            && forall g :: g in before ==> g.id != f.id && Disjoint(node, g, f)
  {
    hide ValidForward, Disjoint;
    var xs := before + [f];
    assert forall i :: 0 <= i < |before| ==> xs[i] == before[i];
    assert xs[|before|] == f;
    if ForwardsOk(node, s, classes, xs) {
      forall g | g in before
        ensures g.id != f.id && Disjoint(node, g, f)
      {
        var i :| 0 <= i < |before| && before[i] == g;
        assert xs[i] == g && xs[|before|] == f;
      }
    }
  }

  lemma FreeIsDisjoint(node: Id, s: NodeState, classes: set<nat>, before: seq<Forward>, f: Forward)
    requires ForwardsOk(node, s, classes, before) && ValidForward(node, s, f) && 0 !in classes
    ensures Free(node, OwnersOf(node, classes, before), f) <==>
            f.classID !in classes && forall g :: g in before ==> g.id != f.id && Disjoint(node, g, f)
  {
    hide KeysOf, InServiceRange;
    var o := OwnersOf(node, classes, before);
    forall g | g in before
      ensures ValidForward(node, s, g)
    {
    }
    if Free(node, o, f) {
      forall g | g in before
        ensures Disjoint(node, g, f)
      {
        assert KeysOf(node, g) <= o.keys;
      }
    }
    if f.classID !in classes && forall g :: g in before ==> g.id != f.id && Disjoint(node, g, f) {
      forall k | k in KeysOf(node, f)
        ensures k !in o.keys
      {
      }
    }
  }

  /** The address lies in none of the service ranges. */
  predicate Clear(s: NodeState, a: Address) {
    forall p :: p in s.cidrs ==> a < Base(p) || Base(p) + Size(p.bits) <= a
  }

  predicate ForwardMeans(node: Id, s: NodeState, f: Forward) {
    && f.protocols != {} && Clear(s, f.listen.address) && Clear(s, f.target.address)
    && (f.snat.Static? ==> Clear(s, f.snat.address))
    && match f.mode
       case Direct => f.ingress == node && f.exit == "" && f.vip == None && f.link == ""
       case ViaExit =>
         && s.schema >= 3 && f.exit != "" && f.exit != f.ingress && (node == f.ingress || node == f.exit)
         && f.vip.Some? && !Clear(s, f.vip.value)
         && f.link != "" && f.link in s.links && s.links[f.link].peer == (if node == f.ingress then f.exit else f.ingress)
  }

  /** Where the node picks the forward's traffic up. */
  predicate PicksUp(node: Id, f: Forward, a: Address, port: Port, proto: Protocol) {
    && proto in f.protocols
    && if f.mode == ViaExit && node == f.exit && f.vip.Some? then a == f.vip.value && port == f.target.port
       else a == f.listen.address && port == f.listen.port
  }

  /** Two forwards never pick up the same packet, nor share a service VIP or a traffic class. */
  ghost predicate PairMeans(node: Id, f: Forward, g: Forward) {
    && (forall a, port, proto :: !(PicksUp(node, f, a, port, proto) && PicksUp(node, g, a, port, proto)))
    && (f.mode == ViaExit && g.mode == ViaExit ==> f.vip != g.vip)
    && (f.classID != 0 ==> f.classID != g.classID)
  }

  predicate LinkMeans(node: Id, s: NodeState, l: Link) {
    && l.peer != node && l.peerAddress != l.local.address
    && Base(l.local) <= l.peerAddress < Base(l.local) + Size(l.local.bits)
    && Clear(s, l.peerAddress)
    && forall p :: p in s.cidrs ==>
         Base(p) + Size(p.bits) <= Base(l.local) || Base(l.local) + Size(l.local.bits) <= Base(p)
  }

  predicate LinkPairMeans(l: Link, m: Link) {
    && l.routingID != m.routingID
    && (l.device == m.device || l.local.address == m.local.address ==>
          l.transport == DirectL3 && m.transport == DirectL3 && l.device == m.device)
  }

  /** What an accepted state is, condition by condition. */
  ghost predicate ValidMeans(node: Id, s: NodeState) {
    && (forall id :: id in s.forwards ==> ForwardMeans(node, s, s.forwards[id]))
    && (forall i, j :: i in s.forwards && j in s.forwards && i != j ==> PairMeans(node, s.forwards[i], s.forwards[j]))
    && (forall i, j :: i in s.policies && j in s.policies && i != j && s.policies[i].classID != 0 ==>
          s.policies[i].classID != s.policies[j].classID)
    && (forall i, j :: i in s.policies && j in s.forwards && s.policies[i].classID != 0 ==>
          s.policies[i].classID != s.forwards[j].classID)
    && (forall l :: l in s.links ==> LinkMeans(node, s, s.links[l]))
    && (forall l, m :: l in s.links && m in s.links && l != m ==> LinkPairMeans(s.links[l], s.links[m]))
    && (forall k :: k in s.checks ==> Clear(s, s.checks[k].endpoint.address))
  }

  lemma ClearExactly(s: NodeState, a: Address)
    ensures Clear(s, a) <==> !InServiceRange(s, a)
  {
    hide Base, Size;
  }

  lemma ForwardExactly(node: Id, s: NodeState, f: Forward)
    ensures ForwardMeans(node, s, f) <==> ValidForward(node, s, f)
  {
    hide Clear, InServiceRange;
    ClearExactly(s, f.listen.address);
    ClearExactly(s, f.target.address);
    if f.snat.Static? {
      ClearExactly(s, f.snat.address);
    }
    if f.vip.Some? {
      ClearExactly(s, f.vip.value);
    }
  }

  lemma PairExactly(node: Id, f: Forward, g: Forward)
    ensures PairMeans(node, f, g) <==> Disjoint(node, f, g)
  {
    forall a, port, proto
      ensures PicksUp(node, f, a, port, proto) <==> Key(Endpoint(a, port), proto) in KeysOf(node, f)
      ensures PicksUp(node, g, a, port, proto) <==> Key(Endpoint(a, port), proto) in KeysOf(node, g)
    {
    }
    if PairMeans(node, f, g) {
      forall k | k in KeysOf(node, f)
        ensures k !in KeysOf(node, g)
      {
        assert k == Key(Endpoint(k.endpoint.address, k.endpoint.port), k.protocol);
        assert PicksUp(node, f, k.endpoint.address, k.endpoint.port, k.protocol);
      }
    }
  }

  lemma LinkExactly(node: Id, s: NodeState, l: Link)
    ensures LinkMeans(node, s, l) <==> ValidLink(node, s, l)
  {
    hide Base, Size, Clear, InServiceRange;
    ClearExactly(s, l.peerAddress);
    forall p | p in s.cidrs
      ensures Overlap(l.local, p) <==> !(Base(p) + Size(p.bits) <= Base(l.local) || Base(l.local) + Size(l.local.bits) <= Base(p))
    {
      BlocksOverlap(l.local, p);
    }
  }

  /** Of two blocks that meet, one holds the other's first address. */
  lemma BlocksOverlap(p: Prefix, q: Prefix)
    ensures Overlap(p, q) <==> Base(p) < Base(q) + Size(q.bits) && Base(q) < Base(p) + Size(p.bits)
  {
    hide Base, Size;
  }

  /** Validation, condition by condition and on the addresses themselves. */
  lemma ValidExactly(node: Id, s: NodeState)
    ensures ValidNode(node, s) <==> ValidMeans(node, s)
  {
    hide ForwardMeans, ValidForward, PairMeans, Disjoint, LinkMeans, ValidLink, Clear, InServiceRange;
    forall f
      ensures ForwardMeans(node, s, f) <==> ValidForward(node, s, f)
    {
      ForwardExactly(node, s, f);
    }
    forall f, g
      ensures PairMeans(node, f, g) <==> Disjoint(node, f, g)
    {
      PairExactly(node, f, g);
    }
    forall l
      ensures LinkMeans(node, s, l) <==> ValidLink(node, s, l)
    {
      LinkExactly(node, s, l);
    }
    forall l, m
      ensures LinkPairMeans(l, m) <==> LinksApart(l, m)
    {
    }
    forall a
      ensures Clear(s, a) <==> !InServiceRange(s, a)
    {
      ClearExactly(s, a);
    }
  }

  /** Validate: accepts exactly the lists with distinct keys that stand for a valid state. */
  method Validate(node: Id, l: Listed) returns (ok: bool)
    ensures ok <==> WellKeyed(l) && ValidNode(node, ToState(l))
    ensures ok <==> KeysDiffer(l) && ValidMeans(node, ToState(l))
  {
    KeyedMeans(l);
    hide KeysDiffer, WellKeyed;
    hide Mapped, ValidForward, Disjoint, DistinctKeys, ForwardsOk, LinksOk, ChecksOk, ValidNode, ValidMeans;
    var s := ToState(l);
    ValidExactly(node, s);
    var links := CheckLinks(node, s, l.links);
    var checks := CheckHealthChecks(s, l.checks);
    var policies, classes := CheckPolicies(l.policies);
    NoZero(l.policies);
    var forwards := CheckForwards(node, s, classes, l.forwards);
    ok := links && checks && policies && forwards;
    ListsAndMaps(node, l);
  }

  lemma NoZero(policies: seq<Policy>)
    ensures 0 !in Classes(policies)
  {
  }

  /** The conditions on the lists are the conditions on the state they stand for. */
  lemma ListsAndMaps(node: Id, l: Listed)
    ensures WellKeyed(l) && ValidNode(node, ToState(l)) <==>
            && LinksOk(node, ToState(l), l.links)
            && DistinctKeys(l.checks, CheckKey()) && ChecksOk(ToState(l), l.checks)
            && DistinctKeys(l.policies, PolicyKey()) && ClassesDistinct(l.policies)
            && ForwardsOk(node, ToState(l), Classes(l.policies), l.forwards)
  {
    hide Mapped, ValidForward, Disjoint, ForwardsOk, LinksOk, ChecksOk, ClassesDistinct, StateLinks, StateChecks, StateClasses, StateForwards;
    if LinksOk(node, ToState(l), l.links) {
      LinkIdsDistinct(node, l);
    }
    if ForwardsOk(node, ToState(l), Classes(l.policies), l.forwards) {
      IdsDistinct(node, l);
    }
    NodeParts(node, ToState(l));
    if WellKeyed(l) {
      LinksAgree(node, l);
      ChecksAgree(l);
      PoliciesAgree(l);
      ForwardsAgree(node, l);
    }
  }

  lemma IdsDistinct(node: Id, l: Listed)
    requires ForwardsOk(node, ToState(l), Classes(l.policies), l.forwards)
    ensures DistinctKeys(l.forwards, ForwardKey())
  {
    hide Mapped, ValidForward, Disjoint;
  }

  lemma LinkIdsDistinct(node: Id, l: Listed)
    requires LinksOk(node, ToState(l), l.links)
    ensures DistinctKeys(l.links, LinkKey())
  {
    hide Mapped, ValidLink, LinksApart;
  }

  predicate StateLinks(node: Id, s: NodeState) {
    && (forall l :: l in s.links ==> ValidLink(node, s, s.links[l]))
    && (forall l, m :: l in s.links && m in s.links && l != m ==> LinksApart(s.links[l], s.links[m]))
  }

  predicate StateChecks(s: NodeState) {
    forall k :: k in s.checks ==> !InServiceRange(s, s.checks[k].endpoint.address)
  }

  predicate StateClasses(s: NodeState) {
    forall i, j :: i in s.policies && j in s.policies && i != j && s.policies[i].classID != 0 ==>
      s.policies[i].classID != s.policies[j].classID
  }

  predicate StateForwards(node: Id, s: NodeState) {
    && (forall id :: id in s.forwards ==> ValidForward(node, s, s.forwards[id]))
    && (forall i, j :: i in s.forwards && j in s.forwards && i != j ==> Disjoint(node, s.forwards[i], s.forwards[j]))
    && (forall i, j :: i in s.policies && j in s.forwards && s.policies[i].classID != 0 ==>
          s.policies[i].classID != s.forwards[j].classID)
  }

  lemma NodeParts(node: Id, s: NodeState)
    ensures ValidNode(node, s) <==> StateLinks(node, s) && StateChecks(s) && StateClasses(s) && StateForwards(node, s)
  {
    hide ValidForward, Disjoint, ValidLink, LinksApart, InServiceRange;
  }

  /** Under distinct keys, the elements of a list are the values of its map. */
  lemma {:induction false} ListIsMap<K, T>(xs: seq<T>, key: T -> K)
    requires DistinctKeys(xs, key)
    ensures forall i :: 0 <= i < |xs| ==> key(xs[i]) in Mapped(xs, key) && Mapped(xs, key)[key(xs[i])] == xs[i]
    ensures forall k :: k in Mapped(xs, key) ==> exists i :: 0 <= i < |xs| && xs[i] == Mapped(xs, key)[k] && key(xs[i]) == k
  {
    hide Mapped;
    forall i | 0 <= i < |xs|
      ensures key(xs[i]) in Mapped(xs, key) && Mapped(xs, key)[key(xs[i])] == xs[i]
    {
      MappedAt(xs, key, i);
    }
  }

  lemma LinksAgree(node: Id, l: Listed)
    requires DistinctKeys(l.links, LinkKey())
    ensures LinksOk(node, ToState(l), l.links) <==> StateLinks(node, ToState(l))
  {
    hide Mapped, ValidLink, LinksApart;
    var s, xs, m := ToState(l), l.links, ToState(l).links;
    ListIsMap(xs, LinkKey());
    if StateLinks(node, s) {
      forall i | 0 <= i < |xs|
        ensures ValidLink(node, s, xs[i])
      {
        assert m[xs[i].id] == xs[i];
      }
      forall i, j | 0 <= i < j < |xs|
        ensures xs[i].id != xs[j].id && LinksApart(xs[i], xs[j])
      {
        assert LinkKey()(xs[i]) != LinkKey()(xs[j]) && m[xs[i].id] == xs[i] && m[xs[j].id] == xs[j];
      }
    }
    if LinksOk(node, s, xs) {
      LinksToState(node, l);
    }
  }

  lemma LinksToState(node: Id, l: Listed)
    requires DistinctKeys(l.links, LinkKey()) && LinksOk(node, ToState(l), l.links)
    ensures StateLinks(node, ToState(l))
  {
    hide Mapped, ValidLink, LinksApart, DistinctKeys;
    var xs, m := l.links, ToState(l).links;
    ListIsMap(xs, LinkKey());
    forall a, b | a in m && b in m && a != b
      ensures LinksApart(m[a], m[b])
    {
      var i :| 0 <= i < |xs| && xs[i] == m[a] && LinkKey()(xs[i]) == a;
      var j :| 0 <= j < |xs| && xs[j] == m[b] && LinkKey()(xs[j]) == b;
      assert i < j || j < i;
      ApartIsSymmetric(xs[i], xs[j]);
    }
  }

  lemma ApartIsSymmetric(l: Link, m: Link)
    ensures LinksApart(l, m) <==> LinksApart(m, l)
  {
  }

  lemma ChecksAgree(l: Listed)
    requires DistinctKeys(l.checks, CheckKey())
    ensures ChecksOk(ToState(l), l.checks) <==> StateChecks(ToState(l))
  {
    hide Mapped, InServiceRange;
    ListIsMap(l.checks, CheckKey());
    if StateChecks(ToState(l)) {
      forall i | 0 <= i < |l.checks|
        ensures !InServiceRange(ToState(l), l.checks[i].endpoint.address)
      {
        assert ToState(l).checks[CheckKey()(l.checks[i])] == l.checks[i];
      }
    }
  }

  lemma PoliciesAgree(l: Listed)
    requires DistinctKeys(l.policies, PolicyKey())
    ensures ClassesDistinct(l.policies) <==> StateClasses(ToState(l))
  {
    hide Mapped;
    var xs, m := l.policies, ToState(l).policies;
    ListIsMap(xs, PolicyKey());
    if StateClasses(ToState(l)) {
      forall i, j | 0 <= i < j < |xs| && xs[i].classID != 0
        ensures xs[i].classID != xs[j].classID
      {
        assert PolicyKey()(xs[i]) != PolicyKey()(xs[j]) && m[xs[i].user] == xs[i] && m[xs[j].user] == xs[j];
      }
    }
    if ClassesDistinct(xs) {
      forall a, b | a in m && b in m && a != b && m[a].classID != 0
        ensures m[a].classID != m[b].classID
      {
        var i :| 0 <= i < |xs| && xs[i] == m[a] && PolicyKey()(xs[i]) == a;
        var j :| 0 <= j < |xs| && xs[j] == m[b] && PolicyKey()(xs[j]) == b;
        assert i < j || j < i;
      }
    }
  }

  lemma ForwardsAgree(node: Id, l: Listed)
    requires DistinctKeys(l.forwards, ForwardKey()) && DistinctKeys(l.policies, PolicyKey())
    ensures ForwardsOk(node, ToState(l), Classes(l.policies), l.forwards) <==> StateForwards(node, ToState(l))
  {
    hide Mapped, ValidForward, Disjoint;
    ListIsMap(l.forwards, ForwardKey());
    if StateForwards(node, ToState(l)) {
      StateToList(node, l);
    }
    if ForwardsOk(node, ToState(l), Classes(l.policies), l.forwards) {
      ListToState(node, l);
    }
  }

  lemma StateToList(node: Id, l: Listed)
    requires DistinctKeys(l.forwards, ForwardKey()) && DistinctKeys(l.policies, PolicyKey())
    requires StateForwards(node, ToState(l))
    ensures ForwardsOk(node, ToState(l), Classes(l.policies), l.forwards)
  {
    hide Mapped, ValidForward, Disjoint;
    var s, xs := ToState(l), l.forwards;
    ListIsMap(xs, ForwardKey());
    ListIsMap(l.policies, PolicyKey());
    forall i | 0 <= i < |xs|
      ensures ValidForward(node, s, xs[i]) && xs[i].classID !in Classes(l.policies)
    {
      assert s.forwards[xs[i].id] == xs[i];
      forall k | 0 <= k < |l.policies| && l.policies[k].classID != 0
        ensures l.policies[k].classID != xs[i].classID
      {
        assert s.policies[l.policies[k].user] == l.policies[k];
      }
    }
    forall i, j | 0 <= i < j < |xs|
      ensures xs[i].id != xs[j].id && Disjoint(node, xs[i], xs[j])
    {
      assert ForwardKey()(xs[i]) != ForwardKey()(xs[j]);
      assert s.forwards[xs[i].id] == xs[i] && s.forwards[xs[j].id] == xs[j];
    }
  }

  lemma ListToState(node: Id, l: Listed)
    requires DistinctKeys(l.forwards, ForwardKey()) && DistinctKeys(l.policies, PolicyKey())
    requires ForwardsOk(node, ToState(l), Classes(l.policies), l.forwards)
    ensures StateForwards(node, ToState(l))
  {
    hide Mapped, ValidForward, Disjoint, Classes;
    var s := ToState(l);
    forall a | a in s.forwards
      ensures ValidForward(node, s, s.forwards[a]) && s.forwards[a].classID !in Classes(l.policies)
    {
      var i := ListedAt(l.forwards, ForwardKey(), a);
    }
    forall a, b | a in s.forwards && b in s.forwards && a != b
      ensures Disjoint(node, s.forwards[a], s.forwards[b])
    {
      var i := ListedAt(l.forwards, ForwardKey(), a);
      var j := ListedAt(l.forwards, ForwardKey(), b);
      if j < i {
        DisjointIsSymmetric(node, s.forwards[b], s.forwards[a]);
      }
    }
    forall u | u in s.policies && s.policies[u].classID != 0
      ensures s.policies[u].classID in Classes(l.policies)
    {
      var k := ListedAt(l.policies, PolicyKey(), u);
      ClassIsListed(l.policies, k);
    }
  }

  lemma ListedAt<K, T>(xs: seq<T>, key: T -> K, k: K) returns (i: nat)
    requires DistinctKeys(xs, key) && k in Mapped(xs, key)
    ensures i < |xs| && xs[i] == Mapped(xs, key)[k] && key(xs[i]) == k
  {
    hide Mapped;
    ListIsMap(xs, key);
    i :| 0 <= i < |xs| && xs[i] == Mapped(xs, key)[k] && key(xs[i]) == k;
  }

  lemma ClassIsListed(policies: seq<Policy>, k: nat)
    requires k < |policies| && policies[k].classID != 0
    ensures policies[k].classID in Classes(policies)
  {
  }

  lemma DisjointIsSymmetric(node: Id, f: Forward, g: Forward)
    requires Disjoint(node, f, g)
    ensures Disjoint(node, g, f)
  {
    hide KeysOf;
  }
}
