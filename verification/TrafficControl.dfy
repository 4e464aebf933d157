/** Traffic-control classes and filters of one node, and their agreement with the nft marks. */
module TrafficControl {
  import opened Spec
  import Nft = NftProgram

  datatype Direction = Upload | Download

  /** The class below the root that every other class descends from. */
  const ROOT_CLASS: nat := 1

  const DEFAULT_BURST: nat := 65536

  datatype Class = Class(parent: nat, id: nat, rate: nat, burst: nat)

  datatype Filter = Filter(mark: nat, minor: nat)

  function DirectionRate(limit: Option<RateLimit>, d: Direction): nat {
    if limit.None? then 0 else if d == Upload then limit.value.ingress else limit.value.egress
  }

  function DirectionBurst(limit: Option<RateLimit>): nat {
    if limit.None? then 0 else limit.value.burst
  }

  /** The rate that limits a forward in one direction: its own, else its user's. */
  function EffectiveRate(s: NodeState, f: Forward, d: Direction): nat {
    if DirectionRate(f.rate, d) != 0 then DirectionRate(f.rate, d) else DirectionRate(Nft.UserRate(s, f.user), d)
  }

  function EffectiveBurst(s: NodeState, f: Forward, d: Direction): nat {
    if DirectionRate(f.rate, d) != 0 then DirectionBurst(f.rate) else DirectionBurst(Nft.UserRate(s, f.user))
  }

  function ClassFor(s: NodeState, f: Forward): nat {
    if f.rate.Some? then f.classID else Nft.UserClass(s, f.user)
  }

  function Clip(rate: nat, capacity: nat): nat {
    if rate > capacity then capacity else rate
  }

  function BurstOr(burst: nat): nat {
    if burst == 0 then DEFAULT_BURST else burst
  }

  /** The canonical lists of a state, in some order. */
  ghost predicate Lists(s: NodeState, users: seq<Id>, ids: seq<Id>) {
    && (forall u :: u in users <==> u in s.policies) && (forall i, j :: 0 <= i < j < |users| ==> users[i] != users[j])
    && (forall id :: id in ids <==> id in s.forwards) && (forall i, j :: 0 <= i < j < |ids| ==> ids[i] != ids[j])
  }

  predicate UsedAtIngress(node: Id, s: NodeState, user: Id) {
    exists id :: id in s.forwards && s.forwards[id].ingress == node && s.forwards[id].user == user
  }

  /** A forward that this node limits in the given direction. */
  predicate Limited(node: Id, s: NodeState, id: Id, d: Direction) {
    id in s.forwards && s.forwards[id].ingress == node && EffectiveRate(s, s.forwards[id], d) != 0
  }

  predicate UserLimited(node: Id, s: NodeState, user: Id, d: Direction) {
    user in s.policies && UsedAtIngress(node, s, user) && DirectionRate(s.policies[user].rate, d) != 0
  }

  /** A forward that gets a class of its own. */
  predicate OwnClass(node: Id, s: NodeState, id: Id, d: Direction) {
    Limited(node, s, id, d) && s.forwards[id].rate.Some?
  }

  function UserClassOf(s: NodeState, user: Id, d: Direction, capacity: nat): Class
    requires user in s.policies
  {
    var p := s.policies[user];
    Class(ROOT_CLASS, p.classID, Clip(DirectionRate(p.rate, d), capacity), BurstOr(DirectionBurst(p.rate)))
  }

  function ForwardClassOf(s: NodeState, id: Id, d: Direction, capacity: nat): Class
    requires id in s.forwards
  {
    var f := s.forwards[id];
    Class(if DirectionRate(Nft.UserRate(s, f.user), d) != 0 then Nft.UserClass(s, f.user) else ROOT_CLASS,
          f.classID, Clip(EffectiveRate(s, f, d), capacity), BurstOr(EffectiveBurst(s, f, d)))
  }

  /** Limits have classes: what the compilers check before they emit anything. */
  predicate Resolved(node: Id, s: NodeState) {
    && (forall u :: u in s.policies && UsedAtIngress(node, s, u) && s.policies[u].rate.Some? ==> s.policies[u].classID != 0)
    && (forall id :: id in s.forwards && s.forwards[id].ingress == node && s.forwards[id].rate.Some? ==>
          s.forwards[id].classID != 0)
  }

  predicate Apart(classes: seq<Class>) {
    forall i, j :: 0 <= i < j < |classes| ==> classes[i].id != classes[j].id
  }

  /** What the emitted lists promise. */
  ghost predicate Emitted(node: Id, s: NodeState, d: Direction, capacity: nat, classes: seq<Class>, filters: seq<Filter>, split: nat) {
    && split <= |classes|
    && (ValidNode(node, s) && Resolved(node, s) ==> Apart(classes))
    && (forall u :: UserLimited(node, s, u, d) ==> UserClassOf(s, u, d, capacity) in classes[..split])
    && (forall id :: OwnClass(node, s, id, d) ==> ForwardClassOf(s, id, d, capacity) in classes[split..])
    && (forall i, j :: 0 <= i < j < |filters| ==> filters[i].minor != filters[j].minor)
    && (forall x :: x in filters ==> x == FilterFor(x.minor))
    && (forall id :: Limited(node, s, id, d) ==> FilterFor(ClassFor(s, s.forwards[id])) in filters)
  }

  /** writeDirectionClasses: user classes first, then forward classes below them, then one filter for
      each class that some ingress traffic is marked with. */
  method WriteDirectionClasses(node: Id, s: NodeState, users: seq<Id>, ids: seq<Id>, d: Direction, capacity: nat)
    returns (classes: seq<Class>, filters: seq<Filter>, split: nat)
    requires Lists(s, users, ids)
    ensures split <= |classes|
    ensures forall c :: c in classes[..split] <==> exists u :: UserLimited(node, s, u, d) && c == UserClassOf(s, u, d, capacity)
    ensures forall c :: c in classes[split..] <==> exists id :: OwnClass(node, s, id, d) && c == ForwardClassOf(s, id, d, capacity)
    ensures forall i, j :: 0 <= i < j < |filters| ==> filters[i].minor != filters[j].minor
    ensures forall x :: x in filters <==> exists id :: Limited(node, s, id, d) && x == FilterFor(ClassFor(s, s.forwards[id]))
    ensures ValidNode(node, s) && Resolved(node, s) ==> Apart(classes)
    ensures Emitted(node, s, d, capacity, classes, filters, split)
  {
    hide UserClassOf, ForwardClassOf, UserLimited, OwnClass, Limited, ClassFor, ValidNode, Resolved, Apart;
    var first := WriteUserClasses(node, s, users, d, capacity);
    var own := WriteForwardClasses(node, s, ids, d, capacity);
    classes, split := first + own, |first|;
    assert classes[..split] == first && classes[split..] == own;
    filters := WriteFilters(node, s, ids, d);
    if ValidNode(node, s) && Resolved(node, s) {
      ClassesApart(node, s, d, capacity, first, own);
    }
  }

  method WriteUserClasses(node: Id, s: NodeState, users: seq<Id>, d: Direction, capacity: nat) returns (classes: seq<Class>)
    requires (forall u :: u in users <==> u in s.policies) && forall i, j :: 0 <= i < j < |users| ==> users[i] != users[j]
    ensures forall c :: c in classes <==> exists u :: UserLimited(node, s, u, d) && c == UserClassOf(s, u, d, capacity)
    ensures ValidNode(node, s) && Resolved(node, s) ==> Apart(classes)
  {
    hide UserClassOf, ValidNode, Resolved;
    classes := [];
    for i := 0 to |users|
      invariant forall c :: c in classes <==> exists k :: 0 <= k < i && UserLimited(node, s, users[k], d) && c == UserClassOf(s, users[k], d, capacity)
      invariant ValidNode(node, s) && Resolved(node, s) ==> Apart(classes)
    {
      var user := users[i];
      if UsedAtIngress(node, s, user) && DirectionRate(s.policies[user].rate, d) != 0 {
        forall c | c in classes && ValidNode(node, s) && Resolved(node, s)
          ensures c.id != UserClassOf(s, user, d, capacity).id
        {
          var k :| 0 <= k < i && UserLimited(node, s, users[k], d) && c == UserClassOf(s, users[k], d, capacity);
          UsersApart(node, s, users[k], user, d, capacity);
        }
        classes := classes + [UserClassOf(s, user, d, capacity)];
      }
    }
    forall c
      ensures c in classes <==> exists u :: UserLimited(node, s, u, d) && c == UserClassOf(s, u, d, capacity)
    {
      if u :| UserLimited(node, s, u, d) && c == UserClassOf(s, u, d, capacity) {
        assert u in users;
        var k :| 0 <= k < |users| && users[k] == u;
      }
    }
  }

  lemma UsersApart(node: Id, s: NodeState, u: Id, v: Id, d: Direction, capacity: nat)
    requires ValidNode(node, s) && Resolved(node, s) && u != v
    requires UserLimited(node, s, u, d) && UserLimited(node, s, v, d)
    ensures UserClassOf(s, u, d, capacity).id != UserClassOf(s, v, d, capacity).id
  {
    hide ValidForward, ValidLink, LinksApart, Disjoint;
  }

  lemma ForwardsApart(node: Id, s: NodeState, x: Id, y: Id, d: Direction, capacity: nat)
    requires ValidNode(node, s) && Resolved(node, s) && x != y
    requires OwnClass(node, s, x, d) && OwnClass(node, s, y, d)
    ensures ForwardClassOf(s, x, d, capacity).id != ForwardClassOf(s, y, d, capacity).id
  {
    hide ValidForward, ValidLink, LinksApart, EffectiveRate, EffectiveBurst;
    assert Disjoint(node, s.forwards[x], s.forwards[y]);
  }

  lemma UserAndForwardApart(node: Id, s: NodeState, u: Id, id: Id, d: Direction, capacity: nat)
    requires ValidNode(node, s) && Resolved(node, s)
    requires UserLimited(node, s, u, d) && OwnClass(node, s, id, d)
    ensures UserClassOf(s, u, d, capacity).id != ForwardClassOf(s, id, d, capacity).id
  {
    hide ValidForward, ValidLink, LinksApart, Disjoint, EffectiveRate, EffectiveBurst;
  }

  /** User classes and forward classes never meet either. */
  lemma ClassesApart(node: Id, s: NodeState, d: Direction, capacity: nat, first: seq<Class>, own: seq<Class>)
    requires ValidNode(node, s) && Resolved(node, s) && Apart(first) && Apart(own)
    requires forall c :: c in first <==> exists u :: UserLimited(node, s, u, d) && c == UserClassOf(s, u, d, capacity)
    requires forall c :: c in own <==> exists id :: OwnClass(node, s, id, d) && c == ForwardClassOf(s, id, d, capacity)
    ensures Apart(first + own)
  {
    hide ValidNode, Resolved, UsedAtIngress, DirectionRate, EffectiveRate, UserClassOf, ForwardClassOf;
    forall b, c | b in first && c in own
      ensures b.id != c.id
    {
      var u :| UserLimited(node, s, u, d) && b == UserClassOf(s, u, d, capacity);
      var id :| OwnClass(node, s, id, d) && c == ForwardClassOf(s, id, d, capacity);
      UserAndForwardApart(node, s, u, id, d, capacity);
    }
  }

  function FilterFor(minor: nat): Filter {
    Filter(Nft.TrafficMark(minor), minor)
  }

  method WriteForwardClasses(node: Id, s: NodeState, ids: seq<Id>, d: Direction, capacity: nat) returns (classes: seq<Class>)
    requires (forall id :: id in ids <==> id in s.forwards) && forall i, j :: 0 <= i < j < |ids| ==> ids[i] != ids[j]
    ensures forall c :: c in classes <==> exists id :: OwnClass(node, s, id, d) && c == ForwardClassOf(s, id, d, capacity)
    ensures ValidNode(node, s) && Resolved(node, s) ==> Apart(classes)
  {
    hide ForwardClassOf, EffectiveRate, ValidNode, Resolved;
    classes := [];
    for i := 0 to |ids|
      invariant forall c :: c in classes <==> exists k :: 0 <= k < i && OwnClass(node, s, ids[k], d) && c == ForwardClassOf(s, ids[k], d, capacity)
      invariant ValidNode(node, s) && Resolved(node, s) ==> Apart(classes)
    {
      var id := ids[i];
      assert id in ids;
      var f := s.forwards[id];
      if f.ingress == node && f.rate.Some? && EffectiveRate(s, f, d) != 0 {
        forall c | c in classes && ValidNode(node, s) && Resolved(node, s)
          ensures c.id != ForwardClassOf(s, id, d, capacity).id
        {
          var k :| 0 <= k < i && OwnClass(node, s, ids[k], d) && c == ForwardClassOf(s, ids[k], d, capacity);
          ForwardsApart(node, s, ids[k], id, d, capacity);
        }
        classes := classes + [ForwardClassOf(s, id, d, capacity)];
      }
    }
    forall c
      ensures c in classes <==> exists id :: OwnClass(node, s, id, d) && c == ForwardClassOf(s, id, d, capacity)
    {
      if id :| OwnClass(node, s, id, d) && c == ForwardClassOf(s, id, d, capacity) {
        assert id in ids;
        var k :| 0 <= k < |ids| && ids[k] == id;
      }
    }
  }

  method WriteFilters(node: Id, s: NodeState, ids: seq<Id>, d: Direction) returns (filters: seq<Filter>)
    requires forall id :: id in ids <==> id in s.forwards
    ensures forall i, j :: 0 <= i < j < |filters| ==> filters[i].minor != filters[j].minor
    ensures forall x :: x in filters <==> exists id :: Limited(node, s, id, d) && x == FilterFor(ClassFor(s, s.forwards[id]))
  {
    hide EffectiveRate, ClassFor, Nft.TrafficMark;
    filters := [];
    var seen: set<nat> := {};
    for i := 0 to |ids|
      invariant forall j, k :: 0 <= j < k < |filters| ==> filters[j].minor != filters[k].minor
      invariant forall k :: 0 <= k < |filters| ==> filters[k].minor in seen
      invariant forall c :: c in seen ==> FilterFor(c) in filters
      invariant forall k :: 0 <= k < i && Limited(node, s, ids[k], d) ==> ClassFor(s, s.forwards[ids[k]]) in seen
      invariant forall x :: x in filters ==> exists id :: Limited(node, s, id, d) && x == FilterFor(ClassFor(s, s.forwards[id]))
    {
      var id := ids[i];
      assert id in ids;
      var f := s.forwards[id];
      if f.ingress == node && EffectiveRate(s, f, d) != 0 {
        assert Limited(node, s, id, d);
        var minor := ClassFor(s, f);
        if minor !in seen {
          seen := seen + {minor};
          filters := filters + [FilterFor(minor)];
        }
      }
    }
    forall x
      ensures x in filters <==> exists id :: Limited(node, s, id, d) && x == FilterFor(ClassFor(s, s.forwards[id]))
    {
      if id :| Limited(node, s, id, d) && x == FilterFor(ClassFor(s, s.forwards[id])) {
        assert id in ids;
        var k :| 0 <= k < |ids| && ids[k] == id;
      }
    }
  }

  // ---------------------------------------------------------------- agreement

  /** For every limited forward the mark nft sets is the handle of exactly one filter, which leads to
      a class that exists, is no faster than the link, and whose parent precedes it; on a valid node
      no other class has that identifier. */
  lemma MarksFindTheirClass(node: Id, s: NodeState, id: Id, d: Direction, capacity: nat,
                            classes: seq<Class>, filters: seq<Filter>, split: nat)
    returns (filter: nat, minor: nat)
    requires Emitted(node, s, d, capacity, classes, filters, split) && Resolved(node, s) && Limited(node, s, id, d)
    ensures Nft.MarkOf(node, s, s.forwards[id]).Some?
    ensures filter < |filters| && filters[filter].mark == Nft.MarkOf(node, s, s.forwards[id]).value
    ensures forall k :: 0 <= k < |filters| && filters[k].mark == filters[filter].mark ==> k == filter
    ensures minor < |classes| && classes[minor].id == filters[filter].minor
    ensures ValidNode(node, s) ==> forall k :: 0 <= k < |classes| && classes[k].id == filters[filter].minor ==> k == minor
    ensures classes[minor].rate == Clip(EffectiveRate(s, s.forwards[id], d), capacity) <= capacity
    ensures classes[minor].parent == ROOT_CLASS || exists k :: 0 <= k < minor && classes[k].id == classes[minor].parent
  {
    hide ValidNode;
    var f := s.forwards[id];
    assert UsedAtIngress(node, s, f.user);
    var x := FilterFor(ClassFor(s, f));
    assert x in filters;
    filter :| 0 <= filter < |filters| && filters[filter] == x;
    forall k | 0 <= k < |filters| && filters[k].mark == filters[filter].mark
      ensures k == filter
    {
      assert filters[k] in filters;
    }
    if f.rate.Some? {
      var c := ForwardClassOf(s, id, d, capacity);
      assert c in classes[split..];
      var k :| 0 <= k < |classes| - split && classes[split..][k] == c;
      minor := split + k;
      if c.parent != ROOT_CLASS {
        ParentPrecedes(node, s, f, d, capacity, classes, filters, split);
      }
    } else {
      var c := UserClassOf(s, f.user, d, capacity);
      assert c in classes[..split];
      minor :| 0 <= minor < split && classes[minor] == c;
    }
  }

  lemma ParentPrecedes(node: Id, s: NodeState, f: Forward, d: Direction, capacity: nat,
                       classes: seq<Class>, filters: seq<Filter>, split: nat)
    requires Emitted(node, s, d, capacity, classes, filters, split)
    requires UsedAtIngress(node, s, f.user) && DirectionRate(Nft.UserRate(s, f.user), d) != 0
    ensures exists k :: 0 <= k < split && classes[k].id == Nft.UserClass(s, f.user)
  {
    var c := UserClassOf(s, f.user, d, capacity);
    assert c in classes[..split];
    var k :| 0 <= k < split && classes[..split][k] == c;
    assert classes[k] == c;
  }

  /** What a limit asks for one way: uploads are what comes in, downloads are what goes out. */
  function Asked(limit: RateLimit, d: Direction): nat {
    match d
    case Upload => limit.ingress
    case Download => limit.egress
  }

  predicate LimitsTo(c: Class, id: nat, rate: nat, burst: nat, capacity: nat) {
    && c.id == id && c.rate == (if rate <= capacity then rate else capacity)
    && c.burst == (if burst != 0 then burst else 65536)
  }

  /** A user who is limited one way has a class with that limit. */
  lemma UsersAreLimited(node: Id, s: NodeState, user: Id, d: Direction, capacity: nat,
                        classes: seq<Class>, filters: seq<Filter>, split: nat)
    requires Emitted(node, s, d, capacity, classes, filters, split)
    requires user in s.policies && s.policies[user].rate.Some? && Asked(s.policies[user].rate.value, d) != 0
    requires exists id :: id in s.forwards && s.forwards[id].ingress == node && s.forwards[id].user == user
    ensures var p := s.policies[user];
            exists c :: c in classes && c.parent == 1
                        && LimitsTo(c, p.classID, Asked(p.rate.value, d), p.rate.value.burst, capacity)
  {
    assert UserLimited(node, s, user, d);
    var c := UserClassOf(s, user, d, capacity);
    assert c in classes[..split];
  }

  /** Whether a user is limited one way. */
  predicate UserAsks(s: NodeState, user: Id, d: Direction) {
    user in s.policies && s.policies[user].rate.Some? && Asked(s.policies[user].rate.value, d) != 0
  }

  /** A forward that is limited on its own has a class with its limit, or with its user's where it says
      nothing itself, below the class of its user if that is limited too. */
  lemma ForwardsAreLimited(node: Id, s: NodeState, id: Id, d: Direction, capacity: nat,
                           classes: seq<Class>, filters: seq<Filter>, split: nat)
    requires Emitted(node, s, d, capacity, classes, filters, split)
    requires id in s.forwards && s.forwards[id].ingress == node && s.forwards[id].rate.Some?
    ensures var f := s.forwards[id];
            var limit := if Asked(f.rate.value, d) != 0 || !UserAsks(s, f.user, d) then f.rate.value else s.policies[f.user].rate.value;
            Asked(limit, d) != 0 ==>
              exists c :: c in classes && LimitsTo(c, f.classID, Asked(limit, d), limit.burst, capacity)
                          && c.parent == (if UserAsks(s, f.user, d) then s.policies[f.user].classID else 1)
  {
    if EffectiveRate(s, s.forwards[id], d) != 0 {
      assert OwnClass(node, s, id, d);
      var f, c := s.forwards[id], ForwardClassOf(s, id, d, capacity);
      assert c in classes[split..];
      assert c in classes;
    }
  }

  // ---------------------------------------------------------------- upload redirects

  datatype Redirect = Redirect(preference: nat, key: Key, mark: nat)

  function Marked(redirects: seq<Redirect>): set<(Key, nat)> {
    set r | r in redirects :: (r.key, r.mark)
  }

  /** The keys a forward is reached at, with the mark of its class, if it is limited on upload. */
  function MarkedKeys(node: Id, s: NodeState, id: Id): set<(Key, nat)> {
    if Limited(node, s, id, Upload) then
      set p | p in s.forwards[id].protocols :: (Key(s.forwards[id].listen, p), Nft.TrafficMark(ClassFor(s, s.forwards[id])))
    else {}
  }

  /** What is redirected: all that a forward listens to, if it or its user is limited on upload, for its own
      class if it has limits of its own, and else for its user's. */
  lemma UploadsAreRedirected(node: Id, s: NodeState, id: Id, k: Key, mark: nat)
    requires id in s.forwards
    ensures var f := s.forwards[id];
            (k, mark) in MarkedKeys(node, s, id) <==>
            && f.ingress == node && k.endpoint == f.listen && k.protocol in f.protocols
            && ((f.rate.Some? && f.rate.value.ingress != 0) || UserAsks(s, f.user, Upload))
            && mark == 0x4600_0000 + if f.rate.Some? then f.classID else s.policies[f.user].classID
  {
  }

  /** writeIngressRedirects: one rule for each key of each forward that is limited on upload; it sets
      the mark before the packet reaches the classes. */
  method WriteIngressRedirects(node: Id, s: NodeState, ids: seq<Id>) returns (redirects: seq<Redirect>)
    requires forall id :: id in ids <==> id in s.forwards
    ensures forall i :: 0 <= i < |redirects| ==> redirects[i].preference == 10 + i
    ensures Marked(redirects) == set id, x | id in s.forwards && x in MarkedKeys(node, s, id) :: x
  {
    hide EffectiveRate, ClassFor, MarkedKeys, Marked;
    redirects := [];
    assert Marked(redirects) == {} by { NoRedirects(); }
    for i := 0 to |ids|
      invariant forall k :: 0 <= k < |redirects| ==> redirects[k].preference == 10 + k
      invariant Marked(redirects) == set id, x | id in ids[..i] && x in MarkedKeys(node, s, id) :: x
    {
      var id := ids[i];
      assert id in ids;
      var f := s.forwards[id];
      UnlimitedKeys(node, s, id);
      assert ids[..i + 1] == ids[..i] + [id];
      if f.ingress == node && EffectiveRate(s, f, Upload) != 0 {
        redirects := RedirectForward(node, s, id, redirects);
      }
    }
    assert ids[..|ids|] == ids;
  }

  lemma NoRedirects()
    ensures Marked([]) == {}
  {
  }

  lemma UnlimitedKeys(node: Id, s: NodeState, id: Id)
    ensures !Limited(node, s, id, Upload) ==> MarkedKeys(node, s, id) == {}
  {
  }

  method RedirectForward(node: Id, s: NodeState, id: Id, before: seq<Redirect>) returns (redirects: seq<Redirect>)
    requires Limited(node, s, id, Upload)
    requires forall i :: 0 <= i < |before| ==> before[i].preference == 10 + i
    ensures forall i :: 0 <= i < |redirects| ==> redirects[i].preference == 10 + i
    ensures Marked(redirects) == Marked(before) + MarkedKeys(node, s, id)
  {
    hide EffectiveRate, ClassFor;
    redirects := before;
    var f := s.forwards[id];
    var mark := Nft.TrafficMark(ClassFor(s, f));
    var protocols := f.protocols;
    while protocols != {}
      invariant protocols <= f.protocols
      invariant forall i :: 0 <= i < |redirects| ==> redirects[i].preference == 10 + i
      invariant Marked(redirects) == Marked(before) + set p | p in f.protocols - protocols :: (Key(f.listen, p), mark)
      decreases |protocols|
    {
      var p :| p in protocols;
      protocols := protocols - {p};
      ghost var last := redirects;
      redirects := redirects + [Redirect(10 + |redirects|, Key(f.listen, p), mark)];
      assert Marked(redirects) == Marked(last) + {(Key(f.listen, p), mark)};
    }
  }
}
