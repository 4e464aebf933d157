/** The nft program of one node: which packets it matches, and what happens to them. */
module NftProgram {
  import opened Spec

  /** Marks are 32 bits wide: a prefix in the upper half, an identifier in the lower one. */
  function TrafficMark(classID: nat): nat {
    0x46000000 + classID
  }

  function RoutingMark(routingID: nat): nat {
    0x47000000 + routingID
  }

  /** Expired forwards and drained ones are blocked by the node's own clock. */
  function EffectiveLifecycle(f: Forward, now: nat): Lifecycle {
    if f.expiresAt.Some? && f.expiresAt.value <= now then Paused
    else if f.lifecycle == Draining && f.drainDeadline.Some? && f.drainDeadline.value <= now then Paused
    else f.lifecycle
  }

  /** Where the node matches the forward's traffic, as the compiler computes it. */
  function MatchOf(node: Id, f: Forward): Endpoint {
    if f.mode == ViaExit && node != f.ingress && f.vip.Some? then Endpoint(f.vip.value, f.target.port) else f.listen
  }

  /** Where the node sends it. */
  function TargetOf(node: Id, f: Forward): Endpoint {
    if f.mode == ViaExit && node == f.ingress && f.vip.Some? then Endpoint(f.vip.value, f.target.port) else f.target
  }

  function MatchKeys(node: Id, f: Forward): set<Key> {
    set p | p in f.protocols :: Key(MatchOf(node, f), p)
  }

  /** Validation reserves exactly the keys the compiler uses. */
  lemma KeysAgree(node: Id, s: NodeState, f: Forward)
    requires ValidForward(node, s, f)
    ensures MatchKeys(node, f) == KeysOf(node, f)
  {
    hide InServiceRange;
    assert MatchOf(node, f) == ListenerOf(node, f);
  }

  function UserRate(s: NodeState, user: Id): Option<RateLimit> {
    if user in s.policies then s.policies[user].rate else None
  }

  function UserClass(s: NodeState, user: Id): nat {
    if user in s.policies then s.policies[user].classID else 0
  }

  /** forwardingClass: the class the ingress marks traffic with; `None` if a limit has no class. */
  function ForwardingClass(s: NodeState, f: Forward): Option<nat> {
    if f.rate.Some? then if f.classID == 0 then None else Some(f.classID)
    else if UserRate(s, f.user).Some? then if UserClass(s, f.user) == 0 then None else Some(UserClass(s, f.user))
    else Some(0)
  }

  predicate ClassesResolved(node: Id, s: NodeState) {
    forall id :: id in s.forwards && s.forwards[id].ingress == node ==> ForwardingClass(s, s.forwards[id]).Some?
  }

  datatype Program = Program(
    managed: set<Key>, dnat: map<Key, Endpoint>, marks: map<Key, nat>, routeMarks: map<Key, nat>,
    snat: map<Key, Address>, masquerade: set<Key>, paused: set<Key>, draining: set<Key>, clamped: set<Key>)

  /** The traffic class mark of an ingress entry, if it is limited. */
  function MarkOf(node: Id, s: NodeState, f: Forward): Option<nat> {
    if f.ingress == node && ForwardingClass(s, f).Some? && ForwardingClass(s, f).value != 0
    then Some(TrafficMark(ForwardingClass(s, f).value)) else None
  }

  /** The mark by which the exit routes replies back into the link. */
  function RouteMarkOf(node: Id, s: NodeState, f: Forward): Option<nat> {
    if f.ingress != node && f.mode == ViaExit && f.link in s.links then Some(RoutingMark(s.links[f.link].routingID)) else None
  }

  /** The address traffic leaves with; `None` is the address of the outgoing interface. */
  function SourceOf(node: Id, s: NodeState, f: Forward): Option<Address> {
    if f.mode == ViaExit && f.ingress == node && f.link in s.links then Some(s.links[f.link].local.address)
    else if f.snat.Static? then Some(f.snat.address)
    else None
  }

  predicate Maps<T(==)>(m: map<Key, T>, k: Key, v: Option<T>) {
    if v.Some? then k in m && m[k] == v.value else k !in m
  }

  /** The program treats key `k` as forward `f` asks for. */
  predicate Entered(p: Program, node: Id, s: NodeState, f: Forward, k: Key, now: nat) {
    && k in p.managed
    && Maps(p.dnat, k, Some(TargetOf(node, f)))
    && Maps(p.marks, k, MarkOf(node, s, f))
    && Maps(p.routeMarks, k, RouteMarkOf(node, s, f))
    && Maps(p.snat, k, SourceOf(node, s, f))
    && (k in p.masquerade <==> SourceOf(node, s, f).None?)
    && (k in p.paused <==> EffectiveLifecycle(f, now) in {Paused, ForceDeleting})
    && (k in p.draining <==> EffectiveLifecycle(f, now) == Draining)
    && (k in p.clamped <==> f.mode == ViaExit)
  }

  /** Every key is in the table on behalf of one of the forwards in `ids`, and is treated as that
      forward asks for. */
  ghost predicate Implements(p: Program, node: Id, s: NodeState, now: nat, ids: set<Id>) {
    && (forall k :: k in Mentioned(p) ==> exists id :: id in ids && id in s.forwards && k in MatchKeys(node, s.forwards[id]))
    && forall id, k :: id in ids && id in s.forwards && k in MatchKeys(node, s.forwards[id]) ==>
         Entered(p, node, s, s.forwards[id], k, now)
  }

  function Mentioned(p: Program): set<Key> {
    p.managed + p.dnat.Keys + p.marks.Keys + p.routeMarks.Keys + p.snat.Keys + p.masquerade + p.paused + p.draining + p.clamped
  }

  function Put<T>(m: map<Key, T>, k: Key, v: Option<T>): map<Key, T> {
    if v.Some? then m[k := v.value] else m
  }

  function Include(keys: set<Key>, k: Key, present: bool): set<Key> {
    if present then keys + {k} else keys
  }

  /** Adds the elements of one key. */
  function WithKey(p: Program, node: Id, s: NodeState, f: Forward, k: Key, now: nat): Program {
    Program(p.managed + {k}, p.dnat[k := TargetOf(node, f)],
            Put(p.marks, k, MarkOf(node, s, f)), Put(p.routeMarks, k, RouteMarkOf(node, s, f)),
            Put(p.snat, k, SourceOf(node, s, f)), Include(p.masquerade, k, SourceOf(node, s, f).None?),
            Include(p.paused, k, EffectiveLifecycle(f, now) == Paused || EffectiveLifecycle(f, now) == ForceDeleting),
            Include(p.draining, k, EffectiveLifecycle(f, now) == Draining), Include(p.clamped, k, f.mode == ViaExit))
  }

  lemma PutMaps<T>(m: map<Key, T>, k: Key, v: Option<T>)
    requires k !in m
    ensures Maps(Put(m, k, v), k, v)
    ensures forall j, w :: j != k ==> (Maps(Put(m, k, v), j, w) <==> Maps(m, j, w))
    ensures Put(m, k, v).Keys <= m.Keys + {k}
    ensures m.Keys <= Put(m, k, v).Keys
  {
  }

  lemma WithKeyEnters(p: Program, node: Id, s: NodeState, f: Forward, k: Key, now: nat)
    requires k !in Mentioned(p)
    ensures Entered(WithKey(p, node, s, f, k, now), node, s, f, k, now)
    ensures Mentioned(WithKey(p, node, s, f, k, now)) == Mentioned(p) + {k}
    ensures forall g, j :: j != k ==>
              (Entered(WithKey(p, node, s, f, k, now), node, s, g, j, now) <==> Entered(p, node, s, g, j, now))
  {
    hide MarkOf, RouteMarkOf, SourceOf, TargetOf, EffectiveLifecycle, Put, Maps;
    PutMaps(p.dnat, k, Some(TargetOf(node, f)));
    PutMaps(p.marks, k, MarkOf(node, s, f));
    PutMaps(p.routeMarks, k, RouteMarkOf(node, s, f));
    PutMaps(p.snat, k, SourceOf(node, s, f));
    PutSome(p.dnat, k, TargetOf(node, f));
    Grown(p, WithKey(p, node, s, f, k, now), k);
    forall g, j | j != k
      ensures Entered(WithKey(p, node, s, f, k, now), node, s, g, j, now) <==> Entered(p, node, s, g, j, now)
    {
      OthersStay(p, node, s, f, k, g, j, now);
    }
  }

  lemma OthersStay(p: Program, node: Id, s: NodeState, f: Forward, k: Key, g: Forward, j: Key, now: nat)
    requires j != k
    ensures Entered(WithKey(p, node, s, f, k, now), node, s, g, j, now) <==> Entered(p, node, s, g, j, now)
  {
    hide MarkOf, RouteMarkOf, SourceOf, TargetOf, EffectiveLifecycle;
  }

  /** At most the key `k` is new in `b`. */
  predicate Wider(a: set<Key>, b: set<Key>, k: Key) {
    a <= b <= a + {k}
  }

  lemma Grown(p: Program, q: Program, k: Key)
    requires q.managed == p.managed + {k}
    requires Wider(p.dnat.Keys, q.dnat.Keys, k) && Wider(p.marks.Keys, q.marks.Keys, k)
    requires Wider(p.routeMarks.Keys, q.routeMarks.Keys, k) && Wider(p.snat.Keys, q.snat.Keys, k)
    requires Wider(p.masquerade, q.masquerade, k) && Wider(p.paused, q.paused, k)
    requires Wider(p.draining, q.draining, k) && Wider(p.clamped, q.clamped, k)
    ensures Mentioned(q) == Mentioned(p) + {k}
  {
    hide Mentioned;
    forall x
      ensures x in Mentioned(q) <==> x in Mentioned(p) || x == k
    {
      GrownAt(p, q, k, x);
    }
  }

  lemma GrownAt(p: Program, q: Program, k: Key, x: Key)
    requires q.managed == p.managed + {k}
    requires Wider(p.dnat.Keys, q.dnat.Keys, k) && Wider(p.marks.Keys, q.marks.Keys, k)
    requires Wider(p.routeMarks.Keys, q.routeMarks.Keys, k) && Wider(p.snat.Keys, q.snat.Keys, k)
    requires Wider(p.masquerade, q.masquerade, k) && Wider(p.paused, q.paused, k)
    requires Wider(p.draining, q.draining, k) && Wider(p.clamped, q.clamped, k)
    ensures x in Mentioned(q) <==> x in Mentioned(p) || x == k
  {
  }

  lemma PutSome<T>(m: map<Key, T>, k: Key, v: T)
    ensures Put(m, k, Some(v)) == m[k := v]
  {
  }

  /** Every limit of traffic that enters here has a class: the forward's own, or else its user's. */
  predicate LimitsHaveClasses(node: Id, s: NodeState) {
    forall id :: id in s.forwards && s.forwards[id].ingress == node ==>
      var f := s.forwards[id];
      if f.rate.Some? then f.classID != 0
      else f.user in s.policies && s.policies[f.user].rate.Some? ==> s.policies[f.user].classID != 0
  }

  lemma ResolvedMeans(node: Id, s: NodeState)
    ensures ClassesResolved(node, s) <==> LimitsHaveClasses(node, s)
  {
  }

  /** CompileAt. It succeeds exactly on valid states whose limits have classes, and no two elements
      of a map ever collide. */
  method CompileAt(node: Id, s: NodeState, now: nat) returns (r: Option<Program>)
    ensures r.Some? <==> ValidNode(node, s) && ClassesResolved(node, s)
    ensures r.Some? <==> ValidNode(node, s) && LimitsHaveClasses(node, s)
    ensures r.Some? ==> Implements(r.value, node, s, now, s.forwards.Keys)
    ensures r.Some? ==> EveryKeyTreated(r.value, node, s, now)
  {
    hide ValidNode, ValidForward, Entered, Mentioned, MatchKeys, ForwardingClass, Implements, EveryKeyTreated;
    ResolvedMeans(node, s);
    hide LimitsHaveClasses;
    if !ValidNode(node, s) {
      return None;
    }
    var p := Program({}, map[], map[], map[], map[], {}, {}, {}, {});
    NothingImplemented(node, s, now);
    var ids := s.forwards.Keys;
    while ids != {}
      invariant ids <= s.forwards.Keys
      invariant Implements(p, node, s, now, s.forwards.Keys - ids)
      invariant forall id :: id in s.forwards.Keys - ids && s.forwards[id].ingress == node ==> ForwardingClass(s, s.forwards[id]).Some?
      decreases |ids|
    {
      var id :| id in ids;
      var f := s.forwards[id];
      if f.ingress == node && ForwardingClass(s, f).None? {
        return None;
      }
      p := AddForward(p, node, s, id, now, s.forwards.Keys - ids);
      assert s.forwards.Keys - (ids - {id}) == s.forwards.Keys - ids + {id};
      ids := ids - {id};
    }
    assert s.forwards.Keys - ids == s.forwards.Keys;
    EveryKeyIsTreated(p, node, s, now);
    return Some(p);
  }

  /** By the clock of the node: what is paused or force-deleted, has expired, or was drained for long enough
      is blocked; what is draining and has time left is drained; the rest is open. */
  predicate OpenOrShut(p: Program, f: Forward, k: Key, now: nat) {
    var expired := f.expiresAt.Some? && f.expiresAt.value <= now;
    var drained := f.lifecycle == Draining && f.drainDeadline.Some? && f.drainDeadline.value <= now;
    && (k in p.paused <==> f.lifecycle == Paused || f.lifecycle == ForceDeleting || expired || drained)
    && (k in p.draining <==> f.lifecycle == Draining && !expired && !drained)
  }

  /** Into a tunnel with the address the node has there, otherwise with the address asked for, or with that
      of the outgoing interface. */
  predicate LeavesAs(p: Program, node: Id, s: NodeState, f: Forward, k: Key) {
    if f.mode == ViaExit && f.ingress == node && f.link in s.links then
      k in p.snat && p.snat[k] == s.links[f.link].local.address && k !in p.masquerade
    else match f.snat
      case Static(address) => k in p.snat && p.snat[k] == address && k !in p.masquerade
      case Masquerade => k !in p.snat && k in p.masquerade
  }

  /** On its ingress, with the class of its own limit, or else of its user's; on its exit, with the number of the
      link that replies return on. The segment size is clamped exactly when there is a tunnel. */
  predicate MarkedAs(p: Program, node: Id, s: NodeState, f: Forward, k: Key) {
    var shaped: nat := if f.rate.Some? then f.classID
                       else if f.user in s.policies && s.policies[f.user].rate.Some? then s.policies[f.user].classID else 0;
    && (if f.ingress == node && shaped != 0 then k in p.marks && p.marks[k] == 0x4600_0000 + shaped else k !in p.marks)
    && (if f.ingress != node && f.mode == ViaExit && f.link in s.links then
          k in p.routeMarks && p.routeMarks[k] == 0x4700_0000 + s.links[f.link].routingID
        else k !in p.routeMarks)
    && k in p.managed && (k in p.clamped <==> f.mode == ViaExit)
  }

  /** Every key of every forward is opened or shut, leaves and is marked as its forward asks. */
  ghost predicate EveryKeyTreated(p: Program, node: Id, s: NodeState, now: nat) {
    forall id, k :: id in s.forwards && k in MatchKeys(node, s.forwards[id]) ==>
      OpenOrShut(p, s.forwards[id], k, now) && LeavesAs(p, node, s, s.forwards[id], k) && MarkedAs(p, node, s, s.forwards[id], k)
  }

  lemma EveryKeyIsTreated(p: Program, node: Id, s: NodeState, now: nat)
    requires Implements(p, node, s, now, s.forwards.Keys)
    ensures EveryKeyTreated(p, node, s, now)
  {
    hide MatchKeys, Mentioned, Entered, OpenOrShut, LeavesAs, MarkedAs;
    forall id, k | id in s.forwards && k in MatchKeys(node, s.forwards[id])
      ensures OpenOrShut(p, s.forwards[id], k, now) && LeavesAs(p, node, s, s.forwards[id], k)
      ensures MarkedAs(p, node, s, s.forwards[id], k)
    {
      KeyIsTreated(p, node, s, s.forwards[id], k, now);
    }
  }

  lemma KeyIsTreated(p: Program, node: Id, s: NodeState, f: Forward, k: Key, now: nat)
    requires Entered(p, node, s, f, k, now)
    ensures OpenOrShut(p, f, k, now) && LeavesAs(p, node, s, f, k) && MarkedAs(p, node, s, f, k)
  {
    hide TargetOf;
  }

  lemma NothingImplemented(node: Id, s: NodeState, now: nat)
    ensures Implements(Program({}, map[], map[], map[], map[], {}, {}, {}, {}), node, s, now, s.forwards.Keys - s.forwards.Keys)
  {
  }

  method AddForward(p: Program, node: Id, s: NodeState, id: Id, now: nat, done: set<Id>) returns (q: Program)
    requires ValidNode(node, s) && id in s.forwards && id !in done && done <= s.forwards.Keys
    requires Implements(p, node, s, now, done)
    ensures Implements(q, node, s, now, done + {id})
  {
    hide ValidNode, ValidForward, Entered, Mentioned, WithKey, Implements;
    var f := s.forwards[id];
    q := p;
    var protocols := f.protocols;
    FreeKeys(p, node, s, id, now, done);
    while protocols != {}
      invariant protocols <= f.protocols
      invariant Mentioned(q) == Mentioned(p) + set x | x in f.protocols - protocols :: Key(MatchOf(node, f), x)
      invariant forall x :: x in f.protocols - protocols ==> Entered(q, node, s, f, Key(MatchOf(node, f), x), now)
      invariant forall g, j :: j !in MatchKeys(node, f) ==> (Entered(q, node, s, g, j, now) <==> Entered(p, node, s, g, j, now))
      decreases |protocols|
    {
      var x :| x in protocols;
      protocols := protocols - {x};
      var k := Key(MatchOf(node, f), x);
      assert k in MatchKeys(node, f);
      WithKeyEnters(q, node, s, f, k, now);
      q := WithKey(q, node, s, f, k, now);
    }
    assert Mentioned(q) == Mentioned(p) + MatchKeys(node, f);
    ForwardAdded(p, q, node, s, id, now, done);
  }

  /** None of the forward's keys is taken by another one. */
  lemma FreeKeys(p: Program, node: Id, s: NodeState, id: Id, now: nat, done: set<Id>)
    requires ValidNode(node, s) && id in s.forwards && id !in done && done <= s.forwards.Keys
    requires Implements(p, node, s, now, done)
    ensures MatchKeys(node, s.forwards[id]) !! Mentioned(p)
    ensures forall j :: j in done ==> MatchKeys(node, s.forwards[j]) !! MatchKeys(node, s.forwards[id])
  {
    hide Entered, Mentioned, ValidForward, MatchKeys, KeysOf;
    forall j | j in done
      ensures MatchKeys(node, s.forwards[j]) !! MatchKeys(node, s.forwards[id])
    {
      KeysAgree(node, s, s.forwards[id]);
      KeysAgree(node, s, s.forwards[j]);
      assert Disjoint(node, s.forwards[j], s.forwards[id]);
    }
  }

  lemma ForwardAdded(p: Program, q: Program, node: Id, s: NodeState, id: Id, now: nat, done: set<Id>)
    requires id in s.forwards && done <= s.forwards.Keys && Implements(p, node, s, now, done)
    requires forall j :: j in done ==> MatchKeys(node, s.forwards[j]) !! MatchKeys(node, s.forwards[id])
    requires Mentioned(q) == Mentioned(p) + MatchKeys(node, s.forwards[id])
    requires forall k :: k in MatchKeys(node, s.forwards[id]) ==> Entered(q, node, s, s.forwards[id], k, now)
    requires forall g, j :: j !in MatchKeys(node, s.forwards[id]) ==> (Entered(q, node, s, g, j, now) <==> Entered(p, node, s, g, j, now))
    ensures Implements(q, node, s, now, done + {id})
  {
    hide Entered, Mentioned, MatchKeys;
    forall k | k in Mentioned(q)
      ensures exists i :: i in done + {id} && i in s.forwards && k in MatchKeys(node, s.forwards[i])
    {
      if k in MatchKeys(node, s.forwards[id]) {
        assert id in done + {id};
      } else {
        var i :| i in done && i in s.forwards && k in MatchKeys(node, s.forwards[i]);
        assert i in done + {id};
      }
    }
  }
}
