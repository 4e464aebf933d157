/** Place: one forward after the other, each on the lightest nodes that can take it. */
module Scheduling {
  import opened Spec
  import opened Ordering
  import opened Plan
  import opened Placing

  /** What placement is given besides the plan. Observations are by probing node and pool. */
  datatype World = World(
    runtimes: map<Id, Runtime>, previous: map<Id, Placement>, observations: map<(Id, Id), map<Id, Observation>>, now: int)

  /** Integers of the plan are 64-bit words. */
  predicate WordSized(p: Plan) {
    && (forall n :: n in p.nodes ==> p.nodes[n].capacity.ingress < Word() && p.nodes[n].capacity.egress < Word())
    && (forall f :: f in p.forwards ==>
          EffectiveReservation(p.forwards[f]).ingress < Word() && EffectiveReservation(p.forwards[f]).egress < Word())
  }

  function Seen(w: World, node: Id, pool: Id): map<Id, Observation> {
    if (node, pool) in w.observations then w.observations[(node, pool)] else map[]
  }

  function Prior(w: World, id: Id): Placement {
    if id in w.previous then w.previous[id] else Placement(id, "", "", "", Endpoint(0, 0), Direct, "", "")
  }

  predicate UsesNode(q: Placement, n: Id) {
    q.ingress == n || (q.mode == ViaExit && q.exit == n)
  }

  /** What the first placements book on a node, without any wrap-around. */
  function Booked(p: Plan, done: seq<Id>, pl: map<Id, Placement>, n: Id): Usage
    decreases |done|
  {
    if done == [] then Usage(0, 0, 0)
    else
      var id, rest := done[|done| - 1], Booked(p, done[..|done| - 1], pl, n);
      if id in pl && id in p.forwards && UsesNode(pl[id], n) then
        var r := EffectiveReservation(p.forwards[id]);
        Usage(rest.forwards + 1, rest.ingress + r.ingress, rest.egress + r.egress)
      else rest
  }

  function Wrapped(u: Usage): Usage {
    Usage(u.forwards, u.ingress % Word(), u.egress % Word())
  }

  function UsageFrom(p: Plan, done: seq<Id>, pl: map<Id, Placement>): map<Id, Usage> {
    map n | n in p.nodes :: Wrapped(Booked(p, done, pl, n))
  }

  /** No node carries more than its capacity. */
  predicate WithinCapacity(node: Node, u: Usage) {
    && u.forwards <= node.capacity.maxForwards
    && (node.capacity.ingress != 0 ==> u.ingress <= node.capacity.ingress)
    && (node.capacity.egress != 0 ==> u.egress <= node.capacity.egress)
  }

  function IngressAsk(f: PlannedForward): Ask {
    Ask(f, IngressRole, f.ingress, None)
  }

  function ExitAsk(f: PlannedForward, ingress: Id): Ask {
    Ask(f, ExitRole, f.exit, Some(ingress))
  }

  /** The placement of a forward, given what is booked already. */
  ghost predicate PlacedOn(p: Plan, w: World, usage: map<Id, Usage>, id: Id, q: Placement)
    requires id in p.forwards && p.forwards[id].pool in p.pools
  {
    var f, prior := p.forwards[id], Prior(w, id);
    var pool := p.pools[f.pool];
    && q.forward == id && q.mode == f.mode
    && IsChoice(p, IngressAsk(f), w.runtimes, usage, prior.ingress, q.ingress)
    && (if f.mode == ViaExit then
          && IsChoice(p, ExitAsk(f, q.ingress), w.runtimes, usage, prior.exit, q.exit)
          && q.ingress in p.nodes && q.exit in p.nodes
          && FirstMatch(p.nodes[q.ingress], p.nodes[q.exit], q.linkIn, q.linkOut)
        else q.exit == "" && q.linkIn == "" && q.linkOut == "")
    && q.backend in pool.backends && q.target == pool.backends[q.backend].target
    && IsBackend(pool, prior.backend, Seen(w, if f.mode == ViaExit then q.exit else q.ingress, f.pool), w.now, q.backend)
  }

  predicate Known(p: Plan, order: seq<Id>) {
    && (forall k :: 0 <= k < |order| ==> order[k] in p.forwards && p.forwards[order[k]].pool in p.pools)
    && forall j, k :: 0 <= j < k < |order| ==> order[j] != order[k]
  }

  /** Every forward is placed as its turn comes. */
  ghost predicate InOrder(p: Plan, w: World, order: seq<Id>, pl: map<Id, Placement>)
    requires Known(p, order)
  {
    forall k :: 0 <= k < |order| ==>
      order[k] in pl && PlacedOn(p, w, UsageFrom(p, order[..k], pl), order[k], pl[order[k]])
  }

  // ---------------------------------------------------------------- bookings

  lemma {:induction false} BookedFrame(p: Plan, done: seq<Id>, a: map<Id, Placement>, b: map<Id, Placement>, n: Id)
    requires forall id :: id in done ==> (id in a <==> id in b) && (id in a ==> a[id] == b[id])
    ensures Booked(p, done, a, n) == Booked(p, done, b, n)
    decreases |done|
  {
    hide EffectiveReservation;
    if done != [] {
      assert done[|done| - 1] in done;
      BookedFrame(p, done[..|done| - 1], a, b, n);
    }
  }

  /** An eligible node has room for the reservation: nothing wraps, and it stays within capacity. */
  lemma {:induction false} FitsLeavesRoom(p: Plan, done: seq<Id>, pl: map<Id, Placement>, n: Id, id: Id)
    requires WordSized(p) && n in p.nodes && id in p.forwards
    requires WithinCapacity(p.nodes[n], Booked(p, done, pl, n))
    requires Fits(p.nodes[n], Wrapped(Booked(p, done, pl, n)), EffectiveReservation(p.forwards[id]))
    ensures var u, r := Booked(p, done, pl, n), EffectiveReservation(p.forwards[id]);
            WithinCapacity(p.nodes[n], Usage(u.forwards + 1, u.ingress + r.ingress, u.egress + r.egress))
  {
    hide EffectiveReservation, Booked;
    var u, c := Booked(p, done, pl, n), p.nodes[n].capacity;
    if c.ingress != 0 {
      SmallWord(u.ingress);
      SmallWord(c.ingress - u.ingress);
    }
    if c.egress != 0 {
      SmallWord(u.egress);
      SmallWord(c.egress - u.egress);
    }
  }

  lemma SmallWord(x: nat)
    requires x < Word()
    ensures x % Word() == x
  {
  }

  /** Placing one more forward keeps every node within its capacity. */
  lemma {:induction false} CapacityKept(p: Plan, w: World, done: seq<Id>, pl: map<Id, Placement>, id: Id)
    requires WordSized(p) && ValidPlan(p) && id in p.forwards && p.forwards[id].pool in p.pools && id in pl && id !in done
    requires PlacedOn(p, w, UsageFrom(p, done, pl), id, pl[id])
    requires forall n :: n in p.nodes ==> WithinCapacity(p.nodes[n], Booked(p, done, pl, n))
    ensures forall n :: n in p.nodes ==> WithinCapacity(p.nodes[n], Booked(p, done + [id], pl, n))
  {
    hide WithinCapacity, Fits, ValidPlan, WordSized, EffectiveReservation, Required, Has, Selected, Facing, IsBackend, FirstMatch, Lighter;
    forall n | n in p.nodes
      ensures WithinCapacity(p.nodes[n], Booked(p, done + [id], pl, n))
    {
      assert (done + [id])[..|done|] == done;
      if UsesNode(pl[id], n) {
        assert UsageOf(UsageFrom(p, done, pl), n) == Wrapped(Booked(p, done, pl, n));
        FitsLeavesRoom(p, done, pl, n, id);
      }
    }
  }

  /** In every outcome of placement, no node exceeds any of its capacities. */
  lemma {:induction false} NeverOverCapacity(p: Plan, w: World, order: seq<Id>, pl: map<Id, Placement>, k: nat)
    requires WordSized(p) && ValidPlan(p) && Known(p, order) && InOrder(p, w, order, pl) && k <= |order|
    ensures forall n :: n in p.nodes ==> WithinCapacity(p.nodes[n], Booked(p, order[..k], pl, n))
    decreases k
  {
    hide ValidPlan, WordSized, PlacedOn;
    if k == 0 {
      forall n | n in p.nodes
        ensures WithinCapacity(p.nodes[n], Booked(p, order[..0], pl, n))
      {
        assert order[..0] == [];
      }
    } else {
      NeverOverCapacity(p, w, order, pl, k - 1);
      assert order[..k] == order[..k - 1] + [order[k - 1]];
      assert order[k - 1] !in order[..k - 1];
      CapacityKept(p, w, order[..k - 1], pl, order[k - 1]);
    }
  }

  /** The unsigned subtraction of the fit test never underflows. */
  lemma {:induction false} NeverUnderflows(p: Plan, w: World, order: seq<Id>, pl: map<Id, Placement>, k: nat, n: Id)
    requires WordSized(p) && ValidPlan(p) && Known(p, order) && InOrder(p, w, order, pl) && k <= |order| && n in p.nodes
    ensures var u, c := Wrapped(Booked(p, order[..k], pl, n)), p.nodes[n].capacity;
            && (c.ingress != 0 ==> Minus(c.ingress, u.ingress) == c.ingress - u.ingress >= 0)
            && (c.egress != 0 ==> Minus(c.egress, u.egress) == c.egress - u.egress >= 0)
  {
    hide ValidPlan, Booked, InOrder;
    NeverOverCapacity(p, w, order, pl, k);
    var u, c := Booked(p, order[..k], pl, n), p.nodes[n].capacity;
    assert WithinCapacity(p.nodes[n], u);
    if c.ingress != 0 {
      SmallWord(u.ingress);
      SmallWord(c.ingress - u.ingress);
    }
    if c.egress != 0 {
      SmallWord(u.egress);
      SmallWord(c.egress - u.egress);
    }
  }

  /** The fit test on unsigned words says exactly whether there is room: for one more forward, and for what
      it reserves, or else may use by its rate limit, on top of what is booked. */
  lemma {:induction false} FitsExactly(p: Plan, w: World, order: seq<Id>, pl: map<Id, Placement>, k: nat, n: Id, id: Id)
    requires WordSized(p) && ValidPlan(p) && Known(p, order) && InOrder(p, w, order, pl) && k <= |order|
    requires n in p.nodes && id in p.forwards
    ensures var u, c, f := Booked(p, order[..k], pl, n), p.nodes[n].capacity, p.forwards[id];
            Fits(p.nodes[n], UsageOf(UsageFrom(p, order[..k], pl), n), EffectiveReservation(f)) <==>
            && u.forwards < c.maxForwards
            && (c.ingress == 0 || u.ingress + Promised(f.reservation.ingress, f.rate, Inward) <= c.ingress)
            && (c.egress == 0 || u.egress + Promised(f.reservation.egress, f.rate, Outward) <= c.egress)
  {
    hide ValidPlan, Booked, InOrder;
    NeverUnderflows(p, w, order, pl, k, n);
    NeverOverCapacity(p, w, order, pl, k);
    UsageAt(p, order[..k], pl, n);
    var u, c := Booked(p, order[..k], pl, n), p.nodes[n].capacity;
    assert WithinCapacity(p.nodes[n], u);
    if c.ingress != 0 {
      SmallWord(u.ingress);
    }
    if c.egress != 0 {
      SmallWord(u.egress);
    }
  }

  datatype Way = Inward | Outward

  /** What a forward may use one way: its reservation, or without one its rate limit, if any. */
  function Promised(reserved: nat, rate: Option<RateLimit>, way: Way): nat {
    if reserved != 0 || rate.None? then reserved
    else match way
      case Inward => rate.value.ingress
      case Outward => rate.value.egress
  }

  /** Every forward is where its plan asks for it: on nodes that are available, play the role, match the
      selector and are told apart by failure domain if that is required. */
  lemma PlacedAsAsked(p: Plan, w: World, order: seq<Id>, pl: map<Id, Placement>, id: Id)
    requires ValidPlan(p) && Known(p, order) && InOrder(p, w, order, pl) && id in order
    ensures id in pl && id in p.forwards
    ensures var q, f := pl[id], p.forwards[id];
            && q.forward == id && q.mode == f.mode
            && Suited(p, w.runtimes, IngressRole, f.ingress, q.ingress)
            && (f.mode == ViaExit ==>
                  && Suited(p, w.runtimes, ExitRole, f.exit, q.exit) && q.exit != q.ingress
                  && (f.domains == Distinct ==> p.nodes[q.exit].domain != p.nodes[q.ingress].domain))
            && (f.mode == Direct ==> q.exit == "")
  {
    hide ValidPlan, Eligible, IsBackend, FirstMatch, Lighter, UsageFrom, Suited;
    var k :| 0 <= k < |order| && order[k] == id;
    var q, f, usage := pl[id], p.forwards[id], UsageFrom(p, order[..k], pl);
    assert PlacedOn(p, w, usage, id, q);
    EligibleIsSuited(p, IngressAsk(f), w.runtimes, usage, q.ingress);
    if f.mode == ViaExit {
      EligibleIsSuited(p, ExitAsk(f, q.ingress), w.runtimes, usage, q.exit);
    }
  }

  /** A forward stays where it was if it may, and goes to a node that is as good as any other if not. */
  lemma PlacedOnTheLightest(p: Plan, w: World, order: seq<Id>, pl: map<Id, Placement>, k: nat)
    requires ValidPlan(p) && Known(p, order) && InOrder(p, w, order, pl) && k < |order|
    ensures order[k] in pl && order[k] in p.forwards && p.forwards[order[k]].pool in p.pools
    ensures var q, f, usage := pl[order[k]], p.forwards[order[k]], UsageFrom(p, order[..k], pl);
            var before := if order[k] in w.previous then w.previous[order[k]].ingress else "";
            if before != "" && Eligible(p, IngressAsk(f), w.runtimes, usage, before) then q.ingress == before
            else q.ingress in p.nodes && forall m :: Eligible(p, IngressAsk(f), w.runtimes, usage, m) ==>
                   m in p.nodes && AsGood(p, IngressAsk(f), usage, q.ingress, m)
    ensures var q, f, usage := pl[order[k]], p.forwards[order[k]], UsageFrom(p, order[..k], pl);
            var before := if order[k] in w.previous then w.previous[order[k]].exit else "";
            f.mode == ViaExit ==>
              if before != "" && Eligible(p, ExitAsk(f, q.ingress), w.runtimes, usage, before) then q.exit == before
              else q.exit in p.nodes && forall m :: Eligible(p, ExitAsk(f, q.ingress), w.runtimes, usage, m) ==>
                     m in p.nodes && AsGood(p, ExitAsk(f, q.ingress), usage, q.exit, m)
  {
    hide ValidPlan, Eligible, IsBackend, FirstMatch, Lighter, UsageFrom, AsGood;
    var q, f, usage := pl[order[k]], p.forwards[order[k]], UsageFrom(p, order[..k], pl);
    assert PlacedOn(p, w, usage, order[k], q);
    var prior := Prior(w, order[k]);
    if prior.ingress == "" || !Eligible(p, IngressAsk(f), w.runtimes, usage, prior.ingress) {
      ChoiceIsBest(p, IngressAsk(f), w.runtimes, usage, prior.ingress, q.ingress);
    }
    if f.mode == ViaExit && (prior.exit == "" || !Eligible(p, ExitAsk(f, q.ingress), w.runtimes, usage, prior.exit)) {
      ChoiceIsBest(p, ExitAsk(f, q.ingress), w.runtimes, usage, prior.exit, q.exit);
    }
  }

  /** The backend of a forward is the one whose target it has, and if the node that hands traffic to it saw some
      backend healthy and not too long ago, it saw this one so too, and of no worse priority. */
  lemma PlacedOnAHealthyBackend(p: Plan, w: World, order: seq<Id>, pl: map<Id, Placement>, id: Id, x: Id)
    requires ValidPlan(p) && Known(p, order) && InOrder(p, w, order, pl) && id in order
    ensures id in pl && id in p.forwards && p.forwards[id].pool in p.pools
    ensures var q, pool := pl[id], p.pools[p.forwards[id].pool];
            && q.backend in pool.backends && q.target == pool.backends[q.backend].target
            && var node := if q.mode == ViaExit then q.exit else q.ingress;
               (x in pool.backends && SeenHealthy(w, pool, (node, p.forwards[id].pool), x) ==>
                  && SeenHealthy(w, pool, (node, p.forwards[id].pool), q.backend)
                  && pool.backends[q.backend].priority <= pool.backends[x].priority)
  {
    hide ValidPlan, IsChoice, FirstMatch, UsageFrom, IsBackend, Booked;
    var k :| 0 <= k < |order| && order[k] == id;
    assert PlacedOn(p, w, UsageFrom(p, order[..k], pl), id, pl[id]);
    var q, pool := pl[id], p.pools[p.forwards[id].pool];
    var node := if q.mode == ViaExit then q.exit else q.ingress;
    if x in pool.backends && SeenHealthy(w, pool, (node, p.forwards[id].pool), x) {
      HealthyIsPreferred(pool, Prior(w, id).backend, Seen(w, node, p.forwards[id].pool), w.now, q.backend, x);
    }
  }

  /** The place saw the backend, as it is now, healthy, and neither more than its time ago nor ahead of the clock. */
  predicate SeenHealthy(w: World, pool: Pool, place: (Id, Id), b: Id) {
    && pool.health.Some? && b in pool.backends && place in w.observations && pool.backends[b].id in w.observations[place]
    && var o := w.observations[place][pool.backends[b].id];
       o.status == Healthy && o.version == pool.backends[b].version
       && o.at - 300 <= w.now <= o.at + pool.health.value.staleAfter
  }

  // ---------------------------------------------------------------- the outcome is determined

  lemma PlacedOnIsUnique(p: Plan, w: World, usage: map<Id, Usage>, id: Id, a: Placement, b: Placement)
    requires ValidPlan(p) && id in p.forwards && p.forwards[id].pool in p.pools
    requires PlacedOn(p, w, usage, id, a) && PlacedOn(p, w, usage, id, b)
    ensures a == b
  {
    hide ValidPlan, IsChoice, FirstMatch, IsBackend;
    var f, prior := p.forwards[id], Prior(w, id);
    ChoiceIsUnique(p, IngressAsk(f), w.runtimes, usage, prior.ingress, a.ingress, b.ingress);
    if f.mode == ViaExit {
      ChoiceIsUnique(p, ExitAsk(f, a.ingress), w.runtimes, usage, prior.exit, a.exit, b.exit);
      FirstMatchIsUnique(p.nodes[a.ingress], p.nodes[a.exit], a.linkIn, a.linkOut);
    }
    BackendIsUnique(p.pools[f.pool], prior.backend, Seen(w, if f.mode == ViaExit then a.exit else a.ingress, f.pool), w.now, a.backend, b.backend);
  }

  lemma BackendIsUnique(pool: Pool, previous: Id, seen: map<Id, Observation>, now: int, a: Id, b: Id)
    requires IsBackend(pool, previous, seen, now, a) && IsBackend(pool, previous, seen, now, b)
    ensures a == b
  {
    hide StatusOf;
    BeforeIsStrict(a, b);
  }

  /** Whatever the order in which maps of nodes and backends are visited, placement has one outcome. */
  lemma {:induction false} OutcomeIsDetermined(p: Plan, w: World, order: seq<Id>, a: map<Id, Placement>, b: map<Id, Placement>, k: nat)
    requires ValidPlan(p) && Known(p, order) && k <= |order|
    requires InOrder(p, w, order, a) && InOrder(p, w, order, b)
    ensures forall i :: 0 <= i < k ==> a[order[i]] == b[order[i]]
    decreases k
  {
    hide ValidPlan, PlacedOn;
    if k > 0 {
      OutcomeIsDetermined(p, w, order, a, b, k - 1);
      forall n | n in p.nodes
        ensures Booked(p, order[..k - 1], a, n) == Booked(p, order[..k - 1], b, n)
      {
        BookedFrame(p, order[..k - 1], a, b, n);
      }
      assert UsageFrom(p, order[..k - 1], a) == UsageFrom(p, order[..k - 1], b);
      PlacedOnIsUnique(p, w, UsageFrom(p, order[..k - 1], a), order[k - 1], a[order[k - 1]], b[order[k - 1]]);
    }
  }

  // ---------------------------------------------------------------- the scheduler

  /** No node can take the forward as things stand. */
  ghost predicate Unplaceable(p: Plan, w: World, usage: map<Id, Usage>, id: Id)
    requires id in p.forwards && p.forwards[id].pool in p.pools
  {
    var f := p.forwards[id];
    || (forall n :: !Eligible(p, IngressAsk(f), w.runtimes, usage, n))
    || (f.mode == ViaExit && exists m ::
          && IsChoice(p, IngressAsk(f), w.runtimes, usage, Prior(w, id).ingress, m)
          && forall n :: !Eligible(p, ExitAsk(f, m), w.runtimes, usage, n))
  }

  lemma UnplaceableMeans(p: Plan, w: World, usage: map<Id, Usage>, id: Id, q: Placement)
    requires ValidPlan(p) && id in p.forwards && p.forwards[id].pool in p.pools
    requires Unplaceable(p, w, usage, id)
    ensures !PlacedOn(p, w, usage, id, q)
  {
    hide ValidPlan, Eligible, FirstMatch, IsBackend, Lighter;
    if PlacedOn(p, w, usage, id, q) {
      var f := p.forwards[id];
      var m :| IsChoice(p, IngressAsk(f), w.runtimes, usage, Prior(w, id).ingress, m)
               && forall n :: !Eligible(p, ExitAsk(f, m), w.runtimes, usage, n);
      ChoiceIsUnique(p, IngressAsk(f), w.runtimes, usage, Prior(w, id).ingress, m, q.ingress);
    }
  }

  /** Where the next forward cannot be placed, no placement of all of them is in order. */
  lemma FailureIsFinal(p: Plan, w: World, order: seq<Id>, k: nat, pl: map<Id, Placement>, other: map<Id, Placement>)
    requires ValidPlan(p) && Known(p, order) && k < |order| && InOrder(p, w, order[..k], pl)
    requires Unplaceable(p, w, UsageFrom(p, order[..k], pl), order[k])
    ensures !InOrder(p, w, order, other)
  {
    hide ValidPlan, PlacedOn, Unplaceable;
    if InOrder(p, w, order, other) {
      forall i | 0 <= i < k
        ensures order[..k][..i] == order[..i]
      {
      }
      OutcomeIsDetermined(p, w, order[..k], pl, other, k);
      forall n | n in p.nodes
        ensures Booked(p, order[..k], pl, n) == Booked(p, order[..k], other, n)
      {
        BookedFrame(p, order[..k], pl, other, n);
      }
      assert UsageFrom(p, order[..k], pl) == UsageFrom(p, order[..k], other);
      UnplaceableMeans(p, w, UsageFrom(p, order[..k], pl), order[k], other[order[k]]);
      assert false;
    }
  }

  method PlaceForward(p: Plan, w: World, usage: map<Id, Usage>, id: Id) returns (r: Option<Placement>)
    requires ValidPlan(p) && id in p.forwards && p.forwards[id].pool in p.pools
    ensures r.Some? ==> PlacedOn(p, w, usage, id, r.value)
    ensures r.None? ==> Unplaceable(p, w, usage, id)
  {
    hide Eligible, FirstMatch, Matching, IsBackend, Lighter;
    var f, prior := p.forwards[id], Prior(w, id);
    var pool := p.pools[f.pool];
    assert pool.backends != map[];
    hide ValidPlan;
    var ingress := ChooseNode(p, IngressAsk(f), w.runtimes, usage, prior.ingress);
    if ingress.None? {
      return None;
    }
    EligibleIsNode(p, IngressAsk(f), w.runtimes, usage);
    var q := Placement(id, ingress.value, "", "", f.listen, f.mode, "", "");
    var probe := ingress.value;
    if f.mode == ViaExit {
      var exit := ChooseNode(p, ExitAsk(f, ingress.value), w.runtimes, usage, prior.exit);
      if exit.None? {
        return None;
      }
      EligibleIsNode(p, ExitAsk(f, ingress.value), w.runtimes, usage);
      EligibleHasLinks(p, f, w.runtimes, usage, ingress.value, exit.value);
      var links := MatchingLinks(p.nodes[ingress.value], p.nodes[exit.value]);
      q := q.(exit := exit.value, linkIn := links.value.0, linkOut := links.value.1);
      probe := exit.value;
    }
    var backend := ChooseBackend(pool, prior.backend, Seen(w, probe, f.pool), w.now);
    return Some(q.(backend := backend, target := pool.backends[backend].target));
  }

  lemma EligibleHasLinks(p: Plan, f: PlannedForward, runtimes: map<Id, Runtime>, usage: map<Id, Usage>, m: Id, n: Id)
    requires f.pool in p.pools && Eligible(p, ExitAsk(f, m), runtimes, usage, n)
    ensures m in p.nodes && n in p.nodes && m != n
    ensures exists i, o :: Matching(p.nodes[m], p.nodes[n], i, o)
  {
    hide Matching, Has, Required, Fits;
  }

  /** Place: the forwards in canonical order. */
  method Place(p: Plan, w: World, order: seq<Id>) returns (r: Option<map<Id, Placement>>)
    requires ValidPlan(p) && Known(p, order)
    ensures r.Some? ==> (forall id :: id in r.value <==> id in order) && InOrder(p, w, order, r.value)
    ensures r.None? ==> exists k, pl :: 0 <= k < |order| && InOrder(p, w, order[..k], pl)
                                         && Unplaceable(p, w, UsageFrom(p, order[..k], pl), order[k])
    ensures r.None? ==> forall pl :: !InOrder(p, w, order, pl)
  {
    hide ValidPlan, PlacedOn, Unplaceable, UsageFrom, InOrder;
    var pl: map<Id, Placement> := map[];
    var usage := map n | n in p.nodes :: Usage(0, 0, 0);
    NothingBooked(p, w, order);
    for k := 0 to |order|
      invariant forall id :: id in pl <==> id in order[..k]
      invariant usage == UsageFrom(p, order[..k], pl)
      invariant Known(p, order[..k]) && InOrder(p, w, order[..k], pl)
    {
      var id := order[k];
      var q := PlaceForward(p, w, usage, id);
      if q.None? {
        forall other
          ensures !InOrder(p, w, order, other)
        {
          FailureIsFinal(p, w, order, k, pl, other);
        }
        return None;
      }
      assert order[..k + 1] == order[..k] + [id];
      assert id !in order[..k];
      OneMorePlaced(p, w, order[..k], pl, id, q.value);
      pl := pl[id := q.value];
      var r := EffectiveReservation(p.forwards[id]);
      if q.value.mode == ViaExit {
        usage := Consume(usage, q.value.exit, r);
      }
      usage := Consume(usage, q.value.ingress, r);
    }
    assert order[..|order|] == order;
    return Some(pl);
  }

  lemma NothingBooked(p: Plan, w: World, order: seq<Id>)
    requires Known(p, order)
    ensures UsageFrom(p, order[..0], map[]) == map n | n in p.nodes :: Usage(0, 0, 0)
    ensures Known(p, order[..0]) && InOrder(p, w, order[..0], map[])
  {
    assert order[..0] == [];
  }

  /** One more placement: the booked usage is what consuming it step by step gives. */
  lemma OneMorePlaced(p: Plan, w: World, done: seq<Id>, pl: map<Id, Placement>, id: Id, q: Placement)
    requires Known(p, done) && InOrder(p, w, done, pl) && (forall x :: x in pl <==> x in done)
    requires id in p.forwards && p.forwards[id].pool in p.pools && id !in done
    requires PlacedOn(p, w, UsageFrom(p, done, pl), id, q)
    ensures Known(p, done + [id]) && InOrder(p, w, done + [id], pl[id := q])
    ensures var r, usage := EffectiveReservation(p.forwards[id]), UsageFrom(p, done, pl);
            UsageFrom(p, done + [id], pl[id := q]) ==
            Consume(if q.mode == ViaExit then Consume(usage, q.exit, r) else usage, q.ingress, r)
  {
    hide EffectiveReservation, PlacedOn, UsageFrom, Booked;
    var more, order := pl[id := q], done + [id];
    StillKnown(p, done, id);
    forall k | 0 <= k < |order|
      ensures order[k] in more && PlacedOn(p, w, UsageFrom(p, order[..k], more), order[k], more[order[k]])
    {
      SamePrefix(p, done, id, pl, q, k);
      if k < |done| {
        assert order[k] == done[k] && done[k] in done;
      } else {
        assert done[..k] == done;
      }
    }
    ConsumedUsage(p, w, done, pl, id, q);
  }

  lemma StillKnown(p: Plan, done: seq<Id>, id: Id)
    requires Known(p, done) && id in p.forwards && p.forwards[id].pool in p.pools && id !in done
    ensures Known(p, done + [id])
  {
  }

  lemma SamePrefix(p: Plan, done: seq<Id>, id: Id, pl: map<Id, Placement>, q: Placement, k: nat)
    requires k <= |done| && id !in done && forall x :: x in pl <==> x in done
    ensures (done + [id])[..k] == done[..k]
    ensures UsageFrom(p, (done + [id])[..k], pl[id := q]) == UsageFrom(p, done[..k], pl)
  {
    hide Booked;
    forall n | n in p.nodes
      ensures Booked(p, done[..k], pl[id := q], n) == Booked(p, done[..k], pl, n)
    {
      forall x | x in done[..k]
        ensures x != id
      {
        assert x in done;
      }
      BookedFrame(p, done[..k], pl[id := q], pl, n);
    }
  }

  lemma ConsumedUsage(p: Plan, w: World, done: seq<Id>, pl: map<Id, Placement>, id: Id, q: Placement)
    requires id in p.forwards && p.forwards[id].pool in p.pools && id !in done && (forall x :: x in pl <==> x in done)
    requires PlacedOn(p, w, UsageFrom(p, done, pl), id, q)
    ensures var r, usage := EffectiveReservation(p.forwards[id]), UsageFrom(p, done, pl);
            UsageFrom(p, done + [id], pl[id := q]) ==
            Consume(if q.mode == ViaExit then Consume(usage, q.exit, r) else usage, q.ingress, r)
  {
    hide EffectiveReservation, PlacedOn, Booked, Wrapped, UsageFrom, UsesNode;
    var r, usage := EffectiveReservation(p.forwards[id]), UsageFrom(p, done, pl);
    ChosenAreNodes(p, w, usage, id, q);
    UsageKeys(p, done, pl);
    UsageKeys(p, done + [id], pl[id := q]);
    var a, b := UsageFrom(p, done + [id], pl[id := q]), Consume(if q.mode == ViaExit then Consume(usage, q.exit, r) else usage, q.ingress, r);
    forall n | n in p.nodes
      ensures n in a && n in b && n in usage && a[n] == b[n]
    {
      UsageAt(p, done, pl, n);
      UsageAt(p, done + [id], pl[id := q], n);
      ConsumedAt(p, done, pl, id, q, n);
      ConsumedOn(p, usage, q, r, n);
    }
    ConsumedKeys(usage, q, r, p.nodes.Keys);
  }

  lemma {:induction false} UsageAt(p: Plan, done: seq<Id>, pl: map<Id, Placement>, n: Id)
    requires n in p.nodes
    ensures n in UsageFrom(p, done, pl) && UsageFrom(p, done, pl)[n] == Wrapped(Booked(p, done, pl, n))
  {
    hide Booked, Wrapped;
  }

  lemma UsageKeys(p: Plan, done: seq<Id>, pl: map<Id, Placement>)
    ensures UsageFrom(p, done, pl).Keys == p.nodes.Keys
  {
    hide Booked, Wrapped;
  }

  lemma ConsumedKeys(usage: map<Id, Usage>, q: Placement, r: Reservation, nodes: set<Id>)
    requires usage.Keys == nodes && q.ingress in nodes && (q.mode == ViaExit ==> q.exit in nodes)
    ensures Consume(if q.mode == ViaExit then Consume(usage, q.exit, r) else usage, q.ingress, r).Keys == nodes
  {
  }

  /** What the bookings of a node become, and what consuming gives there. */
  lemma {:induction false} ConsumedAt(p: Plan, done: seq<Id>, pl: map<Id, Placement>, id: Id, q: Placement, n: Id)
    requires id in p.forwards && n in p.nodes && id !in done && forall x :: x in pl <==> x in done
    ensures var u, r := Wrapped(Booked(p, done, pl, n)), EffectiveReservation(p.forwards[id]);
            Wrapped(Booked(p, done + [id], pl[id := q], n)) ==
            if UsesNode(q, n) then Usage(u.forwards + 1, (u.ingress + r.ingress) % Word(), (u.egress + r.egress) % Word()) else u
  {
    hide EffectiveReservation, Wrapped, Booked;
    forall x | x in done
      ensures x != id
    {
    }
    BookedNext(p, done, pl, id, q, n);
    BookedFrame(p, done, pl[id := q], pl, n);
    WrapAdds(Booked(p, done, pl, n), EffectiveReservation(p.forwards[id]));
  }

  lemma ConsumedOn(p: Plan, usage: map<Id, Usage>, q: Placement, r: Reservation, n: Id)
    requires n in usage && q.ingress in usage && (q.mode == ViaExit ==> q.exit in usage && q.exit != q.ingress)
    ensures var b, u := Consume(if q.mode == ViaExit then Consume(usage, q.exit, r) else usage, q.ingress, r), usage[n];
            n in b && b[n] ==
            if UsesNode(q, n) then Usage(u.forwards + 1, (u.ingress + r.ingress) % Word(), (u.egress + r.egress) % Word()) else u
  {
  }

  lemma ChosenAreNodes(p: Plan, w: World, usage: map<Id, Usage>, id: Id, q: Placement)
    requires id in p.forwards && p.forwards[id].pool in p.pools && PlacedOn(p, w, usage, id, q)
    ensures q.ingress in p.nodes
    ensures q.mode == ViaExit ==> q.exit in p.nodes && q.exit != q.ingress
  {
    hide IsBackend, FirstMatch, Fits, Has, Required, Lighter;
  }

  lemma {:induction false} BookedNext(p: Plan, done: seq<Id>, pl: map<Id, Placement>, id: Id, q: Placement, n: Id)
    requires id in p.forwards
    ensures var u, r := Booked(p, done, pl[id := q], n), EffectiveReservation(p.forwards[id]);
            Booked(p, done + [id], pl[id := q], n) ==
            if UsesNode(q, n) then Usage(u.forwards + 1, u.ingress + r.ingress, u.egress + r.egress) else u
  {
    hide EffectiveReservation;
    assert (done + [id])[..|done|] == done;
  }

  lemma WrapAdds(u: Usage, r: Reservation)
    ensures Wrapped(Usage(u.forwards + 1, u.ingress + r.ingress, u.egress + r.egress)) ==
            Usage(Wrapped(u).forwards + 1, (Wrapped(u).ingress + r.ingress) % Word(), (Wrapped(u).egress + r.egress) % Word())
  {
    ModAdds(u.ingress, r.ingress);
    ModAdds(u.egress, r.egress);
  }

  lemma ModAdds(a: nat, b: nat)
    ensures (a % Word() + b) % Word() == (a + b) % Word()
  {
    assert a == a / Word() * Word() + a % Word();
  }
}
