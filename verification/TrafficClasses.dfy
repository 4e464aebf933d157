/** Publishing one state to one node: its rate limits get traffic classes from a table that never
    forgets an allocation, and what comes out is the state that was asked for, still valid, and one
    the node's compiler accepts. */
module TrafficClasses {
  import opened Spec
  import opened Ordering
  import Nft = NftProgram
  import opened RolloutPlan
  import Machine = RolloutMachine

  const FIRST_CLASS: nat := 2

  const LAST_CLASS: nat := 65534

  /** States of older schemas carry no traffic classes. */
  const CLASS_SCHEMA: nat := 2

  datatype Owner = OfUser(id: Id) | OfForward(id: Id)

  /** The allocation rows of one node. */
  predicate Allocated(rows: map<Owner, nat>) {
    && (forall o :: o in rows ==> FIRST_CLASS <= rows[o] <= LAST_CLASS)
    && (forall o, q :: o in rows && q in rows && o != q ==> rows[o] != rows[q])
  }

  function ClassesOf(rows: map<Owner, nat>): set<nat> {
    set o | o in rows :: rows[o]
  }

  predicate Exhausted(rows: map<Owner, nat>) {
    forall c :: FIRST_CLASS <= c <= LAST_CLASS ==> c in ClassesOf(rows)
  }

  predicate UserLimited(node: Id, s: NodeState, u: Id) {
    && u in s.policies && s.policies[u].rate.Some?
    && exists id :: id in s.forwards && s.forwards[id].ingress == node && s.forwards[id].user == u
  }

  predicate ForwardLimited(node: Id, s: NodeState, id: Id) {
    id in s.forwards && s.forwards[id].ingress == node && s.forwards[id].rate.Some?
  }

  /** Everything that needs a class on the node. */
  function Owners(node: Id, s: NodeState): set<Owner> {
    UserOwners(node, s) + ForwardOwners(node, s)
  }

  function UserOwners(node: Id, s: NodeState): set<Owner> {
    set u | u in s.policies && UserLimited(node, s, u) :: OfUser(u)
  }

  function ForwardOwners(node: Id, s: NodeState): set<Owner> {
    set id | id in s.forwards && ForwardLimited(node, s, id) :: OfForward(id)
  }

  /** The state with the classes of the table: nothing that is not limited here has one. */
  function Resolved(node: Id, s: NodeState, rows: map<Owner, nat>): NodeState {
    s.(policies := map u | u in s.policies :: UserWith(node, s, rows, u),
       forwards := map id | id in s.forwards :: ForwardWith(node, s, rows, id))
  }

  function UserWith(node: Id, s: NodeState, rows: map<Owner, nat>, u: Id): Policy
    requires u in s.policies
  {
    s.policies[u].(classID := if UserLimited(node, s, u) && OfUser(u) in rows then rows[OfUser(u)] else 0)
  }

  function ForwardWith(node: Id, s: NodeState, rows: map<Owner, nat>, id: Id): Forward
    requires id in s.forwards
  {
    s.forwards[id].(classID := if ForwardLimited(node, s, id) && OfForward(id) in rows then rows[OfForward(id)] else 0)
  }

  /** There are classes for that many owners. */
  predicate Room(owners: set<Owner>) {
    |owners| <= LAST_CLASS + 1 - FIRST_CLASS
  }

  /** No allocation is ever changed or taken back. */
  predicate Kept(before: map<Owner, nat>, after: map<Owner, nat>) {
    forall o :: o in before ==> o in after && after[o] == before[o]
  }

  /** What publishing makes of a desired state. */
  function Published(node: Id, s: NodeState, rows: map<Owner, nat>): NodeState {
    if Canon(s).schema >= CLASS_SCHEMA then Resolved(node, Canon(s), rows) else Canon(s)
  }

  class ClassTable {
    var rows: map<Owner, nat>

    ghost predicate Valid()
      reads this
    {
      Allocated(rows)
    }

    constructor ()
      ensures Valid() && rows == map[]
    {
      rows := map[];
    }

    /** allocateTrafficClass: an owner keeps its class for good; a new one gets the lowest class that
        is free, found by walking the allocated ones in ascending order. */
    method Allocate(owner: Owner) returns (r: Option<nat>)
      requires Valid()
      modifies this
      ensures Valid()
      ensures r.Some? ==> rows == old(rows)[owner := r.value]
      ensures owner in old(rows) ==> r == Some(old(rows)[owner])
      ensures owner !in old(rows) && r.Some? ==>
        r.value !in ClassesOf(old(rows)) && forall c :: FIRST_CLASS <= c < r.value ==> c in ClassesOf(old(rows))
      ensures r.None? <==> owner !in old(rows) && Exhausted(old(rows))
      ensures r.None? ==> rows == old(rows) && forall c :: 2 <= c <= 65534 ==> c in ClassesOf(rows)
      ensures r.Some? ==> 2 <= r.value <= 65534
    {
      if owner in rows {
        return Some(rows[owner]);
      }
      var classes := SortSet(ClassesOf(rows), Ascending());
      var candidate := FIRST_CLASS;
      for i := 0 to |classes|
        invariant FIRST_CLASS <= candidate
        invariant forall c :: FIRST_CLASS <= c < candidate ==> c in classes
        invariant forall k :: 0 <= k < i ==> classes[k] < candidate
      {
        if classes[i] < candidate {
          continue;
        }
        if classes[i] == candidate {
          candidate := candidate + 1;
          continue;
        }
        break;
      }
      assert candidate !in classes;
      if candidate > LAST_CLASS {
        return None;
      }
      rows := rows[owner := candidate];
      return Some(candidate);
    }

    /** The class of one user policy, if it needs one. */
    method GiveUser(node: Id, s: NodeState, u: Id) returns (ok: bool, given: Policy)
      requires Valid() && u in s.policies
      modifies this
      ensures Valid() && Kept(old(rows), rows)
      ensures rows.Keys == old(rows).Keys + if ok && UserLimited(node, s, u) then {OfUser(u)} else {}
      ensures ok ==> given == UserWith(node, s, rows, u)
      ensures !ok ==> Exhausted(rows) && UserLimited(node, s, u) && OfUser(u) !in rows
    {
      hide Allocated, Exhausted, UserLimited, ClassesOf;
      ok, given := true, s.policies[u].(classID := 0);
      if UserLimited(node, s, u) {
        var number := Allocate(OfUser(u));
        if number.None? {
          ok := false;
        } else {
          given := s.policies[u].(classID := number.value);
        }
      }
    }

    /** The loop over user policies. */
    method ResolvePolicies(node: Id, s: NodeState) returns (ok: bool, policies: map<Id, Policy>)
      requires Valid()
      modifies this
      ensures Valid() && Kept(old(rows), rows) && rows.Keys <= old(rows).Keys + UserOwners(node, s)
      ensures ok ==> UserOwners(node, s) <= rows.Keys
      ensures ok ==> policies.Keys == s.policies.Keys && forall u :: u in policies ==> policies[u] == UserWith(node, s, rows, u)
      ensures !ok ==> Exhausted(rows) && !(UserOwners(node, s) <= rows.Keys)
    {
      hide Allocated, Exhausted, UserLimited, UserWith;
      policies := s.policies;
      var users := s.policies.Keys;
      while users != {}
        invariant Valid() && users <= s.policies.Keys == policies.Keys
        invariant Kept(old(rows), rows) && rows.Keys <= old(rows).Keys + UserOwners(node, s)
        invariant forall u :: u in policies && u !in users ==>
          (UserLimited(node, s, u) ==> OfUser(u) in rows) && policies[u] == UserWith(node, s, rows, u)
        decreases |users|
      {
        var u :| u in users;
        users := users - {u};
        assert UserLimited(node, s, u) ==> OfUser(u) in UserOwners(node, s);
        ghost var before := rows;
        var given;
        ok, given := GiveUser(node, s, u);
        if !ok {
          return;
        }
        SameUsers(node, s, before, rows);
        policies := policies[u := given];
      }
      ok := true;
    }

    /** The class of one forward, if it needs one. */
    method GiveForward(node: Id, s: NodeState, id: Id) returns (ok: bool, given: Forward)
      requires Valid() && id in s.forwards
      modifies this
      ensures Valid() && Kept(old(rows), rows)
      ensures rows.Keys == old(rows).Keys + if ok && ForwardLimited(node, s, id) then {OfForward(id)} else {}
      ensures ok ==> given == ForwardWith(node, s, rows, id)
      ensures !ok ==> Exhausted(rows) && ForwardLimited(node, s, id) && OfForward(id) !in rows
    {
      hide Allocated, Exhausted, ForwardLimited, ClassesOf;
      ok, given := true, s.forwards[id].(classID := 0);
      if ForwardLimited(node, s, id) {
        var number := Allocate(OfForward(id));
        if number.None? {
          ok := false;
        } else {
          given := s.forwards[id].(classID := number.value);
        }
      }
    }

    /** The loop over forwards. */
    method ResolveForwards(node: Id, s: NodeState) returns (ok: bool, forwards: map<Id, Forward>)
      requires Valid()
      modifies this
      ensures Valid() && Kept(old(rows), rows) && rows.Keys <= old(rows).Keys + ForwardOwners(node, s)
      ensures ok ==> ForwardOwners(node, s) <= rows.Keys
      ensures ok ==> forwards.Keys == s.forwards.Keys && forall id :: id in forwards ==> forwards[id] == ForwardWith(node, s, rows, id)
      ensures !ok ==> Exhausted(rows) && !(ForwardOwners(node, s) <= rows.Keys)
    {
      hide Allocated, Exhausted, ForwardLimited, ForwardWith;
      forwards := s.forwards;
      var ids := s.forwards.Keys;
      while ids != {}
        invariant Valid() && ids <= s.forwards.Keys == forwards.Keys
        invariant Kept(old(rows), rows) && rows.Keys <= old(rows).Keys + ForwardOwners(node, s)
        invariant forall id :: id in forwards && id !in ids ==>
          (ForwardLimited(node, s, id) ==> OfForward(id) in rows) && forwards[id] == ForwardWith(node, s, rows, id)
        decreases |ids|
      {
        var id :| id in ids;
        ids := ids - {id};
        assert ForwardLimited(node, s, id) ==> OfForward(id) in ForwardOwners(node, s);
        ghost var before := rows;
        var given;
        ok, given := GiveForward(node, s, id);
        if !ok {
          return;
        }
        SameForwards(node, s, before, rows);
        forwards := forwards[id := given];
      }
      ok := true;
    }

    /** resolveTrafficClasses: users first, then forwards; the whole state or, without a trace, none of
        it. It fails exactly when more owners would have a class than there are classes. */
    method Resolve(node: Id, s: NodeState) returns (r: Option<NodeState>)
      requires Valid()
      modifies this
      ensures Valid() && Kept(old(rows), rows)
      ensures r.Some? <==> Room(old(rows).Keys + Owners(node, s))
      ensures r.Some? ==> r.value == Resolved(node, s, rows) && rows.Keys == old(rows).Keys + Owners(node, s)
      ensures r.None? ==> rows == old(rows)
    {
      hide Allocated, Exhausted, UserOwners, ForwardOwners, UserWith, ForwardWith, Room, Resolved;
      OwnersAreLimited(node, s);
      var start := rows;
      var ok, policies := ResolvePolicies(node, s);
      if !ok {
        TooMany(rows, start.Keys + Owners(node, s));
        rows := start;
        return None;
      }
      ghost var middle := rows;
      var forwards;
      ok, forwards := ResolveForwards(node, s);
      if !ok {
        TooMany(rows, start.Keys + Owners(node, s));
        rows := start;
        return None;
      }
      assert rows.Keys == start.Keys + Owners(node, s);
      EnoughRoom(rows);
      SameUsers(node, s, middle, rows);
      AllResolved(node, s, rows, policies, forwards);
      return Some(s.(policies := policies, forwards := forwards));
    }

    /** publishDesiredTx, as far as the stored state is concerned. */
    method Publish(node: Id, desired: NodeState) returns (r: Option<NodeState>)
      requires Valid()
      modifies this
      ensures Valid() && Kept(old(rows), rows)
      ensures r.Some? ==> r.value == Published(node, desired, rows) && ValidNode(node, r.value)
      ensures Canon(desired).schema >= 2 ==>
        (r.Some? <==> && Room(old(rows).Keys + Owners(node, desired))
                      && ValidNode(node, WithoutClasses(Canon(desired))))
      ensures Canon(desired).schema < 2 ==> rows == old(rows) && (r.Some? <==> ValidNode(node, Canon(desired)))
      ensures r.None? ==> rows == old(rows)
      ensures r.Some? && Canon(desired).schema >= 2 ==> Nft.ClassesResolved(node, r.value)
      ensures r.Some? ==> SameUpToClass(r.value, Canon(desired))
    {
      hide ValidNode, Allocated, WithoutClasses;
      var start := rows;
      var state := Canon(desired);
      assert Owners(node, state) == Owners(node, desired);
      if state.schema >= CLASS_SCHEMA {
        var resolved := Resolve(node, state);
        if resolved.None? {
          return None;
        }
        ResolvedIsValid(node, state, rows);
        state := resolved.value;
      }
      if !ValidNode(node, state) {
        rows := start;
        return None;
      }
      return Some(state);
    }
  }

  function Ascending(): (nat, nat) -> bool {
    (a: nat, b: nat) => a < b
  }

  // ---------------------------------------------------------------- counting classes

  /** Distinct classes: as many rows as classes. */
  lemma {:induction false} AsManyClasses(rows: map<Owner, nat>)
    requires forall o, q :: o in rows && q in rows && o != q ==> rows[o] != rows[q]
    ensures |ClassesOf(rows)| == |rows.Keys|
    decreases |rows.Keys|
  {
    if rows.Keys == {} {
      assert ClassesOf(rows) == {};
    } else {
      var o :| o in rows;
      var rest := rows - {o};
      AsManyClasses(rest);
      assert rest.Keys == rows.Keys - {o};
      OneMoreClass(rows, o);
    }
  }

  lemma OneMoreClass(rows: map<Owner, nat>, o: Owner)
    requires o in rows
    ensures ClassesOf(rows) == ClassesOf(rows - {o}) + {rows[o]}
  {
    forall c | c in ClassesOf(rows)
      ensures c in ClassesOf(rows - {o}) + {rows[o]}
    {
      var q :| q in rows && rows[q] == c;
      assert q != o ==> q in rows - {o};
    }
  }

  function Range(lo: nat, hi: nat): (range: set<nat>)
    ensures forall c: nat :: c in range <==> lo <= c < hi
  {
    if hi <= lo then {} else Range(lo, hi - 1) + {hi - 1}
  }

  lemma {:induction false} RangeSize(lo: nat, hi: nat)
    requires lo <= hi
    ensures |Range(lo, hi)| == hi - lo
    decreases hi - lo
  {
    if lo == hi {
    } else {
      RangeSize(lo, hi - 1);
    }
  }

  lemma FewerElements<T>(a: set<T>, b: set<T>)
    requires a <= b
    ensures |a| <= |b|
  {
    assert b == a + (b - a);
  }

  lemma EnoughRoom(rows: map<Owner, nat>)
    requires Allocated(rows)
    ensures Room(rows.Keys)
  {
    AtMost(rows, FIRST_CLASS, LAST_CLASS + 1);
  }

  lemma AtMost(rows: map<Owner, nat>, lo: nat, hi: nat)
    requires lo <= hi && forall o :: o in rows ==> lo <= rows[o] < hi
    requires forall o, q :: o in rows && q in rows && o != q ==> rows[o] != rows[q]
    ensures |rows.Keys| <= hi - lo
  {
    hide Range;
    AsManyClasses(rows);
    RangeSize(lo, hi);
    FewerElements(ClassesOf(rows), Range(lo, hi));
  }

  lemma AtLeast(rows: map<Owner, nat>, lo: nat, hi: nat)
    requires lo <= hi && forall c :: lo <= c < hi ==> c in ClassesOf(rows)
    requires forall o, q :: o in rows && q in rows && o != q ==> rows[o] != rows[q]
    ensures |rows.Keys| >= hi - lo
  {
    hide Range;
    AsManyClasses(rows);
    RangeSize(lo, hi);
    FewerElements(Range(lo, hi), ClassesOf(rows));
  }

  lemma TooMany(rows: map<Owner, nat>, wanted: set<Owner>)
    requires Allocated(rows) && Exhausted(rows) && rows.Keys < wanted
    ensures !Room(wanted)
  {
    AtLeast(rows, FIRST_CLASS, LAST_CLASS + 1);
    OneMissing(rows.Keys, wanted);
  }

  lemma OneMissing<T>(a: set<T>, b: set<T>)
    requires a < b
    ensures |a| < |b|
  {
    assert !(b <= a);
    var x :| x in b && x !in a;
    FewerElements(a + {x}, b);
  }

  lemma AllResolved(node: Id, s: NodeState, rows: map<Owner, nat>, policies: map<Id, Policy>, forwards: map<Id, Forward>)
    requires policies.Keys == s.policies.Keys && forall u :: u in policies ==> policies[u] == UserWith(node, s, rows, u)
    requires forwards.Keys == s.forwards.Keys && forall id :: id in forwards ==> forwards[id] == ForwardWith(node, s, rows, id)
    ensures s.(policies := policies, forwards := forwards) == Resolved(node, s, rows)
  {
    hide UserWith, ForwardWith;
    assert policies == Resolved(node, s, rows).policies;
    assert forwards == Resolved(node, s, rows).forwards;
  }

  lemma OwnersAreLimited(node: Id, s: NodeState)
    ensures forall u :: u in s.policies && UserLimited(node, s, u) ==> OfUser(u) in UserOwners(node, s)
  {
    hide UserLimited;
  }

  /** Whoever has a class keeps it when others get theirs. */
  lemma SameUsers(node: Id, s: NodeState, before: map<Owner, nat>, after: map<Owner, nat>)
    requires Kept(before, after)
    ensures forall u :: u in s.policies && (UserLimited(node, s, u) ==> OfUser(u) in before) ==>
      UserWith(node, s, before, u) == UserWith(node, s, after, u)
  {
    hide UserLimited;
  }

  lemma SameForwards(node: Id, s: NodeState, before: map<Owner, nat>, after: map<Owner, nat>)
    requires Kept(before, after)
    ensures forall id :: id in s.forwards && (ForwardLimited(node, s, id) ==> OfForward(id) in before) ==>
      ForwardWith(node, s, before, id) == ForwardWith(node, s, after, id)
  {
    hide ForwardLimited;
  }

  // ---------------------------------------------------------------- what publishing guarantees

  /** The part of validity in which classes play no role. */
  predicate Shape(node: Id, s: NodeState) {
    && (forall id :: id in s.forwards ==> ValidForward(node, s, s.forwards[id]))
    && (forall i, j :: i in s.forwards && j in s.forwards && i != j ==> Apart(node, s.forwards[i], s.forwards[j]))
    && (forall l :: l in s.links ==> ValidLink(node, s, s.links[l]))
    && (forall l, m :: l in s.links && m in s.links && l != m ==> LinksApart(s.links[l], s.links[m]))
    && (forall k :: k in s.checks ==> !InServiceRange(s, s.checks[k].endpoint.address))
  }

  predicate Apart(node: Id, f: Forward, g: Forward) {
    Disjoint(node, NoClass(f), NoClass(g))
  }

  /** Policies and forwards that have a class have different ones. */
  predicate ClassesApart(s: NodeState) {
    && (forall i, j :: i in s.forwards && j in s.forwards && i != j && s.forwards[i].classID != 0 ==>
          s.forwards[i].classID != s.forwards[j].classID)
    && (forall i, j :: i in s.policies && j in s.policies && i != j && s.policies[i].classID != 0 ==>
          s.policies[i].classID != s.policies[j].classID)
    && (forall i, j :: i in s.policies && j in s.forwards && s.policies[i].classID != 0 ==>
          s.policies[i].classID != s.forwards[j].classID)
  }

  lemma ValidParts(node: Id, s: NodeState)
    ensures ValidNode(node, s) <==> Shape(node, s) && ClassesApart(s)
  {
    hide ValidForward, Disjoint;
    forall i, j | i in s.forwards && j in s.forwards && i != j
      ensures Disjoint(node, s.forwards[i], s.forwards[j]) <==>
              Apart(node, s.forwards[i], s.forwards[j]) &&
              (s.forwards[i].classID != 0 ==> s.forwards[i].classID != s.forwards[j].classID)
    {
      ApartButForClasses(node, s.forwards[i], s.forwards[j]);
    }
  }

  lemma ApartButForClasses(node: Id, f: Forward, g: Forward)
    ensures Disjoint(node, f, g) <==> Apart(node, f, g) && (f.classID != 0 ==> f.classID != g.classID)
  {
    assert KeysOf(node, f) == KeysOf(node, NoClass(f)) && KeysOf(node, g) == KeysOf(node, NoClass(g));
  }

  lemma SameShape(node: Id, s: NodeState, t: NodeState)
    requires SameUpToClass(s, t)
    ensures Shape(node, s) ==> Shape(node, t)
  {
    hide ValidForward, Disjoint, WithoutClasses, LinksApart, InServiceRange, MeetsServiceRange;
    SameUpToClassEntries(s, t);
    SameFrame(s, t);
    forall id | id in t.forwards
      ensures ValidForward(node, s, s.forwards[id]) <==> ValidForward(node, t, t.forwards[id])
    {
      SameValidity(node, s, t, s.forwards[id], t.forwards[id]);
    }
    forall l | l in t.links
      ensures ValidLink(node, s, s.links[l]) <==> ValidLink(node, t, t.links[l])
    {
      SameRanges(s, t, t.links[l].local);
    }
    SameRanges(s, t, Prefix(0, 0));
  }

  lemma SameFrame(s: NodeState, t: NodeState)
    requires SameUpToClass(s, t)
    ensures s.schema == t.schema && s.cidrs == t.cidrs && s.links == t.links && s.checks == t.checks
  {
  }

  /** Classes from the table never make a valid state invalid, nor an invalid one valid; every limit
      gets one; and nothing but classes changes. */
  lemma ResolvedIsValid(node: Id, s: NodeState, rows: map<Owner, nat>)
    requires Allocated(rows) && Owners(node, s) <= rows.Keys
    ensures ValidNode(node, Resolved(node, s, rows)) <==> ValidNode(node, WithoutClasses(s))
    ensures Nft.ClassesResolved(node, Resolved(node, s, rows))
    ensures SameUpToClass(Resolved(node, s, rows), s)
  {
    hide Shape, ValidNode, ClassesApart, Allocated, Owners, Nft.ClassesResolved;
    var r, z := Resolved(node, s, rows), WithoutClasses(s);
    OnlyClasses(node, s, rows);
    ClassesReach(node, s, rows);
    NeverShared(node, s, rows);
    ValidParts(node, r);
    ValidParts(node, z);
    SameShape(node, r, z);
    SameShape(node, z, r);
  }

  /** The class of the owner's row where there is a limit, and none elsewhere. */
  predicate HasClass(limited: bool, rows: map<Owner, nat>, owner: Owner, classID: nat) {
    if limited then owner in rows && classID == rows[owner] else classID == 0
  }

  /** Which classes a resolved state has: a forward with a limit of its own that enters at the node, and a limited
      user with some forward entering there, each has the class of its row; everything else has none. */
  lemma LimitsHaveClasses(node: Id, s: NodeState, rows: map<Owner, nat>)
    requires Owners(node, s) <= rows.Keys
    ensures var r := Resolved(node, s, rows);
            && r.forwards.Keys == s.forwards.Keys && r.policies.Keys == s.policies.Keys
            && (forall id :: id in s.forwards ==>
                  HasClass(s.forwards[id].rate.Some? && s.forwards[id].ingress == node, rows, OfForward(id), r.forwards[id].classID))
            && forall u :: u in s.policies ==>
                 HasClass(s.policies[u].rate.Some? && EntersAt(s, node, u), rows, OfUser(u), r.policies[u].classID)
  {
    forall u | u in s.policies
      ensures UserLimited(node, s, u) <==> s.policies[u].rate.Some? && EntersAt(s, node, u)
      ensures UserLimited(node, s, u) ==> OfUser(u) in UserOwners(node, s)
    {
    }
    forall id | id in s.forwards
      ensures ForwardLimited(node, s, id) ==> OfForward(id) in ForwardOwners(node, s)
    {
    }
  }

  predicate EntersAt(s: NodeState, node: Id, user: Id) {
    exists id :: id in s.forwards && s.forwards[id].user == user && s.forwards[id].ingress == node
  }

  lemma OnlyClasses(node: Id, s: NodeState, rows: map<Owner, nat>)
    ensures SameUpToClass(Resolved(node, s, rows), s)
    ensures SameUpToClass(Resolved(node, s, rows), WithoutClasses(s)) && SameUpToClass(WithoutClasses(s), s)
  {
    hide UserWith, ForwardWith, WithoutClasses;
    ClassesForgotten(node, s, rows);
    ClassesForgottenTwice(s);
  }

  lemma ClassesForgotten(node: Id, s: NodeState, rows: map<Owner, nat>)
    ensures WithoutClasses(Resolved(node, s, rows)) == WithoutClasses(s)
  {
    hide UserLimited, ForwardLimited;
    var r := Resolved(node, s, rows);
    var a, b := WithoutClasses(r), WithoutClasses(s);
    assert a.policies == b.policies && a.forwards == b.forwards;
  }

  lemma ClassesForgottenTwice(s: NodeState)
    ensures WithoutClasses(WithoutClasses(s)) == WithoutClasses(s)
  {
  }

  lemma NeverShared(node: Id, s: NodeState, rows: map<Owner, nat>)
    requires Allocated(rows)
    ensures ClassesApart(Resolved(node, s, rows)) && ClassesApart(WithoutClasses(s))
  {
    hide UserLimited, ForwardLimited;
    var r := Resolved(node, s, rows);
    forall i, j | i in r.forwards && j in r.forwards && i != j && r.forwards[i].classID != 0
      ensures r.forwards[i].classID != r.forwards[j].classID
    {
      assert OfForward(i) != OfForward(j);
    }
    forall i, j | i in r.policies && j in r.policies && i != j && r.policies[i].classID != 0
      ensures r.policies[i].classID != r.policies[j].classID
    {
      assert OfUser(i) != OfUser(j);
    }
  }

  lemma ClassesReach(node: Id, s: NodeState, rows: map<Owner, nat>)
    requires Allocated(rows) && Owners(node, s) <= rows.Keys
    ensures Nft.ClassesResolved(node, Resolved(node, s, rows))
  {
    var r := Resolved(node, s, rows);
    forall id | id in r.forwards && r.forwards[id].ingress == node
      ensures Nft.ForwardingClass(r, r.forwards[id]).Some?
    {
      var u := s.forwards[id].user;
      if s.forwards[id].rate.Some? {
        assert OfForward(id) in Owners(node, s);
      } else if u in s.policies && s.policies[u].rate.Some? {
        assert UserLimited(node, s, u) && OfUser(u) in Owners(node, s);
      }
    }
  }

  /** As long as there is room, every owner can be given a class. */
  lemma {:induction false} MoreRows(rows: map<Owner, nat>, owners: set<Owner>) returns (more: map<Owner, nat>)
    requires Allocated(rows) && Room(rows.Keys + owners)
    ensures Allocated(more) && Kept(rows, more) && more.Keys == rows.Keys + owners
    decreases owners - rows.Keys
  {
    hide Room, Allocated, Exhausted;
    more := rows;
    if owners <= rows.Keys {
      assert rows.Keys + owners == rows.Keys;
    } else {
      var o :| o in owners && o !in rows.Keys;
      if Exhausted(rows) {
        assert rows.Keys < rows.Keys + owners;
        TooMany(rows, rows.Keys + owners);
      }
      var c := FreeClass(rows);
      var next := rows[o := c];
      assert next.Keys == rows.Keys + {o};
      assert next.Keys + owners == rows.Keys + owners;
      OneMoreRow(rows, o, c);
      more := MoreRows(next, owners);
    }
  }

  lemma FreeClass(rows: map<Owner, nat>) returns (c: nat)
    requires !Exhausted(rows)
    ensures FIRST_CLASS <= c <= LAST_CLASS && c !in ClassesOf(rows)
  {
    c :| FIRST_CLASS <= c <= LAST_CLASS && c !in ClassesOf(rows);
  }

  lemma OneMoreRow(rows: map<Owner, nat>, o: Owner, c: nat)
    requires Allocated(rows) && o !in rows && FIRST_CLASS <= c <= LAST_CLASS && c !in ClassesOf(rows)
    ensures Allocated(rows[o := c])
  {
    forall q | q in rows
      ensures rows[q] != c
    {
      assert rows[q] in ClassesOf(rows);
    }
  }

  /** The state can be published on its node: it is valid and canonical, and there is room for the
      classes it needs, whoever of its owners has one already. */
  predicate Publishable(node: Id, s: NodeState, rows: map<Owner, nat>) {
    ValidNode(node, s) && Canon(s) == s && Allocated(rows) && (s.schema >= CLASS_SCHEMA ==> Room(rows.Keys + Owners(node, s)))
  }

  lemma PublishedIsStorable(node: Id, s: NodeState, rows: map<Owner, nat>) returns (more: map<Owner, nat>)
    requires Publishable(node, s, rows)
    ensures Allocated(more) && Kept(rows, more)
    ensures ValidNode(node, Published(node, s, more)) && SameUpToClass(Published(node, s, more), s)
  {
    hide ValidNode, Resolved, Allocated, SameUpToClass, Owners, Room;
    more := rows;
    if s.schema >= CLASS_SCHEMA {
      more := MoreRows(rows, Owners(node, s));
      ResolvedIsValid(node, s, more);
      ClasslessIsValid(node, s);
    } else {
      SameAsItself(s);
    }
  }

  /** A validated stage can be published whenever every target has room for its classes: there are later
      tables, which keep every allocation, under which the published states are such as the rollout
      machine accepts. */
  lemma {:induction false} StageCanBePublished(st: Machine.StageRow, nodes: map<Id, Machine.History>, tables: map<Id, map<Owner, nat>>)
    returns (later: map<Id, map<Owner, nat>>)
    requires forall n :: n in Machine.Targets(st) ==> n in nodes && n in tables && Publishable(n, st.rows[n].desired, tables[n])
    ensures later.Keys == tables.Keys && forall n :: n in tables ==> Kept(tables[n], later[n])
    ensures Machine.CanPublish(st, nodes,
              map n | n in Machine.Targets(st) && n in later :: Published(n, st.rows[n].desired, later[n]))
  {
    hide ValidNode, Publishable, Kept, Allocated, SameUpToClass, Published;
    later := AllTables(st, tables, Machine.Targets(st));
    var stored := map n | n in Machine.Targets(st) && n in later :: Published(n, st.rows[n].desired, later[n]);
    forall n | n in Machine.Targets(st)
      ensures Machine.Storable(stored, n, st.rows[n].desired)
    {
    }
  }

  lemma {:induction false} AllTables(st: Machine.StageRow, tables: map<Id, map<Owner, nat>>, targets: set<Id>)
    returns (later: map<Id, map<Owner, nat>>)
    requires targets <= Machine.Targets(st) && targets <= tables.Keys
    requires forall n :: n in targets ==> Publishable(n, st.rows[n].desired, tables[n])
    ensures later.Keys == tables.Keys && forall n :: n in tables ==> Kept(tables[n], later[n])
    ensures forall n :: n in targets ==>
      ValidNode(n, Published(n, st.rows[n].desired, later[n])) && SameUpToClass(Published(n, st.rows[n].desired, later[n]), st.rows[n].desired)
    decreases targets
  {
    hide ValidNode, Publishable, SameUpToClass, Published, Allocated;
    if targets == {} {
      later := tables;
    } else {
      var n :| n in targets;
      later := AllTables(st, tables, targets - {n});
      var more := PublishedIsStorable(n, st.rows[n].desired, tables[n]);
      later := later[n := more];
    }
  }

  lemma ClasslessIsValid(node: Id, s: NodeState)
    requires ValidNode(node, s)
    ensures ValidNode(node, WithoutClasses(s))
  {
    hide Shape, ValidNode, ClassesApart;
    OnlyClasses(node, s, map[]);
    NeverShared(node, s, map[]);
    ValidParts(node, s);
    ValidParts(node, WithoutClasses(s));
    SameShape(node, s, WithoutClasses(s));
  }
}
