/** BuildRolloutStages and its parts, step by step as the controller runs them. Loops visit
    nodes and forwards in whatever order a map yields them; each method is shown to compute
    the order-free function of module `RolloutPlan`. */
module RolloutBuilder {
  import opened Spec
  import opened CanarySelection
  import opened RolloutPlan
  import opened RolloutWaves
  import opened RolloutTheorems

  /** The empty states go in first, so that a node of `primary` overrides its placeholder. */
  method CompleteStateMap(primary: Cluster, secondary: Cluster) returns (result: Cluster)
    ensures result == Complete(primary, secondary)
    ensures Completes(result, primary, secondary)
  {
    hide Canon, Complete, Completes;
    var empty := EmptyState();
    result := map n | n in secondary :: empty;
    var nodes := primary.Keys;
    while nodes != {}
      invariant nodes <= primary.Keys
      invariant forall n :: n in result <==> n in secondary || (n in primary && n !in nodes)
      invariant forall n :: n in result ==>
        result[n] == if n in primary && n !in nodes then Canon(primary[n]) else empty
      decreases |nodes|
    {
      var n :| n in nodes;
      nodes := nodes - {n};
      result := result[n := Canon(primary[n])];
    }
    IsComplete(result, primary, secondary);
    CompleteCompletes(primary, secondary);
  }

  /** Every node of either map is there: as in `primary`, under the current schema if it had none, or with
      nothing to do. */
  predicate Completes(c: Cluster, primary: Cluster, secondary: Cluster) {
    && c.Keys == primary.Keys + secondary.Keys
    && (forall n :: n in primary ==> c[n] == if primary[n].schema == 0 then primary[n].(schema := 5) else primary[n])
    && forall n :: n in secondary && n !in primary ==> c[n] == NodeState(5, "", {}, map[], map[], map[], {}, map[])
  }

  lemma CompleteCompletes(primary: Cluster, secondary: Cluster)
    ensures Completes(Complete(primary, secondary), primary, secondary)
  {
  }

  lemma IsComplete(c: Cluster, primary: Cluster, secondary: Cluster)
    requires forall n :: n in c <==> n in secondary || n in primary
    requires forall n :: n in c ==> c[n] == if n in primary then Canon(primary[n]) else EmptyState()
    ensures c == Complete(primary, secondary)
  {
    hide Canon;
  }

  method ChangedStates(current: Cluster, next: Cluster) returns (result: Cluster)
    ensures result == Changed(current, next)
    ensures HoldsChanges(result, current, next)
  {
    ChangedHoldsChanges(current, next);
    hide SameUpToClass, HoldsChanges, StateOf;
    result := map[];
    var all := current.Keys + next.Keys;
    var nodes := all;
    while nodes != {}
      invariant nodes <= all
      invariant forall n :: n in result <==>
        n in all && n !in nodes && !SameUpToClass(StateOf(current, n), StateOf(next, n))
      invariant forall n :: n in result ==> result[n] == StateOf(next, n)
      decreases |nodes|
    {
      var n :| n in nodes;
      nodes := nodes - {n};
      if !SameUpToClass(StateOf(current, n), StateOf(next, n)) {
        result := result[n := StateOf(next, n)];
      }
    }
  }

  /** A node of both maps is there, with its new state, exactly if more than its traffic classes changed. */
  ghost predicate HoldsChanges(c: Cluster, current: Cluster, next: Cluster) {
    && (forall n :: n in current && n in next ==> (n in c <==> !SameButClasses(current[n], next[n])))
    && forall n :: n in c && n in next ==> c[n] == next[n]
  }

  lemma ChangedHoldsChanges(current: Cluster, next: Cluster)
    ensures HoldsChanges(Changed(current, next), current, next)
  {
    hide SameUpToClass, SameButClasses;
    forall n | n in current && n in next
      ensures SameUpToClass(current[n], next[n]) <==> SameButClasses(current[n], next[n])
    {
      SameUpToClassExactly(current[n], next[n]);
    }
  }

  method ForwardLocationsEqual(current: Cluster, final: Cluster, id: Id) returns (equal: bool)
    ensures equal <==> forall n :: n in current.Keys + final.Keys ==> SameEntry(At(current, n, id), At(final, n, id))
  {
    var all := current.Keys + final.Keys;
    var nodes := all;
    while nodes != {}
      invariant nodes <= all
      invariant forall n :: n in all && n !in nodes ==> SameEntry(At(current, n, id), At(final, n, id))
      decreases |nodes|
    {
      var n :| n in nodes;
      nodes := nodes - {n};
      if !SameEntry(At(current, n, id), At(final, n, id)) {
        return false;
      }
    }
    return true;
  }

  method ChangedForwardIDs(current: Cluster, final: Cluster) returns (changed: set<Id>)
    ensures changed == ChangedIds(current, final)
    ensures forall id :: id in changed <==> exists n :: n in current.Keys + final.Keys && Differs(current, final, n, id)
  {
    hide SameEntry, At, Ids, Differs;
    changed := {};
    var all := Ids(current) + Ids(final);
    var ids := all;
    while ids != {}
      invariant ids <= all
      invariant forall id :: id in changed <==> id in ChangedIds(current, final) && id !in ids
      decreases |ids|
    {
      var id :| id in ids;
      ids := ids - {id};
      var equal := ForwardLocationsEqual(current, final, id);
      assert id in ChangedIds(current, final) <==> !equal;
      if !equal {
        changed := changed + {id};
      }
    }
    ChangedDiffer(current, final);
  }

  /** The entry is there in one of the maps only, or differs in something else than its traffic class. */
  predicate Differs(a: Cluster, b: Cluster, n: Id, id: Id) {
    var before, after := n in a && id in a[n].forwards, n in b && id in b[n].forwards;
    before != after || (before && after && a[n].forwards[id] != b[n].forwards[id].(classID := a[n].forwards[id].classID))
  }

  lemma DiffersExactly(a: Cluster, b: Cluster, n: Id, id: Id)
    ensures Differs(a, b, n, id) <==> !SameEntry(At(a, n, id), At(b, n, id))
    ensures Differs(a, b, n, id) ==> id in Ids(a) + Ids(b)
  {
  }

  lemma ChangedDiffer(a: Cluster, b: Cluster)
    ensures forall id :: id in ChangedIds(a, b) <==> exists n :: n in a.Keys + b.Keys && Differs(a, b, n, id)
  {
    hide Differs, SameEntry, At, Ids;
    forall id, n
      ensures Differs(a, b, n, id) <==> !SameEntry(At(a, n, id), At(b, n, id))
      ensures Differs(a, b, n, id) ==> id in Ids(a) + Ids(b)
    {
      DiffersExactly(a, b, n, id);
    }
  }

  /** No node changes a link in place that an entry names, before or after. */
  ghost predicate LinksInUseKept(a: Cluster, b: Cluster) {
    forall n, l, id :: n in a && n in b && l != "" && l in a[n].links && l in b[n].links && a[n].links[l] != b[n].links[l] ==>
      && (id in a[n].forwards ==> a[n].forwards[id].link != l)
      && (id in b[n].forwards ==> b[n].forwards[id].link != l)
  }

  lemma FabricStableMeans(a: Cluster, b: Cluster)
    requires a.Keys == b.Keys
    ensures FabricStable(a, b) <==> LinksInUseKept(a, b)
  {
    if FabricStable(a, b) {
      forall n, l, id | n in a && n in b && l != "" && l in a[n].links && l in b[n].links && a[n].links[l] != b[n].links[l]
        ensures id in a[n].forwards ==> a[n].forwards[id].link != l
        ensures id in b[n].forwards ==> b[n].forwards[id].link != l
      {
        assert !Uses(a[n], l) && !Uses(b[n], l);
      }
    }
    if LinksInUseKept(a, b) {
      forall n, l | n in a && l in a[n].links && l in b[n].links && (Uses(a[n], l) || Uses(b[n], l))
        ensures a[n].links[l] == b[n].links[l]
      {
        LinkInUse(a, b, n, l);
      }
    }
  }

  lemma LinkInUse(a: Cluster, b: Cluster, n: Id, l: Id)
    requires LinksInUseKept(a, b) && n in a && n in b && l in a[n].links && l in b[n].links
    requires Uses(a[n], l) || Uses(b[n], l)
    ensures a[n].links[l] == b[n].links[l]
  {
    if Uses(a[n], l) {
      var id :| id in a[n].forwards && a[n].forwards[id].link == l;
    } else {
      var id :| id in b[n].forwards && b[n].forwards[id].link == l;
    }
  }

  /** A forward that has an entry before and after on a node enters there in both or in neither, and leaves there
      in both or in neither; one that keeps its exit keeps its ingress. */
  ghost predicate PartsKept(a: Cluster, b: Cluster) {
    forall n, id :: n in a && n in b && id in a[n].forwards && id in b[n].forwards ==>
      var f, g := a[n].forwards[id], b[n].forwards[id];
      && (f.ingress == n <==> g.ingress == n)
      && (f.ingress != n && g.ingress != n ==> (f.mode == ViaExit && f.exit == n <==> g.mode == ViaExit && g.exit == n))
  }

  ghost predicate IngressKept(a: Cluster, b: Cluster) {
    forall m, n, id :: m in a && n in b && id in a[m].forwards && id in b[n].forwards ==>
      var f, g := a[m].forwards[id], b[n].forwards[id];
      f.mode == ViaExit && g.mode == ViaExit && f.exit == g.exit ==> f.ingress == g.ingress
  }

  lemma RolesStableMeans(a: Cluster, b: Cluster)
    ensures RolesStable(a, b) <==> PartsKept(a, b) && IngressKept(a, b)
  {
    forall m, n, id
      ensures At(a, m, id).Some? && At(b, n, id).Some? <==> m in a && n in b && id in a[m].forwards && id in b[n].forwards
    {
    }
    if RolesStable(a, b) {
      forall n, id | n in a && n in b && id in a[n].forwards && id in b[n].forwards
        ensures RoleOf(a[n].forwards[id], n) == RoleOf(b[n].forwards[id], n)
      {
        assert At(a, n, id).Some? && At(b, n, id).Some?;
      }
      forall m, n, id | m in a && n in b && id in a[m].forwards && id in b[n].forwards
        ensures IngressStable(a[m].forwards[id], b[n].forwards[id])
      {
        assert At(a, m, id).Some? && At(b, n, id).Some?;
      }
    }
  }

  method ValidateFabricTransitions(current: Cluster, final: Cluster) returns (safe: bool)
    requires current.Keys == final.Keys
    ensures safe <==> FabricStable(current, final)
    ensures safe <==> LinksInUseKept(current, final)
  {
    hide LinksInUseKept;
    FabricStableMeans(current, final);
    var nodes := current.Keys;
    while nodes != {}
      invariant nodes <= current.Keys
      invariant forall n :: n in current.Keys - nodes ==> NodeFabricStable(current[n], final[n])
      decreases |nodes|
    {
      var n :| n in nodes;
      nodes := nodes - {n};
      var links := final[n].links.Keys;
      while links != {}
        invariant links <= final[n].links.Keys
        invariant forall l :: l in final[n].links.Keys - links ==> LinkStable(current[n], final[n], l)
        decreases |links|
      {
        var l :| l in links;
        links := links - {l};
        if l in current[n].links && current[n].links[l] != final[n].links[l] {
          if Uses(current[n], l) || Uses(final[n], l) {
            assert !LinkStable(current[n], final[n], l);
            return false;
          }
        }
      }
    }
    assert forall n :: n in current ==> NodeFabricStable(current[n], final[n]);
    return true;
  }

  predicate LinkStable(before: NodeState, after: NodeState, l: Id) {
    l in before.links && l in after.links && (Uses(before, l) || Uses(after, l)) ==>
      before.links[l] == after.links[l]
  }

  predicate NodeFabricStable(before: NodeState, after: NodeState) {
    forall l :: l in after.links ==> LinkStable(before, after, l)
  }

  function NodesOf(c: Cluster, id: Id): set<Id> {
    set n | n in c && id in c[n].forwards
  }

  /** validateRoleTransitions. The placement of a forward is read off any one of its entries,
      so the outcome is determined by the maps only when those agree. */
  method ValidateRoleTransitions(current: Cluster, final: Cluster) returns (safe: bool)
    ensures Consistent(current) && Consistent(final) ==> (safe <==> RolesStable(current, final))
    ensures Consistent(current) && Consistent(final) ==> (safe <==> PartsKept(current, final) && IngressKept(current, final))
  {
    hide PartsKept, IngressKept;
    RolesStableMeans(current, final);
    var ids := Ids(current);
    while ids != {}
      invariant ids <= Ids(current)
      invariant forall id :: id in Ids(current) - ids ==> ForwardRolesStable(current, final, id)
      decreases |ids|
    {
      var id :| id in ids;
      ids := ids - {id};
      var nodes := NodesOf(current, id);
      while nodes != {}
        invariant nodes <= NodesOf(current, id)
        invariant forall n :: n in NodesOf(current, id) - nodes ==> NodeRoleStable(current, final, n, id)
        decreases |nodes|
      {
        var n :| n in nodes;
        nodes := nodes - {n};
        if !NodeRoleStable(current, final, n, id) {
          return false;
        }
      }
      if NodesOf(current, id) != {} && NodesOf(final, id) != {} {
        var m :| m in NodesOf(current, id);
        var n :| n in NodesOf(final, id);
        if !IngressStable(current[m].forwards[id], final[n].forwards[id]) {
          assert At(current, m, id).Some? && At(final, n, id).Some?;
          return false;
        }
        assert PlacementStable(current, final, m, n, id);
      }
      assert ForwardRolesStable(current, final, id);
    }
    if Consistent(current) && Consistent(final) {
      AllRolesStable(current, final);
    }
    return true;
  }

  predicate NodeRoleStable(current: Cluster, final: Cluster, n: Id, id: Id) {
    At(current, n, id).Some? && At(final, n, id).Some? ==>
      RoleOf(At(current, n, id).value, n) == RoleOf(At(final, n, id).value, n)
  }

  predicate PlacementStable(current: Cluster, final: Cluster, m: Id, n: Id, id: Id) {
    m in NodesOf(current, id) && n in NodesOf(final, id) &&
    IngressStable(current[m].forwards[id], final[n].forwards[id])
  }

  predicate ForwardRolesStable(current: Cluster, final: Cluster, id: Id) {
    && (forall n :: n in NodesOf(current, id) ==> NodeRoleStable(current, final, n, id))
    && (NodesOf(current, id) != {} && NodesOf(final, id) != {} ==>
          exists m, n :: m in NodesOf(current, id) && n in NodesOf(final, id) && PlacementStable(current, final, m, n, id))
  }

  lemma AllRolesStable(current: Cluster, final: Cluster)
    requires Consistent(current) && Consistent(final)
    requires forall id :: id in Ids(current) ==> ForwardRolesStable(current, final, id)
    ensures RolesStable(current, final)
  {
    hide Consistent;
    forall n, id | At(current, n, id).Some? && At(final, n, id).Some?
      ensures RoleOf(At(current, n, id).value, n) == RoleOf(At(final, n, id).value, n)
    {
      assert n in NodesOf(current, id) && id in Ids(current);
      assert NodeRoleStable(current, final, n, id);
    }
    forall m, n, id | At(current, m, id).Some? && At(final, n, id).Some?
      ensures IngressStable(At(current, m, id).value, At(final, n, id).value)
    {
      assert m in NodesOf(current, id) && n in NodesOf(final, id) && id in Ids(current);
      OnePlacement(current, final, m, n, id);
    }
  }

  /** In consistent maps any two entries represent the same pair of placements. */
  lemma OnePlacement(current: Cluster, final: Cluster, m: Id, n: Id, id: Id)
    requires Consistent(current) && Consistent(final) && ForwardRolesStable(current, final, id)
    requires At(current, m, id).Some? && At(final, n, id).Some?
    ensures IngressStable(At(current, m, id).value, At(final, n, id).value)
  {
    hide NodeRoleStable, Placed;
    assert m in NodesOf(current, id) && n in NodesOf(final, id);
    var a, b :| a in NodesOf(current, id) && b in NodesOf(final, id) && PlacementStable(current, final, a, b, id);
    assert At(current, a, id).Some? && At(final, b, id).Some?;
    assert SamePlacement(At(current, a, id).value, At(current, m, id).value);
    assert SamePlacement(At(final, b, id).value, At(final, n, id).value);
  }

  // ---------------------------------------------------------------- the three phases

  predicate Plays(f: Forward, node: Id, role: Role) {
    if role == Ingress then f.ingress == node else IsExit(f, node)
  }

  function RoleIds(s: NodeState, node: Id, ids: set<Id>, role: Role): set<Id> {
    if role == Ingress then IngressIds(s, node, ids) else ExitIds(s, node, ids)
  }

  function Dropped(s: NodeState, final: NodeState, id: Id): NodeState {
    Conservative(s, final).(forwards := s.forwards - {id})
  }

  function Upserted(s: NodeState, final: NodeState, id: Id): NodeState
    requires id in final.forwards
  {
    Conservative(s, final).(forwards := s.forwards[id := final.forwards[id]])
  }

  /** Merging the same final resources once more changes nothing. */
  lemma ConservativeIsIdempotent(s: NodeState, final: NodeState, forwards: map<Id, Forward>)
    ensures Conservative(Conservative(s, final).(forwards := forwards), final) ==
            Conservative(s, final).(forwards := forwards)
  {
    MergedTwice(s.links, final.links);
    MergedTwice(s.checks, final.checks);
    MergedTwice(s.policies, final.policies);
    assert s.cidrs + final.cidrs + final.cidrs == s.cidrs + final.cidrs;
  }

  lemma MergedTwice<K, V>(a: map<K, V>, b: map<K, V>)
    ensures a + b + b == a + b
  {
  }

  lemma RewriteUpserted(s: NodeState, final: NodeState, drops: set<Id>, puts: set<Id>, id: Id)
    requires puts <= final.forwards.Keys && id in final.forwards
    ensures Upserted(Rewrite(s, final, drops, puts), final, id) == Rewrite(s, final, drops, puts + {id})
  {
    hide Conservative;
    var r, t := Rewrite(s, final, drops, puts), Rewrite(s, final, drops, puts + {id});
    ConservativeIsIdempotent(s, final, r.forwards);
    assert r.forwards[id := final.forwards[id]] == t.forwards;
  }

  lemma RewriteDropped(s: NodeState, final: NodeState, drops: set<Id>, puts: set<Id>, id: Id)
    requires puts <= final.forwards.Keys && id !in puts
    ensures Dropped(Rewrite(s, final, drops, puts), final, id) == Rewrite(s, final, drops + {id}, puts)
  {
    hide Conservative;
    var r, t := Rewrite(s, final, drops, puts), Rewrite(s, final, drops + {id}, puts);
    ConservativeIsIdempotent(s, final, r.forwards);
    assert r.forwards - {id} == t.forwards;
  }

  /** One node's part in dropping a forward, and in putting one. */
  function AfterDrop(s: NodeState, start: NodeState, final: NodeState, n: Id, id: Id, role: Role): NodeState {
    if RoleIds(start, n, {id}, role) == {id} then Dropped(s, final, id) else s
  }

  function AfterPut(s: NodeState, final: NodeState, n: Id, id: Id, role: Role): NodeState {
    if RoleIds(final, n, {id}, role) == {id} && id in final.forwards then Upserted(s, final, id) else s
  }

  /** Removes forward `id` from every node on which its `start` entry plays `role`. */
  method DropForward(next: Cluster, start: Cluster, final: Cluster, id: Id, role: Role) returns (result: Cluster)
    requires next.Keys == start.Keys == final.Keys
    ensures result.Keys == next.Keys
    ensures forall n :: n in next ==>
      result[n] == AfterDrop(next[n], start[n], final[n], n, id, role)
  {
    hide RoleIds, Dropped, Upserted, Plays, AfterDrop, AfterPut;
    result := next;
    var nodes := start.Keys;
    while nodes != {}
      invariant nodes <= start.Keys && result.Keys == next.Keys
      invariant forall n :: n in nodes ==> result[n] == next[n]
      invariant forall n :: n in start && n !in nodes ==>
        result[n] == AfterDrop(next[n], start[n], final[n], n, id, role)
      decreases |nodes|
    {
      var n :| n in nodes;
      nodes := nodes - {n};
      DropOne(next[n], start[n], final[n], n, id, role);
      if id in start[n].forwards && Plays(start[n].forwards[id], n, role) {
        result := result[n := Dropped(result[n], final[n], id)];
      }
    }
  }

  /** Installs the final entry of forward `id` on every node on which it plays `role`. */
  method PutForward(next: Cluster, final: Cluster, id: Id, role: Role) returns (result: Cluster)
    requires next.Keys == final.Keys
    ensures result.Keys == next.Keys
    ensures forall n :: n in next ==>
      result[n] == AfterPut(next[n], final[n], n, id, role)
  {
    hide RoleIds, Dropped, Upserted, Plays, AfterDrop, AfterPut;
    result := next;
    var nodes := final.Keys;
    while nodes != {}
      invariant nodes <= final.Keys && result.Keys == next.Keys
      invariant forall n :: n in nodes ==> result[n] == next[n]
      invariant forall n :: n in final && n !in nodes ==>
        result[n] == AfterPut(next[n], final[n], n, id, role)
      decreases |nodes|
    {
      var n :| n in nodes;
      nodes := nodes - {n};
      PutOne(next[n], final[n], n, id, role);
      if id in final[n].forwards && Plays(final[n].forwards[id], n, role) {
        result := result[n := Upserted(result[n], final[n], id)];
      }
    }
  }

  lemma DropOne(s: NodeState, start: NodeState, final: NodeState, n: Id, id: Id, role: Role)
    ensures AfterDrop(s, start, final, n, id, role) ==
            if id in start.forwards && Plays(start.forwards[id], n, role) then Dropped(s, final, id) else s
  {
    hide RoleIds, Dropped, Plays;
    OneRoleId(start, n, id, role);
  }

  lemma PutOne(s: NodeState, final: NodeState, n: Id, id: Id, role: Role)
    ensures AfterPut(s, final, n, id, role) ==
            if id in final.forwards && Plays(final.forwards[id], n, role) then Upserted(s, final, id) else s
  {
    hide RoleIds, Upserted, Plays;
    OneRoleId(final, n, id, role);
  }

  lemma OneRoleId(s: NodeState, n: Id, id: Id, role: Role)
    ensures RoleIds(s, n, {id}, role) == if id in s.forwards && Plays(s.forwards[id], n, role) then {id} else {}
  {
  }

  lemma MoreRoleIds(s: NodeState, n: Id, ids: set<Id>, id: Id, role: Role)
    ensures RoleIds(s, n, ids + {id}, role) == RoleIds(s, n, ids, role) + RoleIds(s, n, {id}, role)
  {
  }

  /** The rewriting of every node by the forwards in `ids`. */
  predicate Rewritten(c: Cluster, work: Cluster, start: Cluster, final: Cluster, drops: set<Id>, puts: set<Id>, role: Role)
    requires work.Keys == start.Keys == final.Keys
  {
    && c.Keys == work.Keys
    && forall n :: n in work ==>
         c[n] == Rewrite(work[n], final[n], RoleIds(start[n], n, drops, role), RoleIds(final[n], n, puts, role))
  }

  method ReviseForward(next: Cluster, work: Cluster, start: Cluster, final: Cluster, drop: bool, done: set<Id>, id: Id, role: Role)
    returns (result: Cluster)
    requires work.Keys == start.Keys == final.Keys && id !in done
    requires Rewritten(next, work, start, final, if drop then done else {}, done, role)
    ensures Rewritten(result, work, start, final, if drop then done + {id} else {}, done + {id}, role)
  {
    hide Rewritten, Dropped, Upserted, RoleIds;
    result := next;
    ghost var drops := if drop then done + {id} else {};
    assert next.Keys == work.Keys by { RewrittenKeys(next, work, start, final, if drop then done else {}, done, role); }
    if drop {
      result := DropForward(result, start, final, id, role);
      DroppedEverywhere(next, result, work, start, final, done, id, role);
    }
    ghost var dropped := result;
    result := PutForward(result, final, id, role);
    PutEverywhere(dropped, result, work, start, final, drops, done, id, role);
  }

  lemma RewrittenKeys(c: Cluster, work: Cluster, start: Cluster, final: Cluster, drops: set<Id>, puts: set<Id>, role: Role)
    requires work.Keys == start.Keys == final.Keys
    requires Rewritten(c, work, start, final, drops, puts, role)
    ensures c.Keys == work.Keys
  {
  }

  lemma DroppedEverywhere(c: Cluster, d: Cluster, work: Cluster, start: Cluster, final: Cluster, done: set<Id>, id: Id, role: Role)
    requires work.Keys == start.Keys == final.Keys == c.Keys == d.Keys && id !in done
    requires Rewritten(c, work, start, final, done, done, role)
    requires forall n :: n in c ==>
      d[n] == AfterDrop(c[n], start[n], final[n], n, id, role)
    ensures Rewritten(d, work, start, final, done + {id}, done, role)
  {
    hide Rewrite, AfterDrop, RoleIds;
    forall n | n in work
      ensures RoleIds(final[n], n, done, role) <= final[n].forwards.Keys
      ensures d[n] == Rewrite(work[n], final[n], RoleIds(start[n], n, done + {id}, role), RoleIds(final[n], n, done, role))
    {
      RoleIdsAmong(final[n], n, done, role);
      DroppedOnNode(work[n], start[n], final[n], n, done, id, role);
    }
  }

  lemma DroppedOnNode(w: NodeState, s: NodeState, f: NodeState, n: Id, done: set<Id>, id: Id, role: Role)
    requires id !in done && RoleIds(f, n, done, role) <= f.forwards.Keys
    ensures AfterDrop(Rewrite(w, f, RoleIds(s, n, done, role), RoleIds(f, n, done, role)), s, f, n, id, role) ==
            Rewrite(w, f, RoleIds(s, n, done + {id}, role), RoleIds(f, n, done, role))
  {
    hide Rewrite, Dropped, RoleIds;
    var drops, puts := RoleIds(s, n, done, role), RoleIds(f, n, done, role);
    OneRoleId(s, n, id, role);
    MoreRoleIds(s, n, done, id, role);
    RoleIdsAmong(f, n, done, role);
    if RoleIds(s, n, {id}, role) == {id} {
      RewriteDropped(w, f, drops, puts, id);
    } else {
      assert drops + {} == drops;
    }
  }

  lemma PutEverywhere(c: Cluster, d: Cluster, work: Cluster, start: Cluster, final: Cluster,
                      drops: set<Id>, done: set<Id>, id: Id, role: Role)
    requires work.Keys == start.Keys == final.Keys == c.Keys == d.Keys
    requires Rewritten(c, work, start, final, drops, done, role)
    requires forall n :: n in c ==>
      d[n] == AfterPut(c[n], final[n], n, id, role)
    ensures Rewritten(d, work, start, final, drops, done + {id}, role)
  {
    hide Rewrite, Upserted;
    forall n | n in work
      ensures d[n] == Rewrite(work[n], final[n], RoleIds(start[n], n, drops, role), RoleIds(final[n], n, done + {id}, role))
    {
      hide RoleIds;
      var puts := RoleIds(final[n], n, done, role);
      OneRoleId(final[n], n, id, role);
      MoreRoleIds(final[n], n, done, id, role);
      RoleIdsAmong(final[n], n, done, role);
      if RoleIds(final[n], n, {id}, role) == {id} {
        RewriteUpserted(work[n], final[n], RoleIds(start[n], n, drops, role), puts, id);
      } else {
        assert RoleIds(final[n], n, done + {id}, role) == puts;
      }
    }
  }

  lemma RoleIdsAmong(s: NodeState, n: Id, ids: set<Id>, role: Role)
    ensures RoleIds(s, n, ids, role) <= ids && RoleIds(s, n, ids, role) <= s.forwards.Keys
  {
  }

  /** The body of a phase: every selected forward in turn, in any order. */
  method MutateForwards(work: Cluster, start: Cluster, final: Cluster, sel: set<Id>, drop: bool, role: Role)
    returns (next: Cluster)
    requires work.Keys == start.Keys == final.Keys
    ensures Rewritten(next, work, start, final, if drop then sel else {}, sel, role)
  {
    hide Rewritten;
    next := work;
    var ids := sel;
    assert sel - ids == {};
    NothingRewritten(work, start, final, role);
    while ids != {}
      invariant ids <= sel
      invariant Rewritten(next, work, start, final, if drop then sel - ids else {}, sel - ids, role)
      decreases |ids|
    {
      var id :| id in ids;
      next := ReviseForward(next, work, start, final, drop, sel - ids, id, role);
      assert sel - (ids - {id}) == sel - ids + {id};
      ids := ids - {id};
    }
    assert sel - ids == sel;
  }

  lemma NothingRewritten(work: Cluster, start: Cluster, final: Cluster, role: Role)
    requires work.Keys == start.Keys == final.Keys
    ensures Rewritten(work, work, start, final, {}, {}, role)
  {
    hide Conservative;
    assert forall n :: n in work ==> RoleIds(start[n], n, {}, role) == {} == RoleIds(final[n], n, {}, role);
  }

  // ---------------------------------------------------------------- waves

  method ValidateStates(desired: Cluster) returns (valid: bool)
    ensures valid <==> ValidCluster(desired)
  {
    var nodes := desired.Keys;
    while nodes != {}
      invariant nodes <= desired.Keys
      invariant forall n :: n in desired.Keys - nodes ==> ValidNode(n, desired[n])
      decreases |nodes|
    {
      var n :| n in nodes;
      nodes := nodes - {n};
      if !ValidNode(n, desired[n]) {
        return false;
      }
    }
    return true;
  }

  /** The `apply` closure: publish the nodes that change, provided their new state is valid. */
  method ApplyPhase(working: Cluster, next: Cluster, wave: Wave, phase: Phase, stages: seq<Stage>)
    returns (ok: bool, longer: seq<Stage>)
    ensures ok <==> ValidCluster(Changed(working, next))
    ensures longer == if ok then stages + StagesOf(working, [Release(wave, phase, next)]) else stages
  {
    OneRelease(working, next, wave, phase);
    longer := stages;
    var desired := ChangedStates(working, next);
    ok := ValidateStates(desired);
    if ok && |desired| != 0 {
      longer := stages + [Stage(wave, phase, 0, desired)];
    }
  }

  lemma {:induction false} OneRelease(working: Cluster, next: Cluster, wave: Wave, phase: Phase)
    ensures StagesOf(working, [Release(wave, phase, next)]) ==
            if Changed(working, next) == map[] then [] else [Stage(wave, phase, 0, Changed(working, next))]
  {
    assert [Release(wave, phase, next)][1..] == [];
  }

  method AppendWaveStages(work: Cluster, final: Cluster, sel: set<Id>, wave: Wave, exact: bool, stages: seq<Stage>)
    returns (ok: bool, working: Cluster, longer: seq<Stage>)
    requires work.Keys == final.Keys
    ensures var more := StagesOf(work, WaveSteps(work, final, sel, wave, exact));
            && (ok <==> ValidStages(more))
            && (ok ==> longer == stages + more && working == if exact then final else AfterWave(work, final, sel))
  {
    hide Rewritten, ValidCluster, Changed, StagesOf, WaveSteps, ValidStages, AfterWave, Prepared, Promoted, Cleaned;
    var prepared := MutateForwards(work, work, final, sel, false, Exit);
    PhasesAgree(prepared, work, work, final, sel);
    var promoted := MutateForwards(prepared, work, final, sel, true, Ingress);
    PhasesAgree(promoted, prepared, work, final, sel);
    var cleaned := MutateForwards(promoted, work, final, sel, true, Exit);
    PhasesAgree(cleaned, promoted, work, final, sel);
    if exact {
      cleaned := final;
    }
    WaveReleases(work, final, sel, wave, exact, prepared, promoted, cleaned);
    ok, longer := ApplyWave(work, prepared, promoted, cleaned, wave, stages);
    working := cleaned;
  }

  /** The three phases, one after the other, until one is invalid. */
  method ApplyWave(work: Cluster, prepared: Cluster, promoted: Cluster, cleaned: Cluster, wave: Wave, stages: seq<Stage>)
    returns (ok: bool, longer: seq<Stage>)
    ensures var more := StagesOf(work, [Release(wave, Prepare, prepared), Release(wave, Promote, promoted),
                                        Release(wave, Cleanup, cleaned)]);
            (ok <==> ValidStages(more)) && (ok ==> longer == stages + more)
  {
    hide ValidCluster, Changed, StagesOf, ValidStages;
    ThreeReleases(work, prepared, promoted, cleaned, wave);
    ok, longer := ApplyPhase(work, prepared, wave, Prepare, stages);
    if !ok {
      return;
    }
    ok, longer := ApplyPhase(prepared, promoted, wave, Promote, longer);
    if !ok {
      return;
    }
    ok, longer := ApplyPhase(promoted, cleaned, wave, Cleanup, longer);
  }

  lemma WaveReleases(work: Cluster, final: Cluster, sel: set<Id>, wave: Wave, exact: bool, a: Cluster, b: Cluster, c: Cluster)
    requires work.Keys == final.Keys
    requires a == Prepared(work, final, sel) && b == Promoted(a, work, final, sel)
    requires c == if exact then final else Cleaned(b, work, final, sel)
    ensures WaveSteps(work, final, sel, wave, exact) == [Release(wave, Prepare, a), Release(wave, Promote, b), Release(wave, Cleanup, c)]
    ensures !exact ==> c == AfterWave(work, final, sel)
  {
    hide Prepared, Promoted, Cleaned;
  }

  /** The loops of the three phases compute the maps the plan names. */
  lemma PhasesAgree(c: Cluster, work: Cluster, start: Cluster, final: Cluster, sel: set<Id>)
    requires work.Keys == start.Keys == final.Keys
    ensures work == start && Rewritten(c, work, start, final, {}, sel, Exit) ==> c == Prepared(start, final, sel)
    ensures Rewritten(c, work, start, final, sel, sel, Ingress) ==> c == Promoted(work, start, final, sel)
    ensures Rewritten(c, work, start, final, sel, sel, Exit) ==> c == Cleaned(work, start, final, sel)
  {
    hide Rewrite;
    assert forall n :: n in start ==> RoleIds(start[n], n, {}, Exit) == {};
  }

  lemma {:induction false} ThreeReleases(work: Cluster, a: Cluster, b: Cluster, c: Cluster, wave: Wave)
    ensures var s, t, u := StagesOf(work, [Release(wave, Prepare, a)]), StagesOf(a, [Release(wave, Promote, b)]),
                           StagesOf(b, [Release(wave, Cleanup, c)]);
            StagesOf(work, [Release(wave, Prepare, a), Release(wave, Promote, b), Release(wave, Cleanup, c)]) == s + t + u
            && (ValidStages(s + t + u) <==>
                  ValidCluster(Changed(work, a)) && ValidCluster(Changed(a, b)) && ValidCluster(Changed(b, c)))
  {
    hide Changed, ValidNode;
    var steps := [Release(wave, Prepare, a), Release(wave, Promote, b), Release(wave, Cleanup, c)];
    OneRelease(work, a, wave, Prepare);
    OneRelease(a, b, wave, Promote);
    OneRelease(b, c, wave, Cleanup);
    assert steps[1..] == [Release(wave, Promote, b), Release(wave, Cleanup, c)];
    assert steps[1..][1..] == [Release(wave, Cleanup, c)];
    var s, t, u := StagesOf(work, [Release(wave, Prepare, a)]), StagesOf(a, [Release(wave, Promote, b)]),
                   StagesOf(b, [Release(wave, Cleanup, c)]);
    assert StagesOf(work, steps) == s + (t + u);
    ValidAppend(s + t, u);
    ValidAppend(s, t);
  }

  lemma ValidAppend(s: seq<Stage>, t: seq<Stage>)
    ensures ValidStages(s + t) <==> ValidStages(s) && ValidStages(t)
  {
    hide ValidCluster;
    assert forall i :: 0 <= i < |s| ==> (s + t)[i] == s[i];
    assert forall i :: 0 <= i < |t| ==> (s + t)[|s| + i] == t[i];
  }

  // ---------------------------------------------------------------- the whole construction

  datatype BuildResult = Built(stages: seq<Stage>, canary: set<Id>) | Unsafe

  /** The published sequence depends on the two maps alone, and a rollout between consistent maps
      is refused exactly when a transition is unsafe or an intermediate state is invalid. */
  method BuildRolloutStages(strategy: Strategy, hash: Id -> nat, current: Cluster, target: Cluster)
    returns (r: BuildResult)
    ensures var work, final := Complete(current, target), Complete(target, current);
            && (r.Built? ==>
                  && FabricStable(work, final)
                  && r.stages == StagesFor(work, final, strategy, hash)
                  && r.canary == CanaryOf(work, final, strategy, hash)
                  && (ChangedIds(work, final) != {} ==> ValidStages(r.stages)))
            && (Consistent(current) && Consistent(target) ==> (r.Built? <==> Accepted(work, final, strategy, hash)))
  {
    hide Complete, ChangedIds, StagesFor, StagesOf, CanaryOf, ValidStages, RolesStable, FabricStable, Consistent;
    var working := CompleteStateMap(current, target);
    var final := CompleteStateMap(target, current);
    ghost var work := working;
    CompletedKeys(current, target);
    var safe := ValidateFabricTransitions(working, final);
    if !safe {
      return Unsafe;
    }
    if Consistent(current) && Consistent(target) {
      CompleteIsConsistent(current, target);
      CompleteIsConsistent(target, current);
    }
    safe := ValidateRoleTransitions(working, final);
    if !safe {
      return Unsafe;
    }
    var changed := ChangedForwardIDs(working, final);
    if changed == {} {
      OneRelease(working, final, Full, Promote);
      NothingMoves(working, final, strategy, hash);
      var desired := ChangedStates(working, final);
      return Built(if desired == map[] then [] else [Stage(Full, Promote, 0, desired)], {});
    }
    var ok, stages, canary := BuildWaves(strategy, hash, working, final, changed);
    return if ok then Built(stages, canary) else Unsafe;
  }

  method BuildWaves(strategy: Strategy, hash: Id -> nat, work: Cluster, final: Cluster, changed: set<Id>)
    returns (ok: bool, stages: seq<Stage>, canary: set<Id>)
    requires work.Keys == final.Keys && changed == ChangedIds(work, final) && changed != {}
    ensures ok <==> ValidStages(StagesFor(work, final, strategy, hash))
    ensures ok ==> stages == StagesFor(work, final, strategy, hash)
    ensures canary == CanaryOf(work, final, strategy, hash)
  {
    hide ChangedIds, StagesOf, WaveSteps, ValidStages, AfterWave;
    var remainder, working;
    ok, stages := true, [];
    canary, remainder := SelectCanary(hash, changed, EffectivePercent(strategy));
    if canary != {} && remainder != {} {
      CanaryPlan(work, final, strategy, hash);
      ok, working, stages := AppendWaveStages(work, final, canary, Canary, false, stages);
      if !ok {
        return;
      }
      stages := stages + [Stage(Canary, Bake, strategy.bakeSeconds, map[])];
      ok, working, stages := AppendWaveStages(working, final, remainder, Full, true, stages);
    } else {
      assert remainder == {} ==> canary == changed by { assert changed == canary + remainder; }
      ok, working, stages := AppendWaveStages(work, final, changed, Full, true, stages);
    }
  }

  lemma {:induction false} NothingMoves(work: Cluster, final: Cluster, strategy: Strategy, hash: Id -> nat)
    requires work.Keys == final.Keys && ChangedIds(work, final) == {}
    ensures StagesFor(work, final, strategy, hash) == StagesOf(work, [Release(Full, Promote, final)])
    ensures CanaryOf(work, final, strategy, hash) == {}
  {
    hide ChangedIds, StagesOf;
  }

  /** The stages of a split rollout, and when all of them are valid. */
  lemma {:induction false} CanaryPlan(work: Cluster, final: Cluster, strategy: Strategy, hash: Id -> nat)
    requires work.Keys == final.Keys && CanaryOf(work, final, strategy, hash) != {}
    ensures var canary := CanaryOf(work, final, strategy, hash);
            var s := StagesOf(work, WaveSteps(work, final, canary, Canary, false));
            var t := StagesOf(AfterWave(work, final, canary),
                              WaveSteps(AfterWave(work, final, canary), final, ChangedIds(work, final) - canary, Full, true));
            var bake := [Stage(Canary, Bake, strategy.bakeSeconds, map[])];
            && StagesFor(work, final, strategy, hash) == s + bake + t
            && (ValidStages(s + bake + t) <==> ValidStages(s) && ValidStages(t))
  {
    hide ChangedIds, StagesOf, WaveSteps, AfterWave, Frontier, ValidNode, WaveMap;
    assert ValidCluster(map[]);
    var canary := CanaryOf(work, final, strategy, hash);
    var wave := WaveSteps(work, final, canary, Canary, false);
    var soak := Soak(strategy.bakeSeconds);
    var after := AfterWave(work, final, canary);
    var tail := WaveSteps(after, final, ChangedIds(work, final) - canary, Full, true);
    CanaryWaveFrontier(work, final, strategy, hash, 4);
    AfterIsWaveMap(work, final, canary);
    StagesAppend(work, wave + [soak], tail);
    CanaryWaveFrontier(work, final, strategy, hash, 3);
    StagesAppend(work, wave, [soak]);
    SoakStage(Frontier(work, wave, 3), soak);
    var s, t := StagesOf(work, wave), StagesOf(after, tail);
    var bake := [Stage(Canary, Bake, strategy.bakeSeconds, map[])];
    assert forall i :: 0 <= i < |bake| ==> bake[i].desired == map[];
    ValidAppend(s + bake, t);
    ValidAppend(s, bake);
  }
}
