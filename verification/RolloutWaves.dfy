/** The maps a wave moves through, entry by entry, and what nodes caught between two of them
    show. */
module RolloutWaves {
  import opened Spec
  import opened CanarySelection
  import opened RolloutPlan

  // ---------------------------------------------------------------- entries of the working maps

  lemma RewriteAt(s: NodeState, final: NodeState, drops: set<Id>, puts: set<Id>, id: Id)
    requires puts <= final.forwards.Keys
    ensures var r := Rewrite(s, final, drops, puts);
            && (id in r.forwards <==> id in puts || (id in s.forwards && id !in drops))
            && (id in r.forwards ==> r.forwards[id] == if id in puts then final.forwards[id] else s.forwards[id])
  {
  }

  predicate IngressAt(c: Cluster, n: Id, id: Id) {
    At(c, n, id).Some? && At(c, n, id).value.ingress == n
  }

  predicate ExitAt(c: Cluster, n: Id, id: Id) {
    At(c, n, id).Some? && IsExit(At(c, n, id).value, n)
  }

  /** The node has exactly one end of the forward, if it has an entry for it at all. */
  predicate OneEnd(c: Cluster, n: Id, id: Id) {
    At(c, n, id).Some? ==> (IngressAt(c, n, id) <==> !ExitAt(c, n, id))
  }

  lemma EntryIsPlaced(c: Cluster, n: Id, id: Id)
    requires Consistent(c) && At(c, n, id).Some?
    ensures Placed(c, n, id)
  {
    hide Placed, At, SamePlacement;
  }

  lemma OnePlacement(c: Cluster, m: Id, n: Id, id: Id)
    requires Consistent(c) && At(c, m, id).Some? && At(c, n, id).Some?
    ensures SamePlacement(At(c, m, id).value, At(c, n, id).value)
  {
    hide Placed, At, SamePlacement;
  }

  lemma HasOneEnd(c: Cluster, n: Id, id: Id)
    requires Consistent(c)
    ensures OneEnd(c, n, id)
  {
    hide Consistent, At;
    if At(c, n, id).Some? {
      EntryIsPlaced(c, n, id);
    }
  }

  /** What a stable move says of one forward on one node: which end of it the node has, and that it
      keeps that end. */
  predicate SettledAt(work: Cluster, final: Cluster, n: Id, id: Id) {
    && OneEnd(work, n, id) && OneEnd(final, n, id)
    && (At(work, n, id).Some? && At(final, n, id).Some? ==> (IngressAt(work, n, id) <==> IngressAt(final, n, id)))
  }

  lemma SettledEverywhere(work: Cluster, final: Cluster, n: Id, id: Id)
    requires Consistent(work) && Consistent(final) && RolesStable(work, final)
    ensures SettledAt(work, final, n, id)
  {
    hide Consistent, At, IngressStable;
    HasOneEnd(work, n, id);
    HasOneEnd(final, n, id);
    assert At(work, n, id).Some? && At(final, n, id).Some? ==>
             RoleOf(At(work, n, id).value, n) == RoleOf(At(final, n, id).value, n);
  }

  lemma PreparedAt(start: Cluster, final: Cluster, sel: set<Id>, n: Id, id: Id)
    requires start.Keys == final.Keys
    ensures At(Prepared(start, final, sel), n, id) ==
            if id in sel && ExitAt(final, n, id) then At(final, n, id) else At(start, n, id)
  {
    if n in start {
      RewriteAt(start[n], final[n], {}, ExitIds(final[n], n, sel), id);
    }
  }

  lemma PromotedAt(work: Cluster, start: Cluster, final: Cluster, sel: set<Id>, n: Id, id: Id)
    requires work.Keys == start.Keys == final.Keys
    ensures At(Promoted(work, start, final, sel), n, id) ==
            if id in sel && IngressAt(final, n, id) then At(final, n, id)
            else if id in sel && IngressAt(start, n, id) then None
            else At(work, n, id)
  {
    if n in start {
      RewriteAt(work[n], final[n], IngressIds(start[n], n, sel), IngressIds(final[n], n, sel), id);
    }
  }

  lemma CleanedAt(work: Cluster, start: Cluster, final: Cluster, sel: set<Id>, n: Id, id: Id)
    requires work.Keys == start.Keys == final.Keys
    ensures At(Cleaned(work, start, final, sel), n, id) ==
            if id in sel && ExitAt(final, n, id) then At(final, n, id)
            else if id in sel && ExitAt(start, n, id) then None
            else At(work, n, id)
  {
    if n in start {
      RewriteAt(work[n], final[n], ExitIds(start[n], n, sel), ExitIds(final[n], n, sel), id);
    }
  }

  /** The forwards in `done` are where the target wants them, all others where they were. */
  ghost predicate Progress(c: Cluster, work: Cluster, final: Cluster, done: set<Id>) {
    && c.Keys == work.Keys == final.Keys
    && forall n, id :: SameEntry(At(c, n, id), At(if id in done then final else work, n, id))
  }

  /** Both maps consistent, no node changing its role in a forward. */
  ghost predicate StableMove(work: Cluster, final: Cluster) {
    && work.Keys == final.Keys
    && Consistent(work) && Consistent(final)
    && RolesStable(work, final)
  }

  ghost predicate SafeMove(work: Cluster, final: Cluster) {
    StableMove(work, final) && PathStable(work, final)
  }

  lemma WaveAt(start: Cluster, final: Cluster, sel: set<Id>, n: Id, id: Id)
    requires start.Keys == final.Keys
    ensures At(AfterWave(start, final, sel), n, id) ==
            if id !in sel then At(start, n, id)
            else if ExitAt(final, n, id) then At(final, n, id)
            else if ExitAt(start, n, id) then None
            else if IngressAt(final, n, id) then At(final, n, id)
            else if IngressAt(start, n, id) then None
            else At(start, n, id)
  {
    hide Prepared, Promoted, Cleaned, At, IngressAt, ExitAt;
    var prepared := Prepared(start, final, sel);
    var promoted := Promoted(prepared, start, final, sel);
    PreparedAt(start, final, sel, n, id);
    PromotedAt(prepared, start, final, sel, n, id);
    CleanedAt(promoted, start, final, sel, n, id);
  }

  lemma WaveProgress(start: Cluster, work: Cluster, final: Cluster, done: set<Id>, sel: set<Id>)
    requires Progress(start, work, final, done) && sel !! done
    requires Consistent(work) && Consistent(final) && RolesStable(work, final)
    ensures Progress(AfterWave(start, final, sel), work, final, done + sel)
  {
    hide AfterWave, Consistent, At, RolesStable;
    forall n, id
      ensures SameEntry(At(AfterWave(start, final, sel), n, id),
                        At(if id in done + sel then final else work, n, id))
    {
      WaveAt(start, final, sel, n, id);
      assert SameEntry(At(start, n, id), At(if id in done then final else work, n, id));
      SettledEverywhere(work, final, n, id);
    }
  }

  // ---------------------------------------------------------------- partially released steps

  predicate Similar(a: Cluster, b: Cluster) {
    a.Keys == b.Keys && forall n :: n in a ==> SameUpToClass(a[n], b[n])
  }

  /** Each node is at one of the two maps. */
  predicate Between(c: Cluster, a: Cluster, b: Cluster) {
    && c.Keys == a.Keys == b.Keys
    && forall n :: n in c ==> SameUpToClass(c[n], a[n]) || SameUpToClass(c[n], b[n])
  }

  /** The node shows, for every forward, the entries of one of the two maps. */
  ghost predicate NodeIn(c: Cluster, n: Id, a: Cluster) {
    forall id :: SameEntry(At(c, n, id), At(a, n, id))
  }

  lemma BetweenEntries(c: Cluster, a: Cluster, b: Cluster, n: Id)
    requires Between(c, a, b)
    ensures NodeIn(c, n, a) || NodeIn(c, n, b)
  {
    if n in c {
      if SameUpToClass(c[n], a[n]) {
        SameUpToClassEntries(c[n], a[n]);
        assert NodeIn(c, n, a);
      } else {
        SameUpToClassEntries(c[n], b[n]);
        assert NodeIn(c, n, b);
      }
    } else {
      assert NodeIn(c, n, a);
    }
  }

  function Reached(work: Cluster, step: Step): Cluster {
    if step.Release? then step.next else work
  }

  /** The map reached after the first `i` steps. */
  function Frontier(work: Cluster, steps: seq<Step>, i: nat): Cluster
    requires i <= |steps|
    decreases i
  {
    if i == 0 then work else Frontier(Reached(work, steps[0]), steps[1..], i - 1)
  }

  /** `live` lies between the maps before and after step `i`, or at the last one. */
  ghost predicate AtStep(live: Cluster, work: Cluster, steps: seq<Step>, i: nat) {
    && i <= |steps|
    && Between(live, Frontier(work, steps, i), Frontier(work, steps, if i < |steps| then i + 1 else i))
  }

  predicate SameKeys(work: Cluster, steps: seq<Step>) {
    forall i :: 0 <= i < |steps| && steps[i].Release? ==> steps[i].next.Keys == work.Keys
  }

  lemma AtLaterStep(live: Cluster, work: Cluster, steps: seq<Step>, i: nat)
    requires steps != [] && AtStep(live, Reached(work, steps[0]), steps[1..], i)
    ensures AtStep(live, work, steps, i + 1)
  {
    hide Between;
  }

  lemma TailSameKeys(work: Cluster, steps: seq<Step>)
    requires steps != [] && SameKeys(work, steps)
    ensures Reached(work, steps[0]).Keys == work.Keys
    ensures SameKeys(Reached(work, steps[0]), steps[1..])
  {
    forall j | 0 <= j < |steps| - 1 && steps[1..][j].Release?
      ensures steps[1..][j].next.Keys == work.Keys
    {
      assert steps[1..][j] == steps[j + 1];
    }
  }

  /** However far a rollout got, each node is at one of two consecutive working maps: the one
      the last complete stage reached or the one being released. */
  lemma {:induction false} LiveIsBetween(work: Cluster, steps: seq<Step>, live: Cluster, k: nat, nodes: set<Id>)
    returns (i: nat)
    requires Similar(live, work) && SameKeys(work, steps)
    requires k <= |StagesOf(work, steps)|
    ensures AtStep(Live(live, StagesOf(work, steps), k, nodes), work, steps, i)
    ensures k == |StagesOf(work, steps)| ==> i == |steps|
    decreases |steps|
  {
    hide Similar, Between, Changed, Install, AtStep, SameKeys;
    if steps == [] {
      i := 0;
      SimilarIsAtStep(live, work);
    } else {
      var next, rest := Reached(work, steps[0]), steps[1..];
      TailSameKeys(work, steps);
      if steps[0].Release? && Changed(work, next) == map[] {
        NothingChanged(live, work, next);
        assert StagesOf(work, steps) == StagesOf(next, rest);
        i := LiveIsBetween(next, rest, live, k, nodes);
        AtLaterStep(Live(live, StagesOf(next, rest), k, nodes), work, steps, i);
        i := i + 1;
      } else {
        var head := StagesOf(work, steps)[0];
        var stages := StagesOf(work, steps);
        assert stages[1..] == StagesOf(next, rest) && |stages| == 1 + |StagesOf(next, rest)|;
        InstallIsBetween(work, steps, live, head, nodes);
        if k == 0 {
          i := 0;
          assert Live(live, stages, 0, nodes) == Install(live, head, nodes);
        } else {
          assert Live(live, stages, k, nodes) == Live(Install(live, head, live.Keys), stages[1..], k - 1, nodes);
          i := LiveIsBetween(next, rest, Install(live, head, live.Keys), k - 1, nodes);
          AtLaterStep(Live(live, StagesOf(work, steps), k, nodes), work, steps, i);
          i := i + 1;
        }
      }
    }
  }

  lemma SimilarIsAtStep(live: Cluster, work: Cluster)
    requires Similar(live, work)
    ensures AtStep(live, work, [], 0)
  {
  }

  lemma NothingChanged(live: Cluster, work: Cluster, next: Cluster)
    requires work.Keys == next.Keys && Changed(work, next) == map[] && Similar(live, work)
    ensures Similar(live, next)
  {
    forall n | n in live
      ensures SameUpToClass(live[n], next[n])
    {
      assert n !in Changed(work, next);
      SimilarStates(live[n], work[n], next[n]);
    }
  }

  lemma InstallIsBetween(work: Cluster, steps: seq<Step>, live: Cluster, stage: Stage, nodes: set<Id>)
    requires steps != [] && SameKeys(work, steps) && Similar(live, work)
    requires stage.desired == if steps[0].Release? then Changed(work, steps[0].next) else map[]
    ensures AtStep(Install(live, stage, nodes), work, steps, 0)
    ensures Similar(Install(live, stage, live.Keys), Reached(work, steps[0]))
  {
    hide Similar, Between, Changed, Install;
    var next := Reached(work, steps[0]);
    assert Frontier(work, steps, 1) == Frontier(next, steps[1..], 0) == next;
    InstallChanged(work, next, live, stage, nodes);
  }

  lemma InstallChanged(work: Cluster, next: Cluster, live: Cluster, stage: Stage, nodes: set<Id>)
    requires next.Keys == work.Keys && Similar(live, work)
    requires stage.desired == Changed(work, next) || (stage.desired == map[] && next == work)
    ensures Between(Install(live, stage, nodes), work, next)
    ensures Similar(Install(live, stage, live.Keys), next)
  {
    hide SameUpToClass;
    forall n | n in live
      ensures SameUpToClass(next[n], next[n])
      ensures n in stage.desired ==> stage.desired[n] == next[n]
      ensures n !in stage.desired ==> SameUpToClass(live[n], next[n])
    {
      if n !in stage.desired {
        assert next == work || n !in Changed(work, next);
        SimilarStates(live[n], work[n], next[n]);
      }
      SameAsItself(next[n]);
    }
  }

  lemma SimilarStates(a: NodeState, b: NodeState, c: NodeState)
    requires SameUpToClass(a, b) && SameUpToClass(b, c)
    ensures SameUpToClass(a, c)
  {
  }

  // ---------------------------------------------------------------- exit-first safety

  lemma StepsHaveSameKeys(work: Cluster, final: Cluster, strategy: Strategy, hash: Id -> nat)
    requires work.Keys == final.Keys
    ensures SameKeys(work, StepsOf(work, final, strategy, hash))
  {
    hide AfterWave, WaveSteps, ChangedIds, CanaryOf;
    var changed := ChangedIds(work, final);
    var canary := CanaryOf(work, final, strategy, hash);
    WaveHasSameKeys(work, final, changed, Full, true);
    WaveHasSameKeys(work, final, canary, Canary, false);
    WaveHasSameKeys(AfterWave(work, final, canary), final, changed - canary, Full, true);
  }

  lemma WaveHasSameKeys(start: Cluster, final: Cluster, sel: set<Id>, wave: Wave, exact: bool)
    requires start.Keys == final.Keys
    ensures SameKeys(final, WaveSteps(start, final, sel, wave, exact))
  {
    hide Prepared, Promoted, Cleaned;
  }

  lemma ServedUpToClass(c: Cluster, n: Id, id: Id, d: Cluster)
    requires At(c, n, id).Some? && At(d, n, id).Some?
    requires SameEntry(At(c, n, id), At(d, n, id))
    requires var x := At(c, n, id).value.exit; SameEntry(At(c, x, id), At(d, x, id))
    ensures Served(c, n, id) <==> Served(d, n, id)
  {
  }

  lemma ConsistentIsServed(c: Cluster, n: Id, id: Id)
    requires Consistent(c) && ValidCluster(c) && At(c, n, id).Some?
    ensures Served(c, n, id)
  {
    hide Consistent, Disjoint, ValidLink, LinksApart;
    EntryIsPlaced(c, n, id);
    assert ValidForward(n, c[n], c[n].forwards[id]);
    var x := At(c, n, id).value.exit;
    if At(c, x, id).Some? {
      OnePlacement(c, n, x, id);
    }
  }

  /** A forward nobody moves in this wave is served, whichever map its nodes are at. */
  lemma UntouchedIsServed(c: Cluster, base: Cluster, n: Id, id: Id)
    requires Consistent(base) && ValidCluster(base)
    requires forall m :: SameEntry(At(c, m, id), At(base, m, id))
    requires At(c, n, id).Some?
    ensures Served(c, n, id)
  {
    assert SameEntry(At(c, n, id), At(base, n, id));
    ConsistentIsServed(base, n, id);
    assert SameEntry(At(c, At(c, n, id).value.exit, id), At(base, At(c, n, id).value.exit, id));
    ServedUpToClass(c, n, id, base);
  }

  /** The entry an exit node may show for a forward that is being moved. */
  predicate OneOf(e: Option<Forward>, a: Option<Forward>, b: Option<Forward>) {
    SameEntry(e, a) || SameEntry(e, b)
  }

  /** An ingress that still has its old entry is served as long as its old exit shows the old
      entry, or the target's when the target keeps that exit. */
  lemma OldIngressIsServed(c: Cluster, work: Cluster, final: Cluster, n: Id, id: Id)
    requires SafeMove(work, final) && ValidCluster(work) && ValidCluster(final)
    requires At(c, n, id).Some? && SameEntry(At(c, n, id), At(work, n, id))
    requires IngressAt(work, n, id)
    requires var x := At(c, n, id).value.exit;
             OneOf(At(c, x, id), At(work, x, id), if ExitAt(final, x, id) then At(final, x, id) else At(work, x, id))
    ensures Served(c, n, id)
  {
    var f := At(work, n, id).value;
    assert Placed(work, n, id);
    ConsistentIsServed(work, n, id);
    if f.mode.ViaExit? {
      var x := f.exit;
      var e := At(work, x, id).value;
      assert SamePlacement(f, e);
      assert Placed(work, x, id);
      assert ValidForward(n, work[n], f);
      if ExitAt(final, x, id) {
        var g := At(final, x, id).value;
        assert RetainedExit(x, e, g);
        assert IngressStable(e, g);
        assert ValidForward(x, final[x], g);
      }
    }
  }

  /** An ingress that already has its target entry is served as long as its new exit does. */
  lemma NewIngressIsServed(c: Cluster, final: Cluster, n: Id, id: Id)
    requires Consistent(final) && ValidCluster(final)
    requires At(c, n, id).Some? && SameEntry(At(c, n, id), At(final, n, id))
    requires var x := At(c, n, id).value.exit;
             ExitAt(final, x, id) ==> SameEntry(At(c, x, id), At(final, x, id))
    ensures Served(c, n, id)
  {
    hide Consistent, ValidCluster, ListenerOf;
    EntryIsPlaced(final, n, id);
    ConsistentIsServed(final, n, id);
    var x := At(c, n, id).value.exit;
    if At(final, x, id).Some? {
      OnePlacement(final, n, x, id);
    }
    if ExitAt(final, x, id) {
      ServedUpToClass(c, n, id, final);
    }
  }

  /** The entry a moved forward has on a node once `j` phases of its wave are released. */
  function EntryAfter(work: Cluster, final: Cluster, j: nat, n: Id, id: Id): Option<Forward> {
    if j == 0 then At(work, n, id)
    else if j == 1 then
      if ExitAt(final, n, id) then At(final, n, id) else At(work, n, id)
    else if j == 2 then
      if IngressAt(final, n, id) then At(final, n, id)
      else if IngressAt(work, n, id) then None
      else if ExitAt(final, n, id) then At(final, n, id)
      else At(work, n, id)
    else At(final, n, id)
  }

  /** The working map of a wave after `j` phases. */
  function WaveMap(start: Cluster, final: Cluster, sel: set<Id>, exact: bool, j: nat): (c: Cluster)
    requires start.Keys == final.Keys
    ensures c.Keys == start.Keys
  {
    var prepared := Prepared(start, final, sel);
    var promoted := Promoted(prepared, start, final, sel);
    if j == 0 then start
    else if j == 1 then prepared
    else if j == 2 then promoted
    else if exact then final
    else AfterWave(start, final, sel)
  }

  /** A wave of a stable move: where it starts, and that it finishes what is left to do. */
  ghost predicate WaveOf(start: Cluster, work: Cluster, final: Cluster, done: set<Id>, sel: set<Id>, exact: bool) {
    && StableMove(work, final) && ValidCluster(work) && ValidCluster(final)
    && Progress(start, work, final, done)
    && sel !! done
    && (exact ==> ChangedIds(work, final) <= done + sel)
  }

  lemma MovedEntry(start: Cluster, work: Cluster, final: Cluster, done: set<Id>, sel: set<Id>, exact: bool,
                   j: nat, n: Id, id: Id)
    requires WaveOf(start, work, final, done, sel, exact) && id in sel && j <= 3
    ensures SameEntry(At(WaveMap(start, final, sel, exact, j), n, id), EntryAfter(work, final, j, n, id))
  {
    hide Prepared, Promoted, Cleaned, ValidCluster, AfterWave, At, RolesStable, Consistent;
    var prepared := Prepared(start, final, sel);
    assert SameEntry(At(start, n, id), At(work, n, id));
    if j < 3 {
      PreparedAt(start, final, sel, n, id);
      PromotedAt(prepared, start, final, sel, n, id);
    } else if !exact {
      WaveProgress(start, work, final, done, sel);
      assert SameEntry(At(AfterWave(start, final, sel), n, id), At(final, n, id));
    }
  }

  lemma UnmovedEntry(start: Cluster, work: Cluster, final: Cluster, done: set<Id>, sel: set<Id>, exact: bool,
                     j: nat, n: Id, id: Id)
    requires WaveOf(start, work, final, done, sel, exact) && id !in sel && j <= 3
    ensures SameEntry(At(WaveMap(start, final, sel, exact, j), n, id),
                      At(if id in done then final else work, n, id))
  {
    hide Prepared, Promoted, Cleaned, ValidCluster, AfterWave, StableMove, ChangedIds, At;
    var prepared := Prepared(start, final, sel);
    var promoted := Promoted(prepared, start, final, sel);
    assert SameEntry(At(start, n, id), At(if id in done then final else work, n, id));
    PreparedAt(start, final, sel, n, id);
    PromotedAt(prepared, start, final, sel, n, id);
    WaveAt(start, final, sel, n, id);
    if exact && id !in done {
      UnchangedEntry(work, final, n, id);
    }
  }

  lemma UnchangedEntry(work: Cluster, final: Cluster, n: Id, id: Id)
    requires work.Keys == final.Keys && id !in ChangedIds(work, final)
    ensures SameEntry(At(work, n, id), At(final, n, id))
  {
    if At(work, n, id).Some? || At(final, n, id).Some? {
      assert n in work.Keys + final.Keys;
      assert id in Ids(work) + Ids(final);
    }
  }

  /** An ingress entry seen between two phases is the old one or the target's. */
  lemma IngressSource(work: Cluster, final: Cluster, j: nat, n: Id, id: Id, e: Option<Forward>)
    requires SettledAt(work, final, n, id) && j < 3
    requires OneOf(e, EntryAfter(work, final, j, n, id), EntryAfter(work, final, j + 1, n, id))
    requires e.Some? && e.value.ingress == n
    ensures (j > 0 && SameEntry(e, At(final, n, id))) || (j < 2 && SameEntry(e, At(work, n, id)))
  {
    hide At;
  }

  /** An old exit shows its old entry, or the target's if it stays the exit, until cleanup. */
  lemma OldExitSource(work: Cluster, final: Cluster, j: nat, x: Id, id: Id, e: Option<Forward>)
    requires SettledAt(work, final, x, id) && j < 2 && ExitAt(work, x, id)
    requires OneOf(e, EntryAfter(work, final, j, x, id), EntryAfter(work, final, j + 1, x, id))
    ensures OneOf(e, At(work, x, id), if ExitAt(final, x, id) then At(final, x, id) else At(work, x, id))
  {
    hide At;
  }

  /** A target exit shows the target's entry from the prepare barrier on. */
  lemma NewExitSource(work: Cluster, final: Cluster, j: nat, x: Id, id: Id, e: Option<Forward>)
    requires SettledAt(work, final, x, id) && 0 < j < 3 && ExitAt(final, x, id)
    requires OneOf(e, EntryAfter(work, final, j, x, id), EntryAfter(work, final, j + 1, x, id))
    ensures SameEntry(e, At(final, x, id))
  {
    hide At;
  }

  /** Between two phases of its wave a moved forward stays served on every ingress. */
  lemma MovedIsServed(c: Cluster, work: Cluster, final: Cluster, j: nat, n: Id, id: Id)
    requires SafeMove(work, final) && ValidCluster(work) && ValidCluster(final) && j < 3
    requires forall m :: OneOf(At(c, m, id), EntryAfter(work, final, j, m, id), EntryAfter(work, final, j + 1, m, id))
    requires At(c, n, id).Some?
    ensures Served(c, n, id)
  {
    hide ValidCluster, EntryAfter, OneOf, Consistent, RolesStable, PathStable, SettledAt;
    var f := At(c, n, id).value;
    SettledEverywhere(work, final, n, id);
    assert OneOf(At(c, n, id), EntryAfter(work, final, j, n, id), EntryAfter(work, final, j + 1, n, id));
    if f.mode.ViaExit? && f.ingress == n {
      var x := f.exit;
      SettledEverywhere(work, final, x, id);
      assert OneOf(At(c, x, id), EntryAfter(work, final, j, x, id), EntryAfter(work, final, j + 1, x, id));
      IngressSource(work, final, j, n, id, At(c, n, id));
      if j > 0 && SameEntry(At(c, n, id), At(final, n, id)) {
        if ExitAt(final, x, id) {
          NewExitSource(work, final, j, x, id, At(c, x, id));
        }
        NewIngress(c, work, final, n, id);
      } else {
        OldExit(work, final, n, id);
        OldExitSource(work, final, j, x, id, At(c, x, id));
        OldIngressIsServed(c, work, final, n, id);
      }
    }
  }

  lemma NewIngress(c: Cluster, work: Cluster, final: Cluster, n: Id, id: Id)
    requires SafeMove(work, final) && ValidCluster(final)
    requires At(c, n, id).Some? && SameEntry(At(c, n, id), At(final, n, id))
    requires var x := At(c, n, id).value.exit;
             ExitAt(final, x, id) ==> SameEntry(At(c, x, id), At(final, x, id))
    ensures Served(c, n, id)
  {
    NewIngressIsServed(c, final, n, id);
  }

  lemma OldExit(work: Cluster, final: Cluster, n: Id, id: Id)
    requires SafeMove(work, final) && IngressAt(work, n, id) && At(work, n, id).value.mode.ViaExit?
    ensures ExitAt(work, At(work, n, id).value.exit, id)
  {
    hide Consistent, PathStable, RolesStable;
    EntryIsPlaced(work, n, id);
    OnePlacement(work, n, At(work, n, id).value.exit, id);
  }

  /** A node caught between two phases shows, for a forward being moved, what one of them gives it. */
  lemma MovedInBetween(c: Cluster, start: Cluster, work: Cluster, final: Cluster, done: set<Id>, sel: set<Id>,
                       exact: bool, j: nat, m: Id, id: Id)
    requires WaveOf(start, work, final, done, sel, exact) && id in sel && j < 3
    requires Between(c, WaveMap(start, final, sel, exact, j), WaveMap(start, final, sel, exact, j + 1))
    ensures OneOf(At(c, m, id), EntryAfter(work, final, j, m, id), EntryAfter(work, final, j + 1, m, id))
  {
    hide WaveMap, StableMove, ValidCluster, ChangedIds, Between, EntryAfter, At;
    BetweenEntries(c, WaveMap(start, final, sel, exact, j), WaveMap(start, final, sel, exact, j + 1), m);
    MovedEntry(start, work, final, done, sel, exact, j, m, id);
    MovedEntry(start, work, final, done, sel, exact, j + 1, m, id);
  }

  lemma UnmovedInBetween(c: Cluster, start: Cluster, work: Cluster, final: Cluster, done: set<Id>, sel: set<Id>,
                         exact: bool, j: nat, m: Id, id: Id)
    requires WaveOf(start, work, final, done, sel, exact) && id !in sel && j < 3
    requires Between(c, WaveMap(start, final, sel, exact, j), WaveMap(start, final, sel, exact, j + 1))
    ensures SameEntry(At(c, m, id), At(if id in done then final else work, m, id))
  {
    hide WaveMap, StableMove, ValidCluster, ChangedIds, Between, At;
    BetweenEntries(c, WaveMap(start, final, sel, exact, j), WaveMap(start, final, sel, exact, j + 1), m);
    UnmovedEntry(start, work, final, done, sel, exact, j, m, id);
    UnmovedEntry(start, work, final, done, sel, exact, j + 1, m, id);
  }

  lemma WaveIsExitFirst(c: Cluster, start: Cluster, work: Cluster, final: Cluster, done: set<Id>, sel: set<Id>,
                        exact: bool, j: nat)
    requires WaveOf(start, work, final, done, sel, exact) && PathStable(work, final) && j < 3
    requires Between(c, WaveMap(start, final, sel, exact, j), WaveMap(start, final, sel, exact, j + 1))
    ensures ExitFirst(c)
  {
    hide WaveMap, ValidCluster, Between, EntryAfter, ChangedIds, Progress, Served, Consistent, OneOf, At, PathStable,
      RolesStable;
    forall n, id | At(c, n, id).Some?
      ensures Served(c, n, id)
    {
      if id in sel {
        forall m
          ensures OneOf(At(c, m, id), EntryAfter(work, final, j, m, id), EntryAfter(work, final, j + 1, m, id))
        {
          MovedInBetween(c, start, work, final, done, sel, exact, j, m, id);
        }
        MovedIsServed(c, work, final, j, n, id);
      } else {
        forall m
          ensures SameEntry(At(c, m, id), At(if id in done then final else work, m, id))
        {
          UnmovedInBetween(c, start, work, final, done, sel, exact, j, m, id);
        }
        UntouchedIsServed(c, if id in done then final else work, n, id);
      }
    }
  }
}
