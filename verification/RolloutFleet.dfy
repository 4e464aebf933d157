/** The controller together with the agents: snapshots and acknowledgements may be lost, repeated
    or delayed without bound, agents restart and retry. What the nodes run at every moment. */
module RolloutFleet {
  import opened Spec
  import opened RolloutPlan
  import opened RolloutWaves
  import opened RolloutMachine
  import opened RolloutInvariants
  import opened RolloutRuns
  import opened AgentMoves

  datatype Report = Report(node: Id, generation: nat, content: NodeState, outcome: Outcome)

  /** `sent` holds every report ever sent; delivering one does not remove it. */
  datatype Fleet = Fleet(store: Rollout, agents: map<Id, Agent>, sent: set<Report>)

  datatype Move =
    | Controller(now: nat, stored: Cluster, unhealthy: bool)
    | Deliver(report: Report)
    | Act(node: Id, move: AgentMove)
    | Confirm(node: Id)
    | Complain(node: Id, generation: nat, outcome: Outcome)

  /** A move that is not possible leaves the fleet as it is. */
  function Next(f: Fleet, m: Move): (g: Fleet)
    requires f.store.current < |f.store.stages|
    ensures g.store.current < |g.store.stages|
  {
    match m
    case Controller(now, stored, unhealthy) => f.(store := Handle(f.store, Tick(now, stored, unhealthy)))
    case Deliver(r) =>
      if r in f.sent then f.(store := Handle(f.store, Ack(r.node, r.generation, r.content, r.outcome))) else f
    case Confirm(n) =>
      if n in f.agents && n in f.store.nodes && f.agents[n].applied.generation > 0 then
        f.(sent := f.sent + {Report(n, f.agents[n].applied.generation, f.agents[n].applied.content, Applied)})
      else f
    case Complain(n, g, outcome) =>
      if n in f.store.nodes && 0 < g < |f.store.nodes[n]| && outcome != Applied then
        f.(sent := f.sent + {Report(n, g, f.store.nodes[n][g], outcome)})
      else f
    case Act(n, a) =>
      if n in f.agents && n in f.store.nodes && Possible(f.store.nodes[n], a) then
        f.(agents := f.agents[n := Moved(f.agents[n], a)])
      else f
  }

  predicate Genuine(h: History, s: Snapshot) {
    s.generation < |h| && h[s.generation] == s.content
  }

  /** Agents only receive what was published for their node, and their machines stay up. */
  predicate Possible(h: History, m: AgentMove) {
    !m.Forget? && (m.Fetch? ==> Genuine(h, m.snapshot))
  }

  function Moves(f: Fleet, moves: seq<Move>): (g: Fleet)
    requires f.store.current < |f.store.stages|
    ensures g.store.current < |g.store.stages|
    decreases |moves|
  {
    if moves == [] then f else Moves(Next(f, moves[0]), moves[1..])
  }

  // ---------------------------------------------------------------- what every run keeps

  predicate AgentOk(a: Agent, h: History, base: History) {
    && Genuine(h, a.applied) && Genuine(h, a.running)
    && |base| - 1 <= a.applied.generation <= a.running.generation
    && (a.pending.Some? ==> Genuine(h, a.pending.value) && a.applied.generation <= a.pending.value.generation)
  }

  predicate ReportOk(r: Report, f: Fleet) {
    && r.node in f.agents && r.node in f.store.nodes
    && r.generation < |f.store.nodes[r.node]| && f.store.nodes[r.node][r.generation] == r.content
    && (r.outcome == Applied ==> r.generation <= f.agents[r.node].applied.generation)
  }

  /** A recorded success is true. */
  predicate RowsTrue(st: StageRow, agents: map<Id, Agent>) {
    forall n :: n in st.rows && st.rows[n].generation.Some? && st.rows[n].status == Reported(Applied) ==>
      n in agents && st.rows[n].generation.value <= agents[n].applied.generation
  }

  ghost predicate FleetInv(f: Fleet, o: Origin) {
    && Inv(f.store, o)
    && f.agents.Keys == f.store.nodes.Keys
    && (forall n :: n in f.agents ==> n in o.nodes && AgentOk(f.agents[n], f.store.nodes[n], o.nodes[n]))
    && (forall r :: r in f.sent ==> ReportOk(r, f))
    && (forall i :: 0 <= i < |f.store.stages| ==> RowsTrue(f.store.stages[i], f.agents))
  }

  /** Every node has converged to its baseline before the rollout starts. */
  function Settled0(h: History): Agent
    requires h != []
  {
    var s := Snapshot(|h| - 1, h[|h| - 1]);
    Agent(s, None, s)
  }

  function Start(o: Origin, autoRollback: bool): Fleet {
    Fleet(Scheduled(o.plan, autoRollback, o.baselines, o.nodes), map n | n in o.nodes :: Settled0(o.nodes[n]), {})
  }

  lemma StartInv(o: Origin, autoRollback: bool)
    requires ValidOrigin(o)
    ensures FleetInv(Start(o, autoRollback), o)
    ensures OnTrack(Start(o, autoRollback).store, o)
  {
    ScheduledInv(o, autoRollback);
  }

  /** `t` publishes more, and records no success that `s` did not record. */
  ghost predicate Grows(s: Rollout, t: Rollout) {
    && t.nodes.Keys == s.nodes.Keys
    && (forall n :: n in s.nodes ==> s.nodes[n] <= t.nodes[n])
    && forall i, n :: 0 <= i < |t.stages| && n in t.stages[i].rows && t.stages[i].rows[n].status == Reported(Applied) ==>
         i < |s.stages| && n in s.stages[i].rows && s.stages[i].rows[n] == t.stages[i].rows[n]
  }

  lemma GrowsTransitive(s: Rollout, t: Rollout, u: Rollout)
    requires Grows(s, t) && Grows(t, u)
    ensures Grows(s, u)
  {
  }

  lemma PublishGrows(s: Rollout, i: nat, now: nat, stored: Cluster)
    requires i < |s.stages| && s.current < |s.stages|
    ensures var t := Publish(s, i, now, stored); t.Some? ==> Grows(s, t.value)
  {
    hide CanPublish, Grown, SentRows, Targets;
    var st := s.stages[i];
    if st.status == Pending && st.phase != Bake && CanPublish(st, s.nodes, stored) {
      SentGrows(st, s.nodes, stored);
    }
  }

  lemma SentGrows(st: StageRow, nodes: map<Id, History>, stored: Cluster)
    requires CanPublish(st, nodes, stored)
    ensures forall n :: n in nodes ==> nodes[n] <= Grown(st, nodes, stored)[n]
    ensures forall n :: n in st.rows && SentRows(st, nodes, stored)[n].status == Reported(Applied) ==>
      SentRows(st, nodes, stored)[n] == st.rows[n]
  {
    hide Storable;
  }

  lemma FinishGrows(s: Rollout, i: nat, now: nat, stored: Cluster)
    requires i < |s.stages| && s.current < |s.stages|
    ensures var t := Finish(s, i, now, stored); t.Some? ==> Grows(s, t.value)
  {
    hide Publish;
    var t := s.(stages := s.stages[i := s.stages[i].(status := Done)]);
    assert Grows(s, t);
    var next := NextPending(t.stages, i + 1);
    if s.stages[i].phase != Compensate && next.Some? {
      var u := t.(status := Publishing, current := next.value, bakeUntil := None);
      PublishGrows(u, next.value, now, stored);
      if Publish(u, next.value, now, stored).Some? {
        assert Grows(s, u);
        GrowsTransitive(s, u, Publish(u, next.value, now, stored).value);
      }
    }
  }

  lemma AdvanceGrows(s: Rollout, now: nat, stored: Cluster, unhealthy: bool)
    requires s.current < |s.stages|
    ensures var t := Advance(s, now, stored, unhealthy); t.Some? ==> Grows(s, t.value)
  {
    hide Publish, Finish, Compensating, Grows, RequestRollback, AllApplied;
    RollbackGrows(s, s.current);
    PublishGrows(s, s.current, now, stored);
    FinishGrows(s, s.current, now, stored);
    CompensatingGrows(s);
    var c := Compensating(s);
    PublishGrows(c, c.current, now, stored);
    if Publish(c, c.current, now, stored).Some? {
      GrowsTransitive(s, c, Publish(c, c.current, now, stored).value);
    }
  }

  lemma RollbackGrows(s: Rollout, i: nat)
    requires i < |s.stages|
    ensures Grows(s, RequestRollback(s, i)) && Grows(s, s)
  {
  }

  lemma CompensatingGrows(s: Rollout)
    ensures Grows(s, Compensating(s))
  {
    hide Disturbed;
  }

  lemma TickKeepsFleet(f: Fleet, o: Origin, now: nat, stored: Cluster, unhealthy: bool)
    requires FleetInv(f, o)
    ensures FleetInv(Next(f, Controller(now, stored, unhealthy)), o)
  {
    hide ValidOrigin, RowsOk, Increasing, Extends, Covered, Carries, OnTrack, Reverting, Advance;
    HandleKeepsInv(f.store, o, Tick(now, stored, unhealthy));
    AdvanceGrows(f.store, now, stored, unhealthy);
    var r := Advance(f.store, now, stored, unhealthy);
    if r.Some? {
      GrownFleet(f, o, r.value);
    }
  }

  lemma GrownFleet(f: Fleet, o: Origin, t: Rollout)
    requires FleetInv(f, o) && Inv(t, o) && Grows(f.store, t)
    ensures FleetInv(f.(store := t), o)
  {
    hide Sound, OnTrack, Reverting;
    var g := f.(store := t);
    forall r | r in f.sent
      ensures ReportOk(r, g)
    {
      assert ReportOk(r, f);
    }
    forall n | n in g.agents
      ensures n in o.nodes && AgentOk(g.agents[n], t.nodes[n], o.nodes[n])
    {
      assert AgentOk(f.agents[n], f.store.nodes[n], o.nodes[n]);
    }
  }

  lemma AckKeepsFleet(f: Fleet, o: Origin, r: Report)
    requires FleetInv(f, o)
    ensures FleetInv(Next(f, Deliver(r)), o)
  {
    hide Inv, Handle, AgentOk, ReportOk, RowsTrue, Acknowledge;
    if r in f.sent {
      InvHasStage(f.store, o);
      HandleKeepsInv(f.store, o, Ack(r.node, r.generation, r.content, r.outcome));
      AckFrame(f.store, r.node, r.generation, r.content, r.outcome);
      var t := Handle(f.store, Ack(r.node, r.generation, r.content, r.outcome));
      assert ReportOk(r, f);
      forall i | 0 <= i < |t.stages|
        ensures RowsTrue(t.stages[i], f.agents)
      {
        AckedRowsTrue(f, r, t, i);
      }
      var g := f.(store := t);
      forall q | q in f.sent
        ensures ReportOk(q, g)
      {
        assert ReportOk(q, f);
        SameHistories(q, f, g);
      }
    }
  }

  lemma AckedRowsTrue(f: Fleet, r: Report, t: Rollout, i: nat)
    requires ReportOk(r, f) && i < |f.store.stages| == |t.stages| && RowsTrue(f.store.stages[i], f.agents)
    requires forall m :: m in t.stages[i].rows ==> AckedRow(f.store, t, i, m, r.node, r.generation, r.outcome)
    ensures RowsTrue(t.stages[i], f.agents)
  {
  }

  lemma SameHistories(q: Report, f: Fleet, g: Fleet)
    requires ReportOk(q, f) && g.agents == f.agents && g.store.nodes == f.store.nodes
    ensures ReportOk(q, g)
  {
  }

  /** What an acknowledgement leaves of a row. */
  predicate AckedRow(s: Rollout, t: Rollout, i: nat, m: Id, n: Id, g: nat, outcome: Outcome)
    requires i < |s.stages| == |t.stages| && m in t.stages[i].rows
  {
    && m in s.stages[i].rows && t.stages[i].rows[m].generation == s.stages[i].rows[m].generation
    && (t.stages[i].rows[m] == s.stages[i].rows[m]
        || (m == n && t.stages[i].rows[m].generation == Some(g) && t.stages[i].rows[m].status == Reported(outcome)))
  }

  /** An acknowledgement publishes nothing and touches no row but the ones it names. */
  lemma AckFrame(s: Rollout, n: Id, g: nat, content: NodeState, outcome: Outcome)
    requires s.current < |s.stages|
    ensures var t := Handle(s, Ack(n, g, content, outcome));
            && t.nodes == s.nodes && |t.stages| == |s.stages|
            && forall i, m :: 0 <= i < |t.stages| && m in t.stages[i].rows ==> AckedRow(s, t, i, m, n, g, outcome)
  {
    hide MatchAt;
  }

  lemma AgentKeepsFleet(f: Fleet, o: Origin, n: Id, a: Agent)
    requires FleetInv(f, o) && n in f.agents && AgentOk(a, f.store.nodes[n], o.nodes[n])
    requires a.applied.generation >= f.agents[n].applied.generation
    ensures FleetInv(f.(agents := f.agents[n := a]), o)
  {
    hide Inv, AgentOk, ReportOk, RowsTrue;
    var g := f.(agents := f.agents[n := a]);
    forall r | r in f.sent
      ensures ReportOk(r, g)
    {
      ReportStillOk(r, f, n, a);
    }
    forall i | 0 <= i < |g.store.stages|
      ensures RowsTrue(g.store.stages[i], g.agents)
    {
      RowsStillTrue(f.store.stages[i], f.agents, n, a);
    }
  }

  lemma ReportStillOk(r: Report, f: Fleet, n: Id, a: Agent)
    requires ReportOk(r, f) && n in f.agents && a.applied.generation >= f.agents[n].applied.generation
    ensures ReportOk(r, f.(agents := f.agents[n := a]))
  {
  }

  lemma RowsStillTrue(st: StageRow, agents: map<Id, Agent>, n: Id, a: Agent)
    requires RowsTrue(st, agents) && n in agents && a.applied.generation >= agents[n].applied.generation
    ensures RowsTrue(st, agents[n := a])
  {
  }

  lemma MovedIsOk(a: Agent, h: History, base: History, m: AgentMove)
    requires AgentOk(a, h, base) && Possible(h, m)
    ensures AgentOk(Moved(a, m), h, base) && a.applied.generation <= Moved(a, m).applied.generation
  {
  }

  lemma NextKeepsInv(f: Fleet, o: Origin, m: Move)
    requires FleetInv(f, o)
    ensures FleetInv(Next(f, m), o)
    ensures !OnTrack(f.store, o) ==> !OnTrack(Next(f, m).store, o)
  {
    hide ValidOrigin, RowsOk, Increasing, Extends, Covered, Carries, OnTrack, Reverting, Handle, RowsTrue, ReportOk;
    match m
    case Controller(now, stored, unhealthy) =>
      HandleKeepsInv(f.store, o, Tick(now, stored, unhealthy));
      TickKeepsFleet(f, o, now, stored, unhealthy);
    case Deliver(r) =>
      HandleKeepsInv(f.store, o, Ack(r.node, r.generation, r.content, r.outcome));
      AckKeepsFleet(f, o, r);
    case Act(n, a) =>
      if Next(f, m) != f {
        MovedIsOk(f.agents[n], f.store.nodes[n], o.nodes[n], a);
        AgentKeepsFleet(f, o, n, Moved(f.agents[n], a));
      }
    case Confirm(n) => SendKeepsFleet(f, o, m);
    case Complain(n, g, outcome) => SendKeepsFleet(f, o, m);
  }

  lemma SendKeepsFleet(f: Fleet, o: Origin, m: Move)
    requires FleetInv(f, o) && (m.Confirm? || m.Complain?)
    ensures FleetInv(Next(f, m), o)
  {
    hide FleetInv, Inv, ReportOk, Handle;
    FleetParts(f, o, m.node);
    var g := Next(f, m);
    if g != f {
      var r :| r in g.sent && r !in f.sent && g.sent == f.sent + {r};
      SentIsOk(f, r);
      OneMoreReport(f, o, r);
      assert g == f.(sent := f.sent + {r});
    }
  }

  lemma FleetParts(f: Fleet, o: Origin, n: Id)
    requires FleetInv(f, o)
    ensures f.store.current < |f.store.stages| && f.agents.Keys == f.store.nodes.Keys
    ensures n in f.agents ==> Genuine(f.store.nodes[n], f.agents[n].applied)
  {
    hide ReportOk, RowsTrue;
    InvHasStage(f.store, o);
    assert n in f.agents ==> AgentOk(f.agents[n], f.store.nodes[n], o.nodes[n]);
  }

  lemma OneMoreReport(f: Fleet, o: Origin, r: Report)
    requires FleetInv(f, o) && ReportOk(r, f)
    ensures FleetInv(f.(sent := f.sent + {r}), o)
  {
    hide Inv, AgentOk, RowsTrue, ReportOk;
    var g := f.(sent := f.sent + {r});
    forall q | q in g.sent
      ensures ReportOk(q, g)
    {
      assert ReportOk(q, f);
      SameHistories(q, f, g);
    }
  }

  /** A report about the applied state, or an error about anything published, is true. */
  lemma SentIsOk(f: Fleet, r: Report)
    requires r.node in f.agents && r.node in f.store.nodes && Genuine(f.store.nodes[r.node], Snapshot(r.generation, r.content))
    requires r.outcome == Applied ==> r.generation == f.agents[r.node].applied.generation
    ensures ReportOk(r, f)
  {
  }

  lemma {:induction false} MovesKeepInv(f: Fleet, o: Origin, moves: seq<Move>)
    requires FleetInv(f, o)
    ensures FleetInv(Moves(f, moves), o)
    decreases |moves|
  {
    hide Inv, Next, AgentOk, ReportOk, RowsTrue;
    if moves != [] {
      assert f.store.current < |f.store.stages| by { InvHasStage(f.store, o); }
      NextKeepsInv(f, o, moves[0]);
      MovesKeepInv(Next(f, moves[0]), o, moves[1..]);
    }
  }

  lemma InvHasStage(s: Rollout, o: Origin)
    requires Inv(s, o)
    ensures s.current < |s.stages|
  {
  }

  // ---------------------------------------------------------------- what the nodes run

  /** What every node runs. */
  function Running(f: Fleet, o: Origin): Cluster {
    map n | n in o.baselines :: if n in f.agents then f.agents[n].running.content else o.baselines[n]
  }

  /** The state a node holds once the first `k` stages of the plan are installed. */
  function Installed(o: Origin, k: nat, n: Id): NodeState
    requires k <= |o.plan| && n in o.baselines
    decreases k
  {
    if k == 0 then o.baselines[n]
    else if n in o.plan[k - 1].desired then o.plan[k - 1].desired[n]
    else Installed(o, k - 1, n)
  }

  lemma {:induction false} LiveSplits(live: Cluster, stages: seq<Stage>, k: nat, nodes: set<Id>)
    requires k < |stages|
    ensures Live(live, stages, k, {}).Keys == live.Keys
    ensures Live(live, stages, k, nodes) == Install(Live(live, stages, k, {}), stages[k], nodes)
    ensures Live(live, stages, k + 1, {}) == Install(Live(live, stages, k, {}), stages[k], live.Keys)
    decreases k
  {
    if k == 0 {
      assert Install(live, stages[0], {}) == live;
      var next := Install(live, stages[0], live.Keys);
      assert Live(live, stages, 1, {}) == Live(next, stages[1..], 0, {});
      if |stages| > 1 {
        assert Install(next, stages[1..][0], {}) == next;
      }
    } else {
      LiveSplits(Install(live, stages[0], live.Keys), stages[1..], k - 1, nodes);
    }
  }

  lemma {:induction false} LiveIsInstalled(o: Origin, k: nat, n: Id)
    requires k <= |o.plan| && n in o.baselines
    ensures n in Live(o.baselines, o.plan, k, {}) && Live(o.baselines, o.plan, k, {})[n] == Installed(o, k, n)
    decreases k
  {
    if k == 0 {
      if o.plan != [] {
        assert Install(o.baselines, o.plan[0], {}) == o.baselines;
      }
    } else {
      LiveSplits(o.baselines, o.plan, k - 1, {});
      LiveIsInstalled(o, k - 1, n);
    }
  }

  /** Generation `g` is the last one the first `k` stages sent to the node. */
  predicate LastOf(s: Rollout, o: Origin, k: nat, n: Id, g: nat)
    requires |s.stages| >= |o.plan| >= k
  {
    && (forall i :: 0 <= i < k && n in s.stages[i].rows ==>
          s.stages[i].rows[n].generation.Some? && s.stages[i].rows[n].generation.value <= g)
    && (forall i :: k <= i < |s.stages| && n in s.stages[i].rows && s.stages[i].rows[n].generation.Some? ==>
          s.stages[i].rows[n].generation.value > g)
  }

  lemma {:induction false} GenerationHolds(s: Rollout, o: Origin, k: nat, n: Id, g: nat)
    requires Sound(s, o) && k <= |o.plan| && n in o.baselines && n in s.nodes
    requires LastOf(s, o, k, n, g) && |o.nodes[n]| - 1 <= g < |s.nodes[n]|
    ensures SameUpToClass(s.nodes[n][g], Installed(o, k, n))
  {
    hide Increasing, Covered, SameUpToClass, Carries, RowsOk;
    if g == |o.nodes[n]| - 1 {
      NothingSent(s, o, k, n);
      assert o.nodes[n] <= s.nodes[n] && o.baselines[n] == Latest(o.nodes[n]);
      assert SameUpToClass(o.baselines[n], o.baselines[n]) by { SameAsItself(o.baselines[n]); }
    } else {
      assert Carried(s.stages, n, g) by { CoveredAt(s, o, n, g); }
      var i :| 0 <= i < |s.stages| && n in s.stages[i].rows && s.stages[i].rows[n].generation == Some(g);
      assert i < k;
      SentLast(s, o, k, n, g, i);
      assert Carries(s.stages[i], o.plan[i]) && RowsOk(s.stages[i], s.nodes, o.nodes);
      CarriedState(s, o, i, n);
    }
  }

  lemma CoveredAt(s: Rollout, o: Origin, n: Id, g: nat)
    requires Sound(s, o) && n in s.nodes && n in o.nodes && |o.nodes[n]| <= g < |s.nodes[n]|
    ensures Carried(s.stages, n, g)
  {
    hide ValidOrigin, RowsOk, Increasing, Extends, Carries;
  }

  lemma CarriedState(s: Rollout, o: Origin, i: nat, n: Id)
    requires Sound(s, o) && i < |o.plan| && n in s.stages[i].rows && s.stages[i].rows[n].generation.Some?
    ensures var g := s.stages[i].rows[n].generation.value;
            && n in s.nodes && g < |s.nodes[n]| && n in o.plan[i].desired
            && SameUpToClass(s.nodes[n][g], o.plan[i].desired[n])
  {
    hide ValidOrigin, Increasing, Covered, Extends, SameUpToClass;
    assert Carries(s.stages[i], o.plan[i]) && RowsOk(s.stages[i], s.nodes, o.nodes);
  }

  /** No stage before `k` targets a node that received nothing. */
  lemma {:induction false} NothingSent(s: Rollout, o: Origin, k: nat, n: Id)
    requires Sound(s, o) && k <= |o.plan| && n in o.baselines && n in o.nodes
    requires LastOf(s, o, k, n, |o.nodes[n]| - 1)
    ensures Installed(o, k, n) == o.baselines[n]
  {
    hide ValidOrigin, Increasing, Covered, Extends, SameUpToClass;
    forall i | 0 <= i < k
      ensures n !in o.plan[i].desired
    {
      assert Carries(s.stages[i], o.plan[i]) && RowsOk(s.stages[i], s.nodes, o.nodes);
      assert n in s.stages[i].rows ==> RowOk(s.stages[i].rows[n], s.nodes[n], o.nodes[n]);
    }
    InstalledUntouched(o, k, n);
  }

  lemma {:induction false} InstalledUntouched(o: Origin, k: nat, n: Id)
    requires k <= |o.plan| && n in o.baselines && forall i :: 0 <= i < k ==> n !in o.plan[i].desired
    ensures Installed(o, k, n) == o.baselines[n]
    decreases k
  {
    if k > 0 {
      InstalledUntouched(o, k - 1, n);
    }
  }

  /** The stage that carries the last generation is the last one to target the node. */
  lemma {:induction false} SentLast(s: Rollout, o: Origin, k: nat, n: Id, g: nat, i: nat)
    requires Sound(s, o) && i < k <= |o.plan| && n in o.baselines
    requires n in s.stages[i].rows && s.stages[i].rows[n].generation == Some(g) && LastOf(s, o, k, n, g)
    ensures n in o.plan[i].desired && Installed(o, k, n) == o.plan[i].desired[n]
  {
    hide ValidOrigin, Covered, Extends, SameUpToClass, RowsOk;
    assert Carries(s.stages[i], o.plan[i]);
    forall j | i < j < k
      ensures n !in o.plan[j].desired
    {
      LaterIsGreater(s, o, i, j, n);
    }
    InstalledSince(o, i, k, n);
  }

  lemma LaterIsGreater(s: Rollout, o: Origin, i: nat, j: nat, n: Id)
    requires Sound(s, o) && i < j < |o.plan| && n in s.stages[i].rows && s.stages[i].rows[n].generation.Some?
    ensures n in o.plan[j].desired && s.stages[j].rows[n].generation.Some? ==>
              s.stages[i].rows[n].generation.value < s.stages[j].rows[n].generation.value
    ensures n in o.plan[j].desired <==> n in s.stages[j].rows
  {
    hide ValidOrigin, Covered, Extends, SameUpToClass, RowsOk;
    assert Carries(s.stages[j], o.plan[j]);
  }

  lemma {:induction false} InstalledSince(o: Origin, i: nat, k: nat, n: Id)
    requires i < k <= |o.plan| && n in o.baselines && n in o.plan[i].desired
    requires forall j :: i < j < k ==> n !in o.plan[j].desired
    ensures Installed(o, k, n) == o.plan[i].desired[n]
    decreases k
  {
    if k - 1 > i {
      InstalledSince(o, i, k - 1, n);
    }
  }

  // ---------------------------------------------------------------- the forward path

  /** The stages every target has acknowledged. */
  function Acknowledged(s: Rollout): nat
    requires s.current < |s.stages|
  {
    if s.stages[s.current].status == Done then s.current + 1 else s.current
  }

  lemma OnTrackSettled(s: Rollout, o: Origin, i: nat)
    requires Sound(s, o) && OnTrack(s, o) && i < Acknowledged(s)
    ensures i < |o.plan| && AllApplied(s.stages[i])
    ensures Acknowledged(s) <= |o.plan| == |s.stages|
  {
    hide ValidOrigin, RowsOk, Increasing, Extends, Covered, Carries, Fresh;
  }

  /** The released stage, if one is waiting for this node. */
  predicate Awaited(s: Rollout, n: Id) {
    s.current < |s.stages| && s.stages[s.current].status == AwaitingAck && n in s.stages[s.current].rows
  }

  /** A node nobody waits for holds what the acknowledged stages sent last. */
  lemma QuietLast(s: Rollout, o: Origin, n: Id)
    requires Sound(s, o) && OnTrack(s, o) && n in o.baselines && n in s.nodes && !Awaited(s, n)
    ensures Acknowledged(s) <= |o.plan| <= |s.stages|
    ensures LastOf(s, o, Acknowledged(s), n, |s.nodes[n]| - 1)
  {
    hide Covered, SameUpToClass, RowsOk, Increasing, Extends, ValidOrigin, Carries;
    OnTrackSize(s, o);
    var k := Acknowledged(s);
    forall i | 0 <= i < k && n in s.stages[i].rows
      ensures s.stages[i].rows[n].generation.Some? && s.stages[i].rows[n].generation.value < |s.nodes[n]|
    {
      OnTrackSettled(s, o, i);
      RowBounds(s, o, i, n);
    }
    if k == s.current {
      NotCompensating(s, o, k);
    }
  }

  lemma AwaitedLast(s: Rollout, o: Origin, n: Id)
    requires Sound(s, o) && OnTrack(s, o) && n in o.baselines && n in s.nodes && Awaited(s, n)
    ensures |o.nodes[n]| < |s.nodes[n]| && Acknowledged(s) == s.current < |o.plan| == |s.stages|
    ensures s.stages[s.current].rows[n].generation == Some(|s.nodes[n]| - 1)
    ensures LastOf(s, o, s.current, n, |s.nodes[n]| - 2)
  {
    hide Covered, SameUpToClass, RowsOk, Increasing, Extends, ValidOrigin, Carries;
    OnTrackSize(s, o);
    RowBounds(s, o, s.current, n);
    forall i | 0 <= i < s.current && n in s.stages[i].rows
      ensures s.stages[i].rows[n].generation.Some? && s.stages[i].rows[n].generation.value < |s.nodes[n]| - 1
    {
      OnTrackSettled(s, o, i);
      RowBounds(s, o, i, n);
      EarlierIsSmaller(s, o, i, s.current, n);
    }
  }

  lemma EarlierIsSmaller(s: Rollout, o: Origin, i: nat, j: nat, n: Id)
    requires Sound(s, o) && i < j < |s.stages| && n in s.stages[i].rows && n in s.stages[j].rows
    requires s.stages[i].rows[n].generation.Some? && s.stages[j].rows[n].generation.Some?
    ensures s.stages[i].rows[n].generation.value < s.stages[j].rows[n].generation.value
  {
    hide ValidOrigin, Covered, Extends, SameUpToClass, RowsOk;
  }

  lemma RowBounds(s: Rollout, o: Origin, i: nat, n: Id)
    requires Sound(s, o) && i < |s.stages| && n in s.stages[i].rows
    ensures n in s.nodes && n in o.nodes
    ensures s.stages[i].rows[n].generation.Some? ==> |o.nodes[n]| <= s.stages[i].rows[n].generation.value < |s.nodes[n]|
    ensures s.stages[i].rows[n].generation.None? <==> s.stages[i].rows[n].status == Queued
  {
    hide ValidOrigin, Covered, Extends, SameUpToClass, Increasing, Carries;
    assert RowsOk(s.stages[i], s.nodes, o.nodes);
  }

  /** An agent has applied at least what the acknowledged stages sent last. */
  lemma AppliedAtLeast(f: Fleet, o: Origin, n: Id, g: nat)
    requires FleetInv(f, o) && OnTrack(f.store, o) && n in o.baselines && n in f.agents
    requires Acknowledged(f.store) <= |o.plan| && LastOf(f.store, o, Acknowledged(f.store), n, g)
    requires |o.nodes[n]| - 1 <= g < |f.store.nodes[n]|
    ensures f.agents[n].applied.generation >= g
  {
    hide Increasing, Extends, Carries, RowsOk, OnTrack, Covered;
    var s := f.store;
    assert AgentOk(f.agents[n], s.nodes[n], o.nodes[n]);
    if g >= |o.nodes[n]| {
      CoveredAt(s, o, n, g);
      var i :| 0 <= i < |s.stages| && n in s.stages[i].rows && s.stages[i].rows[n].generation == Some(g);
      assert i < Acknowledged(s);
      OnTrackSettled(s, o, i);
      assert RowsTrue(s.stages[i], f.agents);
    }
  }

  /** On the forward path a node runs what the acknowledged stages leave it with, or what the
      stage being released sends it. */
  lemma {:induction false} NodeIsAtBarrier(f: Fleet, o: Origin, n: Id)
    requires FleetInv(f, o) && OnTrack(f.store, o) && n in o.baselines
    ensures n in f.agents
    ensures Acknowledged(f.store) <= |o.plan|
    ensures var k, state := Acknowledged(f.store), f.agents[n].running.content;
            || SameUpToClass(state, Installed(o, k, n))
            || (k < |o.plan| && n in o.plan[k].desired && SameUpToClass(state, o.plan[k].desired[n]))
  {
    hide Increasing, Carries, RowsOk, OnTrack, Covered, SameUpToClass, Installed, LastOf, Reverting, Extends,
         ValidOrigin, ReportOk, RowsTrue, Fresh;
    var s := f.store;
    BaselineNode(s, o, n);
    OnTrackSize(s, o);
    var a, top := f.agents[n], |s.nodes[n]| - 1;
    assert AgentOk(a, s.nodes[n], o.nodes[n]);
    var k := Acknowledged(s);
    if Awaited(s, n) {
      AwaitedLast(s, o, n);
      AppliedAtLeast(f, o, n, top - 1);
      GenerationHolds(s, o, k, n, top - 1);
      CarriedState(s, o, k, n);
    } else {
      QuietLast(s, o, n);
      AppliedAtLeast(f, o, n, top);
      GenerationHolds(s, o, k, n, top);
    }
  }

  lemma BaselineNode(s: Rollout, o: Origin, n: Id)
    requires Sound(s, o) && n in o.baselines
    ensures n in s.nodes && n in o.nodes && |o.nodes[n]| <= |s.nodes[n]|
  {
    hide Increasing, Carries, RowsOk, Covered;
  }

  lemma OnTrackSize(s: Rollout, o: Origin)
    requires Sound(s, o) && OnTrack(s, o)
    ensures s.current < |s.stages| == |o.plan| && Acknowledged(s) <= |o.plan|
  {
    hide ValidOrigin, RowsOk, Increasing, Extends, Covered, Carries, Fresh;
  }

  /** The nodes are caught between two barriers: some installed the released stage, some not yet. */
  lemma FleetIsLive(f: Fleet, o: Origin) returns (nodes: set<Id>)
    requires FleetInv(f, o) && OnTrack(f.store, o)
    ensures Acknowledged(f.store) <= |o.plan|
    ensures Similar(Running(f, o), Live(o.baselines, o.plan, Acknowledged(f.store), nodes))
  {
    hide FleetInv, OnTrack, SameUpToClass, Installed, Live;
    FleetSize(f, o);
    var k := Acknowledged(f.store);
    nodes := set n | n in o.baselines && k < |o.plan| && n in o.plan[k].desired &&
                     SameUpToClass(Running(f, o)[n], o.plan[k].desired[n]);
    forall n | n in o.baselines
      ensures n in Live(o.baselines, o.plan, k, nodes)
      ensures SameUpToClass(Running(f, o)[n], Live(o.baselines, o.plan, k, nodes)[n])
    {
      NodeIsAtBarrier(f, o, n);
      LiveIsInstalled(o, k, n);
      if k < |o.plan| {
        LiveSplits(o.baselines, o.plan, k, nodes);
      } else {
        LiveAtEnd(o.baselines, o.plan, nodes);
      }
    }
    LiveKeys(o.baselines, o.plan, k, nodes);
  }

  lemma FleetSize(f: Fleet, o: Origin)
    requires FleetInv(f, o) && OnTrack(f.store, o)
    ensures f.store.current < |f.store.stages| && Acknowledged(f.store) <= |o.plan|
  {
    OnTrackSize(f.store, o);
  }

  lemma {:induction false} LiveAtEnd(live: Cluster, stages: seq<Stage>, nodes: set<Id>)
    ensures Live(live, stages, |stages|, nodes) == Live(live, stages, |stages|, {})
    decreases |stages|
  {
    if stages != [] {
      LiveAtEnd(Install(live, stages[0], live.Keys), stages[1..], nodes);
    }
  }

  lemma {:induction false} LiveKeys(live: Cluster, stages: seq<Stage>, k: nat, nodes: set<Id>)
    requires k <= |stages|
    ensures Live(live, stages, k, nodes).Keys == live.Keys
    decreases |stages|
  {
    if stages != [] && k > 0 {
      LiveKeys(Install(live, stages[0], live.Keys), stages[1..], k - 1, nodes);
    }
  }

  // ---------------------------------------------------------------- the reconciler as an agent

  function Acts(n: Id, moves: seq<AgentMove>): seq<Move>
    decreases |moves|
  {
    if moves == [] then [] else [Act(n, moves[0])] + Acts(n, moves[1..])
  }

  lemma {:induction false} FleetPlays(f: Fleet, n: Id, moves: seq<AgentMove>)
    requires f.store.current < |f.store.stages| && n in f.agents && n in f.store.nodes
    requires forall i :: 0 <= i < |moves| ==> Possible(f.store.nodes[n], moves[i])
    ensures Moves(f, Acts(n, moves)) == f.(agents := f.agents[n := Played(f.agents[n], moves)])
    decreases |moves|
  {
    hide Moved, Possible;
    if moves == [] {
      assert f.agents[n := f.agents[n]] == f.agents;
    } else {
      var g := Next(f, Act(n, moves[0]));
      assert Acts(n, moves)[1..] == Acts(n, moves[1..]);
      FleetPlays(g, n, moves[1..]);
      assert g.agents[n := Played(g.agents[n], moves[1..])] == f.agents[n := Played(f.agents[n], moves)];
    }
  }

  /** Whatever an operation of the reconciler adds to its moves is a run of the fleet, if what it
      converges to was published for its node. */
  lemma {:induction false} OperationIsFleetRun(f: Fleet, n: Id, before: seq<AgentMove>, after: seq<AgentMove>, s: Snapshot)
    requires f.store.current < |f.store.stages| && n in f.agents && n in f.store.nodes
    requires f.agents[n] == Played(Blank(), before) && Adds(before, after, s) && Genuine(f.store.nodes[n], s)
    ensures Moves(f, Acts(n, after[|before|..])) == f.(agents := f.agents[n := Played(Blank(), after)])
  {
    hide Moves, Played;
    var more := after[|before|..];
    assert before + more == after;
    PlayedMore(Blank(), before, more);
    forall i | 0 <= i < |more|
      ensures Possible(f.store.nodes[n], more[i])
    {
      assert more[i] == after[|before| + i];
    }
    FleetPlays(f, n, more);
  }
}
