/** Concrete rollouts: one that is accepted and still not make-before-break, and one whose
    compensation is released and never finishes. */
module RolloutExamples {
  import opened Spec
  import opened CanarySelection
  import opened RolloutPlan
  import opened RolloutWaves
  import opened RolloutTheorems
  import opened RolloutMachine
  import opened RolloutInvariants
  import opened RolloutRuns

  // ---------------------------------------------------------------- a retained exit that moves

  /** Forward `f` enters at `in` and leaves at `out`, which sends it to the given port of its
      backend. */
  function Tunnel(port: Port): Forward {
    Forward("f", "user", {Tcp}, "in", "out", Endpoint(1, 80), Endpoint(2, port), Some(100), "link", ViaExit,
            Masquerade, 0, None, None, None, None, Active, 1)
  }

  function Side(peer: Id, port: Port): NodeState {
    NodeState(CURRENT_SCHEMA, "domain", {Prefix(100, 32)},
              map["link" := Link("link", peer, DirectL3, "eth1", Prefix(1000, 30), 1001, 1500, 7, "", 1)],
              map[], map[], {}, map["f" := Tunnel(port)])
  }

  function Pair(port: Port): Cluster {
    map["in" := Side("out", port), "out" := Side("in", port)]
  }

  lemma PairAt(port: Port, n: Id, id: Id)
    ensures At(Pair(port), n, id) == if id == "f" && (n == "in" || n == "out") then Some(Tunnel(port)) else None
  {
  }

  lemma PairKeys(port: Port)
    ensures Pair(port).Keys == {"in", "out"}
  {
  }

  lemma ServiceRange(n: Id, port: Port, a: Address)
    requires n == "in" || n == "out"
    ensures InServiceRange(Pair(port)[n], a) <==> a == 100
  {
    assert Contains(Prefix(100, 32), a) <==> a == 100;
    assert Prefix(100, 32) in Pair(port)[n].cidrs;
  }

  lemma LinkIsValid(n: Id, port: Port)
    requires n == "in" || n == "out"
    ensures ValidLink(n, Pair(port)[n], Pair(port)[n].links["link"])
  {
    var local := Prefix(1000, 30);
    assert Size(30) == 4 && Base(local) == 1000;
    assert !Overlap(local, Prefix(100, 32));
    ServiceRange(n, port, 1001);
  }

  lemma SideIsValid(n: Id, port: Port)
    requires n == "in" || n == "out"
    ensures ValidNode(n, Pair(port)[n])
  {
    hide ValidLink, ValidForward;
    TunnelIsValid(n, port);
    LinkIsValid(n, port);
  }

  lemma TunnelIsValid(n: Id, port: Port)
    requires n == "in" || n == "out"
    ensures ValidForward(n, Pair(port)[n], Tunnel(port))
  {
    hide InServiceRange;
    ServiceRange(n, port, 1);
    ServiceRange(n, port, 2);
    ServiceRange(n, port, 100);
    assert Tcp in Tunnel(port).protocols;
  }

  lemma PairIsConsistent(port: Port)
    ensures Consistent(Pair(port)) && ValidCluster(Pair(port))
  {
    hide Pair, Side, ValidNode, At;
    PairKeys(port);
    forall n, id
      ensures At(Pair(port), n, id) == if id == "f" && (n == "in" || n == "out") then Some(Tunnel(port)) else None
    {
      PairAt(port, n, id);
    }
    SideIsValid("in", port);
    SideIsValid("out", port);
  }

  /** Rewriting one side by what it plays itself gives the state before or the state after. */
  lemma RewritesToASide(n: Id, s: NodeState, drops: set<Id>, puts: set<Id>)
    requires n == "in" || n == "out"
    requires s == Pair(8080)[n] || s == Pair(8081)[n]
    requires drops <= puts <= {"f"}
    ensures var r := Rewrite(s, Pair(8081)[n], drops, puts); r == Pair(8080)[n] || r == Pair(8081)[n]
  {
    var f := Pair(8081)[n];
    if puts == {} {
      assert drops + puts == {};
    } else {
      assert puts == {"f"};
      assert Conservative(s, f) == s by {
        assert s.links + f.links == s.links && s.cidrs + f.cidrs == s.cidrs;
        assert s.checks + f.checks == s.checks && s.policies + f.policies == s.policies;
      }
      assert Rewrite(s, f, drops, puts).forwards == f.forwards;
    }
  }

  predicate OnSides(c: Cluster) {
    && c.Keys == {"in", "out"}
    && forall n :: n in c ==> c[n] == Pair(8080)[n] || c[n] == Pair(8081)[n]
  }

  lemma WaveOnSides(sel: set<Id>, j: nat)
    ensures OnSides(WaveMap(Pair(8080), Pair(8081), sel, true, j))
  {
    hide Rewrite, Side, Pair, ExitIds, IngressIds;
    PairKeys(8080);
    PairKeys(8081);
    var work, final := Pair(8080), Pair(8081);
    var prepared := Prepared(work, final, sel);
    forall n | n in work
      ensures prepared[n] == Pair(8080)[n] || prepared[n] == Pair(8081)[n]
      ensures Promoted(prepared, work, final, sel)[n] == Pair(8080)[n] || Promoted(prepared, work, final, sel)[n] == Pair(8081)[n]
    {
      SameRoles(n, sel);
      RewritesToASide(n, work[n], {}, ExitIds(final[n], n, sel));
      RewritesToASide(n, prepared[n], IngressIds(work[n], n, sel), IngressIds(final[n], n, sel));
    }
  }

  lemma SameRoles(n: Id, sel: set<Id>)
    requires n == "in" || n == "out"
    ensures IngressIds(Pair(8080)[n], n, sel) <= IngressIds(Pair(8081)[n], n, sel) <= {"f"}
    ensures ExitIds(Pair(8081)[n], n, sel) <= {"f"}
  {
  }

  lemma OnSidesIsValid(c: Cluster)
    requires OnSides(c)
    ensures ValidCluster(c)
  {
    hide ValidNode, Side;
    SideIsValid("in", 8080);
    SideIsValid("in", 8081);
    SideIsValid("out", 8080);
    SideIsValid("out", 8081);
  }

  /** If all maps a rollout reaches are valid, so is every stage it publishes. */
  lemma {:induction false} ValidMapsValidStages(work: Cluster, steps: seq<Step>)
    requires SameKeys(work, steps) && forall i :: 0 <= i < |steps| && steps[i].Release? ==> ValidCluster(steps[i].next)
    ensures ValidStages(StagesOf(work, steps))
    decreases |steps|
  {
    hide ValidNode, SameUpToClass;
    if steps != [] {
      TailSameKeys(work, steps);
      ValidMapsValidStages(Reached(work, steps[0]), steps[1..]);
      StagesHead(work, steps);
      var stages, tail := StagesOf(work, steps), StagesOf(Reached(work, steps[0]), steps[1..]);
      forall i | 0 <= i < |stages|
        ensures ValidCluster(stages[i].desired)
      {
        if stages != tail && i > 0 {
          assert stages[i] == tail[i - 1];
        }
      }
    }
  }

  /** A forward fails over to a backend on another port while it keeps its nodes. The plan is consistent
      and valid before and after, the rollout is accepted under any strategy, and it is not
      make-before-break. */
  lemma FailoverIsAccepted(strategy: Strategy, hash: Id -> nat) returns (k: nat)
    ensures WellPosed(Pair(8080), Pair(8081)) && Accepted(Pair(8080), Pair(8081), strategy, hash)
    ensures !PathStable(Pair(8080), Pair(8081))
    ensures k <= |StagesFor(Pair(8080), Pair(8081), strategy, hash)|
    ensures !ExitFirst(Live(Pair(8080), StagesFor(Pair(8080), Pair(8081), strategy, hash), k, {}))
  {
    hide Side, ValidCluster, StagesFor, Accepted, Live, ExitFirst, Consistent;
    PairIsConsistent(8080);
    PairIsConsistent(8081);
    PairTransitions();
    PairStages(strategy, hash);
    PairAccepted(strategy, hash);
    k := UnstableExitBreaks(Pair(8080), Pair(8080), Pair(8081), strategy, hash);
  }

  lemma PairTransitions()
    ensures FabricStable(Pair(8080), Pair(8081)) && RolesStable(Pair(8080), Pair(8081)) && !PathStable(Pair(8080), Pair(8081))
  {
    PairAt(8080, "out", "f");
    PairAt(8081, "out", "f");
    assert !RetainedExit("out", At(Pair(8080), "out", "f").value, At(Pair(8081), "out", "f").value);
    forall n, id
      ensures At(Pair(8080), n, id) == if id == "f" && (n == "in" || n == "out") then Some(Tunnel(8080)) else None
      ensures At(Pair(8081), n, id) == if id == "f" && (n == "in" || n == "out") then Some(Tunnel(8081)) else None
    {
      PairAt(8080, n, id);
      PairAt(8081, n, id);
    }
  }

  lemma {:induction false} PairStages(strategy: Strategy, hash: Id -> nat)
    ensures ValidStages(StagesFor(Pair(8080), Pair(8081), strategy, hash))
  {
    hide Side, Pair, ValidNode, ValidCluster, WaveMap, WaveSteps, ChangedIds, OnSides, SameKeys, StagesOf;
    PairKeys(8080);
    PairKeys(8081);
    var work, final := Pair(8080), Pair(8081);
    var changed := ChangedIds(work, final);
    OneChanged();
    assert CanaryOf(work, final, strategy, hash) == {};
    StepsHaveSameKeys(work, final, strategy, hash);
    WaveOnSides(changed, 3);
    WaveOnSides(changed, 1);
    WaveOnSides(changed, 2);
    OnSidesIsValid(WaveMap(work, final, changed, true, 1));
    OnSidesIsValid(WaveMap(work, final, changed, true, 2));
    OnSidesIsValid(WaveMap(work, final, changed, true, 3));
    PairSteps(changed);
    assert ValidCluster(final);
    ValidMapsValidStages(work, StepsOf(work, final, strategy, hash));
  }

  lemma PairSteps(sel: set<Id>)
    requires Pair(8080).Keys == Pair(8081).Keys
    ensures var steps, work, final := WaveSteps(Pair(8080), Pair(8081), sel, Full, true), Pair(8080), Pair(8081);
            |steps| == 3 && steps[0].next == WaveMap(work, final, sel, true, 1) && steps[1].next == WaveMap(work, final, sel, true, 2)
            && steps[2].next == WaveMap(work, final, sel, true, 3) == final
            && steps[0].Release? && steps[1].Release? && steps[2].Release?
  {
    hide Side, Pair, Prepared, Promoted, Cleaned;
  }

  lemma OneChanged()
    ensures ChangedIds(Pair(8080), Pair(8081)) <= {"f"} && |ChangedIds(Pair(8080), Pair(8081))| < 2
  {
    hide Pair, Side, SameEntry;
    var changed := ChangedIds(Pair(8080), Pair(8081));
    forall id | id in changed
      ensures id == "f"
    {
      if id in Ids(Pair(8080)) {
        var n :| n in Pair(8080) && id in Pair(8080)[n].forwards;
        PairAt(8080, n, id);
      } else {
        var n :| n in Pair(8081) && id in Pair(8081)[n].forwards;
        PairAt(8081, n, id);
      }
    }
    assert changed == {} || changed == {"f"};
  }

  lemma PairAccepted(strategy: Strategy, hash: Id -> nat)
    requires FabricStable(Pair(8080), Pair(8081)) && RolesStable(Pair(8080), Pair(8081))
    requires ValidStages(StagesFor(Pair(8080), Pair(8081), strategy, hash))
    ensures Accepted(Pair(8080), Pair(8081), strategy, hash)
  {
    hide Side, FabricStable, RolesStable, ValidStages, StagesFor;
  }

  // ---------------------------------------------------------------- a compensation that strands

  /** A state without forwards, told apart by its domain. */
  function Quiet(domain: string): NodeState {
    EmptyState().(domain := domain)
  }

  function Both(domain: string): Cluster {
    map["a" := Quiet(domain), "b" := Quiet(domain)]
  }

  function PlanOf(): seq<Stage> {
    [Stage(Full, Promote, 0, Both("new"))]
  }

  function Before(): map<Id, History> {
    map["a" := [EmptyState(), Quiet("old")], "b" := [EmptyState(), Quiet("old")]]
  }

  function Beginning(): Origin {
    Origin(PlanOf(), Both("old"), Before())
  }

  /** The stage is published; `a` cannot apply it; the compensation stage is published; only now does
      `b` report that it could not apply the first one either. */
  function Incident(): seq<Event> {
    [Tick(0, Both("new"), false),
     Ack("a", 2, Quiet("new"), PermanentError),
     Tick(1, Both("old"), false),
     Ack("b", 2, Quiet("new"), PermanentError)]
  }

  function Released(a: RowStatus, b: RowStatus, status: StageStatus): StageRow {
    StageRow(Full, Promote, 0, status, 0, map["a" := Row(Quiet("new"), Some(2), a), "b" := Row(Quiet("new"), Some(2), b)])
  }

  function Undoing(): StageRow {
    StageRow(Compensation, Compensate, 0, AwaitingAck, 1,
             map["a" := Row(Quiet("old"), Some(3), Sent), "b" := Row(Quiet("old"), Some(3), Sent)])
  }

  function Known(states: seq<NodeState>): map<Id, History>
    requires states != []
  {
    map["a" := states, "b" := states]
  }

  function Start0(): Rollout {
    Scheduled(PlanOf(), true, Both("old"), Before())
  }

  function After1(): Rollout {
    Rollout(WaitingAcks, 0, None, true, [Released(Sent, Sent, AwaitingAck)], Both("old"),
            Known([EmptyState(), Quiet("old"), Quiet("new")]))
  }

  function After2(): Rollout {
    Rollout(RollbackPending, 0, None, true, [Released(Reported(PermanentError), Sent, Faulted)], Both("old"),
            Known([EmptyState(), Quiet("old"), Quiet("new")]))
  }

  function After3(): Rollout {
    Rollout(WaitingAcks, 1, None, true, [Released(Reported(PermanentError), Sent, Faulted), Undoing()], Both("old"),
            Known([EmptyState(), Quiet("old"), Quiet("new"), Quiet("old")]))
  }

  function After4(): Rollout {
    Rollout(RollbackPending, 1, None, true,
            [Released(Reported(PermanentError), Reported(PermanentError), Faulted), Undoing()], Both("old"),
            Known([EmptyState(), Quiet("old"), Quiet("new"), Quiet("old")]))
  }

  lemma QuietIsStorable(stored: Cluster, n: Id, domain: string)
    requires n in stored && stored[n] == Quiet(domain)
    ensures Storable(stored, n, Quiet(domain))
  {
  }

  /** What publishing the same state to both nodes does. */
  lemma BothSent(st: StageRow, states: seq<NodeState>, domain: string)
    requires states != [] && st.rows == QueuedRows(Both(domain))
    ensures Targets(st) == {"a", "b"} && CanPublish(st, Known(states), Both(domain))
    ensures Grown(st, Known(states), Both(domain)) == Known(states + [Quiet(domain)])
    ensures SentRows(st, Known(states), Both(domain)) ==
            map["a" := Row(Quiet(domain), Some(|states|), Sent), "b" := Row(Quiet(domain), Some(|states|), Sent)]
  {
    hide Storable, Quiet;
    QuietIsStorable(Both(domain), "a", domain);
    QuietIsStorable(Both(domain), "b", domain);
  }

  lemma FirstEvent()
    ensures Handle(Start0(), Incident()[0]) == After1()
  {
    hide Targets, CanPublish, Grown, SentRows, Quiet, QueuedRows, Both;
    var st := QueuedStage(PlanOf()[0]);
    assert Start0().stages == [st];
    BothSent(st, [EmptyState(), Quiet("old")], "new");
    assert [EmptyState(), Quiet("old")] + [Quiet("new")] == [EmptyState(), Quiet("old"), Quiet("new")];
  }

  lemma SecondEvent()
    ensures Handle(After1(), Incident()[1]) == After2()
  {
    var st := Released(Sent, Sent, AwaitingAck);
    assert MatchAt([st], "a", 2, PermanentError) == Some(0);
    assert Acked(st, "a", PermanentError).rows == Released(Reported(PermanentError), Sent, Faulted).rows;
  }

  lemma BothDisturbed()
    ensures Disturbed(After2().stages, Both("old")) == Both("old")
    ensures CompensationAt(After2().stages) == None
  {
    hide Quiet;
    var stages := After2().stages;
    assert stages[..0] == [];
    assert "a" in stages[0].rows && "b" in stages[0].rows;
    assert Published(stages, "a") && Published(stages, "b");
  }

  lemma ThirdEvent()
    ensures Handle(After2(), Incident()[2]) == After3()
  {
    hide Targets, CanPublish, Grown, SentRows, Quiet, QueuedRows, Both, Disturbed, CompensationAt;
    BothDisturbed();
    var s := After2();
    var st := QueuedStage(Stage(Compensation, Compensate, 0, Both("old")));
    assert Compensating(s).stages == [s.stages[0], st];
    BothSent(st, [EmptyState(), Quiet("old"), Quiet("new")], "old");
    assert [EmptyState(), Quiet("old"), Quiet("new")] + [Quiet("old")] == [EmptyState(), Quiet("old"), Quiet("new"), Quiet("old")];
  }

  lemma FourthEvent()
    ensures Handle(After3(), Incident()[3]) == After4()
  {
    var s, failed := After3(), Released(Reported(PermanentError), Sent, Faulted);
    assert MatchAt(s.stages, "b", 2, PermanentError) == Some(0);
    assert Acked(failed, "b", PermanentError).rows == After4().stages[0].rows;
  }

  /** The compensation is out and both nodes may still acknowledge it, but whatever happens from here,
      the rollout is never rolled back. */
  lemma {:induction false} CompensationNeverFinishes(later: seq<Event>)
    ensures ValidOrigin(Beginning()) && Run(Start0(), Incident()) == After4()
    ensures After4().stages[1].phase == Compensate && After4().stages[1].status == AwaitingAck
    ensures Run(After4(), later).status != RolledBack
  {
    hide Handle;
    assert ValidOrigin(Beginning());
    var e := Incident();
    FirstEvent();
    SecondEvent();
    ThirdEvent();
    FourthEvent();
    assert e[1..] == [e[1], e[2], e[3]] && e[1..][1..] == [e[2], e[3]] && e[1..][1..][1..] == [e[3]];
    assert Run(After3(), [e[3]]) == After4() by { assert [e[3]][1..] == []; }
    assert Run(After2(), [e[2], e[3]]) == After4();
    assert Run(After1(), [e[1], e[2], e[3]]) == After4();
    ScheduledInv(Beginning(), true);
    RunKeepsInv(Start0(), Beginning(), e);
    StrandedForever(After4(), Beginning(), later);
  }
}
