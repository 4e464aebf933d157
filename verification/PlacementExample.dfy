/** A concrete plan that is placed and compiled, on a node that cannot do what it is then asked to. */
module PlacementExample {
  import opened Spec
  import opened Ordering
  import opened PlanModule = Plan
  import opened Placing
  import opened Scheduling
  import opened PlanCompiler
  import opened PlacementMeaning
  import opened EndToEnd

  function Carrier(peer: Id, local: Address, remote: Address): Link {
    Link("link", peer, DirectL3, "eth1", Prefix(local, 30), remote, 1500, 7, "", 1)
  }

  /** The ingress node is to block a protocol. */
  function Entry(): Node {
    Node("in", true, {IngressRole}, map[], "east", Capacity(10, 0, 0), map["link" := Carrier("out", 1000, 1001)], {Http})
  }

  function Away(): Node {
    Node("out", true, {ExitRole}, map[], "west", Capacity(10, 0, 0), map["link" := Carrier("in", 1001, 1000)], {})
  }

  function Anywhere(): Selector {
    Selector({}, map[])
  }

  function Wanted(): PlannedForward {
    PlannedForward("f", "user", {Tcp}, Endpoint(1, 80), ViaExit, Anywhere(), Anywhere(), Distinct, "pool", Masquerade,
                   Reservation(0, 0), None, None, None, None, Active, 1)
  }

  function Servers(): Pool {
    Pool("pool", map["server" := Backend("server", Endpoint(2, 8080), None, 1, 1)], None)
  }

  function Whole(): PlanModule.Plan {
    PlanModule.Plan.Plan("plan", {Prefix(100, 32)}, map["in" := Entry(), "out" := Away()], map[], map["pool" := Servers()], map["f" := Wanted()])
  }

  /** Neither node supports the blocking of protocols. */
  function Able(): Runtime {
    Runtime(true, map["nft.via-exit" := 1, "fabric.policy-routing" := 1, "fabric.mss-clamp" := 1, "fabric.direct-l3" := 1], "")
  }

  function Surroundings(): World {
    World(map["in" := Able(), "out" := Able()], map[], map[], 0)
  }

  function Placed(): Placement {
    Placement("f", "in", "out", "server", Endpoint(2, 8080), ViaExit, "link", "link")
  }

  function Placements(): map<Id, Placement> {
    map["f" := Placed()]
  }

  function Vips(): map<Id, Address> {
    map["f" := 100]
  }

  function Result(): Cluster {
    map["in" := Expected(Entry()), "out" := Expected(Away())]
  }

  function Expected(n: Node): NodeState {
    NodeState(CURRENT_SCHEMA, "cluster:plan", {Prefix(100, 32)}, n.links, map[], map[], n.blocks,
              map["f" := Forward("f", "user", {Tcp}, "in", "out", Endpoint(1, 80), Endpoint(2, 8080), Some(100), "link", ViaExit,
                                 Masquerade, 0, None, None, None, None, Active, 1)])
  }

  lemma PlanIsValid()
    ensures ValidPlan(Whole()) && Scheduling.Known(Whole(), ["f"]) && PlanCompiler.Known(Whole(), Placements())
  {
    assert Tcp in Wanted().protocols;
    assert "server" in Servers().backends;
  }

  lemma BothAreAble(role: NodeRole)
    ensures Has(Able(), Required(Whole(), Wanted(), role)) && SupportsFabric(Able(), DirectL3)
  {
  }

  lemma LinksFit()
    ensures FirstMatch(Entry(), Away(), "link", "link")
  {
  }

  lemma IngressIsChosen(usage: map<Id, Usage>)
    requires usage == map n | n in Whole().nodes :: Usage(0, 0, 0)
    ensures IsChoice(Whole(), IngressAsk(Wanted()), Surroundings().runtimes, usage, "", "in")
  {
    hide Has, Required, SupportsFabric, Lighter;
    BothAreAble(IngressRole);
    assert !Eligible(Whole(), IngressAsk(Wanted()), Surroundings().runtimes, usage, "out");
  }

  lemma ExitIsChosen(usage: map<Id, Usage>)
    requires usage == map n | n in Whole().nodes :: Usage(0, 0, 0)
    ensures IsChoice(Whole(), ExitAsk(Wanted(), "in"), Surroundings().runtimes, usage, "", "out")
  {
    hide Has, Required, SupportsFabric, Lighter, FirstMatch;
    BothAreAble(ExitRole);
    LinksFit();
    assert Facing(Whole(), ExitAsk(Wanted(), "in"), Surroundings().runtimes, "out");
    assert !Eligible(Whole(), ExitAsk(Wanted(), "in"), Surroundings().runtimes, usage, "in");
  }

  lemma NothingUsed()
    ensures UsageFrom(Whole(), ["f"][..0], Placements()) == map n | n in Whole().nodes :: Usage(0, 0, 0)
  {
    hide Whole;
    assert ["f"][..0] == [];
  }

  lemma PlacedFirst(usage: map<Id, Usage>)
    requires usage == map n | n in Whole().nodes :: Usage(0, 0, 0)
    ensures "f" in Whole().forwards && Wanted().pool in Whole().pools
    ensures PlacedOn(Whole(), Surroundings(), usage, "f", Placed())
  {
    hide IsChoice, FirstMatch;
    IngressIsChosen(usage);
    ExitIsChosen(usage);
    LinksFit();
  }

  lemma IsPlaced()
    ensures Scheduling.Known(Whole(), ["f"]) && InOrder(Whole(), Surroundings(), ["f"], Placements())
  {
    hide PlacedOn, UsageFrom, Whole, ValidPlan;
    PlanIsValid();
    NothingUsed();
    PlacedFirst(UsageFrom(Whole(), ["f"][..0], Placements()));
  }

  lemma LinksAreExpected(n: Id)
    requires n == "in" || n == "out"
    ensures LinksCompile(Whole(), Placements(), Surroundings().runtimes, n)
    ensures LinksOn(Whole(), Placements(), Surroundings().runtimes, n) == Result()[n].links
  {
    assert "f" in Placements() && Placements()["f"] == Placed();
    assert "link" in NeededLinks(Placements(), n);
  }

  lemma ForwardsAreExpected(n: Id)
    requires n == "in" || n == "out"
    ensures PlanCompiler.Known(Whole(), Placements())
    ensures ForwardsOn(Whole(), Placements(), Vips(), n, Placements().Keys) == Result()[n].forwards
  {
    hide ValidPlan, LinksCompile;
    PlanIsValid();
  }

  lemma NothingElse(n: Id)
    requires PlanCompiler.Known(Whole(), Placements())
    ensures ChecksOn(Whole(), Placements(), n, Placements().Keys) == map[] && PoliciesOn(Whole(), Placements(), n) == map[]
  {
    assert ProbedPools(Whole(), Placements(), n, Placements().Keys) == {};
  }

  lemma StateIsExpected(n: Id)
    requires n == "in" || n == "out"
    ensures PlanCompiler.Known(Whole(), Placements()) && LinksCompile(Whole(), Placements(), Surroundings().runtimes, n)
    ensures StateOn(Whole(), Placements(), Vips(), Surroundings().runtimes, n) == Result()[n]
  {
    hide LinksCompile, LinksOn, ForwardsOn, ChecksOn, PoliciesOn, ValidPlan, PlanCompiler.Known, Placements, Vips, Surroundings;
    PlanIsValid();
    LinksAreExpected(n);
    ForwardsAreExpected(n);
    NothingElse(n);
  }

  lemma ServiceRange(n: Id, a: Address)
    requires n == "in" || n == "out"
    ensures InServiceRange(Result()[n], a) <==> a == 100
  {
    assert Contains(Prefix(100, 32), a) <==> a == 100;
    assert Prefix(100, 32) in Result()[n].cidrs;
  }

  lemma LinkIsValid(n: Id)
    requires n == "in" || n == "out"
    ensures ValidLink(n, Result()[n], Result()[n].links["link"])
  {
    assert Size(30) == 4;
    ServiceRange(n, 1000);
    ServiceRange(n, 1001);
    NoOverlap(Result()[n].links["link"].local);
  }

  lemma NoOverlap(p: Prefix)
    requires p == Prefix(1000, 30) || p == Prefix(1001, 30)
    ensures !Overlap(p, Prefix(100, 32))
  {
    assert Size(30) == 4 && Base(p) == 1000;
  }

  lemma EntryIsValid(n: Id)
    requires n == "in" || n == "out"
    ensures ValidForward(n, Result()[n], Result()[n].forwards["f"])
  {
    hide InServiceRange;
    ServiceRange(n, 1);
    ServiceRange(n, 2);
    ServiceRange(n, 100);
    assert Tcp in Result()[n].forwards["f"].protocols;
  }

  lemma ResultIsValid(n: Id)
    requires n == "in" || n == "out"
    ensures ValidNode(n, Result()[n])
  {
    hide ValidLink, ValidForward;
    LinkIsValid(n);
    EntryIsValid(n);
  }

  /** A valid plan, placed and compiled: every check passed, and yet the ingress node lacks a
      capability its state requires. */
  lemma BlocksAreNotChecked()
    ensures Produced(Whole(), Surroundings(), ["f"], Placements(), Vips(), Result())
    ensures "in" in Result() && !Has(Surroundings().runtimes["in"], RequiredCapabilities("in", Result()["in"]))
  {
    hide ValidPlan, Whole, InOrder, StateOn, ValidNode, Has, RequiredCapabilities, LinksCompile, Expected, AllCompilable;
    PlanIsValid();
    IsPlaced();
    IsCompiled();
    CapabilitiesCovered(Whole(), Surroundings(), ["f"], Placements(), Vips(), Result(), "in");
    NoBlocking();
  }

  lemma NoBlocking()
    ensures Result()["in"].blocks != {} && Version(Able(), "nft.protocol-block") == 0
    ensures Surroundings().runtimes["in"] == Able()
  {
    assert Http in Result()["in"].blocks;
  }

  lemma IsCompiled()
    ensures Compiled(Whole(), Placements(), Vips(), Surroundings().runtimes, Result())
  {
    hide ValidPlan, StateOn, ValidNode, LinksCompile, Expected;
    PlanIsValid();
    StateIsExpected("in");
    StateIsExpected("out");
    ResultIsValid("in");
    ResultIsValid("out");
  }
}
