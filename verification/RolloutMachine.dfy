/** The persisted state machine of one rollout: its stages, the rows of their targets and the
    generations it has published. Each function is one database transaction; `None` is a
    transaction that fails and leaves no trace. */
module RolloutMachine {
  import opened Spec
  import opened RolloutPlan

  /** Seconds a released stage may wait for its acknowledgements. */
  const ACK_TIMEOUT: nat := 600

  datatype Outcome = Applied | RetryableError | PermanentError

  datatype RowStatus = Queued | Sent | Reported(outcome: Outcome)

  /** A target of a stage; once published it holds the stored state and its generation. */
  datatype Row = Row(desired: NodeState, generation: Option<nat>, status: RowStatus)

  datatype StageStatus = Pending | AwaitingAck | Baking | Done | Faulted

  datatype StageRow = StageRow(
    wave: Wave, phase: Phase, bakeSeconds: nat, status: StageStatus, startedAt: nat, rows: map<Id, Row>)

  datatype Status =
    Publishing | WaitingAcks | Soaking | RollbackPending | RollingBack | Completed | RolledBack | Failed

  /** Every state published to a node so far, by generation; generation 0 is the empty state. */
  type History = h: seq<NodeState> | h != [] witness [EmptyState()]

  function Latest(h: History): NodeState {
    h[|h| - 1]
  }

  /** `current` counts from zero. */
  datatype Rollout = Rollout(
    status: Status, current: nat, bakeUntil: Option<nat>, autoRollback: bool,
    stages: seq<StageRow>, baselines: Cluster, nodes: map<Id, History>)

  predicate Terminal(s: Rollout) {
    s.status == Completed || s.status == RolledBack || s.status == Failed
  }

  /** A freshly scheduled rollout of the given plan. */
  function Scheduled(plan: seq<Stage>, autoRollback: bool, baselines: Cluster, nodes: map<Id, History>): Rollout {
    Rollout(Publishing, 0, None, autoRollback, seq(|plan|, i requires 0 <= i < |plan| => QueuedStage(plan[i])), baselines, nodes)
  }

  function QueuedStage(p: Stage): StageRow {
    StageRow(p.wave, p.phase, p.bakeSeconds, Pending, 0, QueuedRows(p.desired))
  }

  function QueuedRows(desired: Cluster): map<Id, Row> {
    map n | n in desired :: Row(desired[n], None, Queued)
  }

  // ---------------------------------------------------------------- publishing

  function Targets(st: StageRow): set<Id> {
    set n | n in st.rows && st.rows[n].status.Queued?
  }

  /** The state a node receives: the target up to the traffic classes allocated on publication,
      and only if it passes validation. `stored` is what the transaction would write. */
  predicate Storable(stored: Cluster, node: Id, desired: NodeState) {
    node in stored && SameUpToClass(stored[node], desired) && ValidNode(node, stored[node])
  }

  predicate CanPublish(st: StageRow, nodes: map<Id, History>, stored: Cluster) {
    forall n :: n in Targets(st) ==> n in nodes && Storable(stored, n, st.rows[n].desired)
  }

  function Grown(st: StageRow, nodes: map<Id, History>, stored: Cluster): (grown: map<Id, History>)
    requires CanPublish(st, nodes, stored)
    ensures grown.Keys == nodes.Keys
  {
    map n | n in nodes :: if n in Targets(st) then nodes[n] + [stored[n]] else nodes[n]
  }

  function SentRows(st: StageRow, nodes: map<Id, History>, stored: Cluster): (rows: map<Id, Row>)
    requires CanPublish(st, nodes, stored)
    ensures rows.Keys == st.rows.Keys
  {
    map n | n in st.rows ::
      if n in Targets(st) then Row(stored[n], Some(|nodes[n]|), Sent) else st.rows[n]
  }

  function Publish(s: Rollout, i: nat, now: nat, stored: Cluster): (r: Option<Rollout>)
    requires i < |s.stages| && s.current < |s.stages|
    ensures r.Some? ==> r.value.current < |r.value.stages|
  {
    var st := s.stages[i];
    match st.status
    case Done => Some(s)
    case AwaitingAck => Some(s)
    case Baking => Some(s)
    case Faulted => None
    case Pending =>
      if st.phase == Bake then
        Some(s.(status := Soaking, current := i, bakeUntil := Some(now + st.bakeSeconds),
                stages := s.stages[i := st.(status := Baking, startedAt := now)]))
      else if !CanPublish(st, s.nodes, stored) then None
      else if Targets(st) == {} then
        Some(s.(stages := s.stages[i := st.(status := Done, startedAt := now)]))
      else
        Some(s.(status := WaitingAcks, current := i, bakeUntil := None,
                nodes := Grown(st, s.nodes, stored),
                stages := s.stages[i := st.(status := AwaitingAck, startedAt := now,
                                            rows := SentRows(st, s.nodes, stored))]))
  }

  // ---------------------------------------------------------------- completing a stage

  function NextPending(stages: seq<StageRow>, i: nat): (next: Option<nat>)
    ensures next.Some? ==> i <= next.value < |stages| && stages[next.value].status == Pending
    ensures forall k :: i <= k < |stages| && (next.None? || k < next.value) ==> stages[k].status != Pending
    decreases |stages| - i
  {
    if i >= |stages| then None
    else if stages[i].status == Pending then Some(i)
    else NextPending(stages, i + 1)
  }

  function Finish(s: Rollout, i: nat, now: nat, stored: Cluster): (r: Option<Rollout>)
    requires i < |s.stages| && s.current < |s.stages|
    ensures r.Some? ==> r.value.current < |r.value.stages|
  {
    var t := s.(stages := s.stages[i := s.stages[i].(status := Done)]);
    if s.stages[i].phase == Compensate then Some(t.(status := RolledBack, bakeUntil := None))
    else
      var next := NextPending(t.stages, i + 1);
      if next.Some? then
        Publish(t.(status := Publishing, current := next.value, bakeUntil := None), next.value, now, stored)
      else
        Some(t.(status := Completed, bakeUntil := None))
  }

  // ---------------------------------------------------------------- rolling back

  /** The last compensation stage, if there is one. */
  function CompensationAt(stages: seq<StageRow>): (at: Option<nat>)
    ensures at.Some? ==> at.value < |stages| && stages[at.value].phase == Compensate
    ensures at.None? ==> forall k :: 0 <= k < |stages| ==> stages[k].phase != Compensate
  {
    if stages == [] then None
    else if stages[|stages| - 1].phase == Compensate then Some(|stages| - 1)
    else CompensationAt(stages[..|stages| - 1])
  }

  /** The rollout has published some generation to the node. */
  predicate Published(stages: seq<StageRow>, node: Id) {
    exists k :: 0 <= k < |stages| && node in stages[k].rows && stages[k].rows[node].generation.Some?
  }

  function Disturbed(stages: seq<StageRow>, baselines: Cluster): Cluster {
    map n | n in baselines && Published(stages, n) :: baselines[n]
  }

  function Compensating(s: Rollout): (t: Rollout)
    ensures t.current < |t.stages|
  {
    var at := CompensationAt(s.stages);
    if at.Some? then s.(status := RollingBack, current := at.value, bakeUntil := None)
    else s.(status := RollingBack, current := |s.stages|, bakeUntil := None,
            stages := s.stages + [QueuedStage(Stage(Compensation, Compensate, 0, Disturbed(s.stages, s.baselines)))])
  }

  function RequestRollback(s: Rollout, i: nat): Rollout
    requires i < |s.stages|
  {
    s.(status := if s.stages[i].phase == Compensate || !s.autoRollback then Failed else RollbackPending,
       bakeUntil := None,
       stages := s.stages[i := s.stages[i].(status := Faulted)])
  }

  // ---------------------------------------------------------------- advancing

  predicate AllApplied(st: StageRow) {
    forall n :: n in st.rows ==> st.rows[n].status == Reported(Applied)
  }

  /** One pass of the advancer over an active rollout. `unhealthy` says that a canary forward has
      only freshly unhealthy backends. */
  function Advance(s: Rollout, now: nat, stored: Cluster, unhealthy: bool): (r: Option<Rollout>)
    requires s.current < |s.stages|
    ensures r.Some? ==> r.value.current < |r.value.stages|
  {
    var i, st := s.current, s.stages[s.current];
    match s.status
    case RollbackPending =>
      var t := Compensating(s);
      Publish(t, t.current, now, stored)
    case Publishing => if st.status == Done then Finish(s, i, now, stored) else Publish(s, i, now, stored)
    case RollingBack => if st.status == Done then Finish(s, i, now, stored) else Publish(s, i, now, stored)
    case WaitingAcks =>
      if AllApplied(st) then Finish(s, i, now, stored)
      else if now >= st.startedAt + ACK_TIMEOUT then Some(RequestRollback(s, i))
      else Some(s)
    case Soaking =>
      if unhealthy then Some(RequestRollback(s, i))
      else if s.bakeUntil.Some? && now < s.bakeUntil.value then Some(s)
      else Finish(s, i, now, stored)
    case Completed => Some(s)
    case RolledBack => Some(s)
    case Failed => Some(s)
  }

  // ---------------------------------------------------------------- acknowledgements

  /** The acknowledgement concerns this row, and does not take back an earlier success. */
  predicate Matches(st: StageRow, node: Id, generation: nat, outcome: Outcome) {
    && node in st.rows && st.rows[node].generation == Some(generation)
    && (st.rows[node].status != Reported(Applied) || outcome == Applied)
  }

  /** The first stage whose row an acknowledgement updates. */
  function MatchAt(stages: seq<StageRow>, node: Id, generation: nat, outcome: Outcome): (at: Option<nat>)
    ensures at.Some? ==> at.value < |stages| && Matches(stages[at.value], node, generation, outcome)
    ensures at.None? ==> forall k :: 0 <= k < |stages| ==> !Matches(stages[k], node, generation, outcome)
  {
    if stages == [] then None
    else if Matches(stages[0], node, generation, outcome) then Some(0)
    else
      var at := MatchAt(stages[1..], node, generation, outcome);
      assert forall k :: 1 <= k < |stages| ==> stages[k] == stages[1..][k - 1];
      if at.None? then None else Some(at.value + 1)
  }

  function Acked(st: StageRow, node: Id, outcome: Outcome): StageRow
    requires node in st.rows
  {
    st.(rows := st.rows[node := st.rows[node].(status := Reported(outcome))])
  }

  /** An acknowledgement for a generation that was never published, or for other content than was
      published under it, is refused. */
  function Acknowledge(s: Rollout, node: Id, generation: nat, content: NodeState, outcome: Outcome): (r: Option<Rollout>)
    requires s.current < |s.stages|
    ensures r.Some? ==> r.value.current < |r.value.stages|
  {
    if node !in s.nodes || generation == 0 || generation >= |s.nodes[node]| || s.nodes[node][generation] != content then None
    else
      var at := MatchAt(s.stages, node, generation, outcome);
      if at.None? then Some(s)
      else
        var t := s.(stages := s.stages[at.value := Acked(s.stages[at.value], node, outcome)]);
        if outcome == PermanentError && !Terminal(s) then Some(RequestRollback(t, at.value)) else Some(t)
  }

  // ---------------------------------------------------------------- runs

  datatype Event =
    | Tick(now: nat, stored: Cluster, unhealthy: bool)
    | Ack(node: Id, generation: nat, content: NodeState, outcome: Outcome)

  /** What an event leaves behind; a failed transaction changes nothing. */
  function Handle(s: Rollout, e: Event): (t: Rollout)
    requires s.current < |s.stages|
    ensures t.current < |t.stages|
  {
    var r := match e
      case Tick(now, stored, unhealthy) => Advance(s, now, stored, unhealthy)
      case Ack(node, generation, content, outcome) => Acknowledge(s, node, generation, content, outcome);
    if r.Some? then r.value else s
  }

  function Run(s: Rollout, events: seq<Event>): (t: Rollout)
    requires s.current < |s.stages|
    ensures t.current < |t.stages|
    decreases |events|
  {
    if events == [] then s else Run(Handle(s, events[0]), events[1..])
  }
}
