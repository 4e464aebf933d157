/** The rollout tables as the controller updates them: rows are rewritten one by one inside a
    transaction, which either commits as a whole or not at all. */
module RolloutStore {
  import opened Spec
  import opened RolloutPlan
  import opened RolloutMachine
  import opened RolloutInvariants

  class Store {
    var status: Status
    var current: nat
    var bakeUntil: Option<nat>
    var stages: seq<StageRow>
    var nodes: map<Id, History>
    const autoRollback: bool
    const baselines: Cluster
    ghost const origin: Origin

    function State(): Rollout
      reads this
    {
      Rollout(status, current, bakeUntil, autoRollback, stages, baselines, nodes)
    }

    ghost predicate Valid()
      reads this
    {
      Inv(State(), origin)
    }

    /** Records a new rollout: every stage with its queued targets, and the baselines. */
    constructor (plan: seq<Stage>, autoRollback: bool, baselines: Cluster, nodes: map<Id, History>)
      requires ValidOrigin(Origin(plan, baselines, nodes))
      ensures Valid() && origin == Origin(plan, baselines, nodes)
      ensures State() == Scheduled(plan, autoRollback, baselines, nodes)
    {
      this.autoRollback, this.baselines, this.nodes := autoRollback, baselines, nodes;
      this.origin := Origin(plan, baselines, nodes);
      this.status, this.current, this.bakeUntil := Publishing, 0, None;
      new;
      stages := [];
      for i := 0 to |plan|
        invariant |stages| == i && forall k :: 0 <= k < i ==> stages[k] == QueuedStage(plan[k])
        invariant status == Publishing && current == 0 && bakeUntil == None
        invariant this.nodes == nodes && this.autoRollback == autoRollback && this.baselines == baselines
        invariant origin == Origin(plan, baselines, nodes)
      {
        stages := stages + [QueuedStage(plan[i])];
      }
      assert stages == Scheduled(plan, autoRollback, baselines, nodes).stages;
      ScheduledInv(origin, autoRollback);
    }

    /** publishClusterStageTx. Targets are published in any order; if one of them cannot be stored
        the whole transaction is abandoned. */
    method PublishStage(i: nat, now: nat, stored: Cluster) returns (ok: bool)
      requires i < |stages| && current < |stages|
      modifies this
      ensures ok <==> Publish(old(State()), i, now, stored).Some?
      ensures State() == if ok then Publish(old(State()), i, now, stored).value else old(State())
    {
      hide Storable, Grown, SentRows, CanPublish;
      var st := stages[i];
      if st.status == Done || st.status == AwaitingAck || st.status == Baking {
        return true;
      }
      if st.status != Pending {
        return false;
      }
      if st.phase == Bake {
        stages := stages[i := st.(status := Baking, startedAt := now)];
        status, current, bakeUntil := Soaking, i, Some(now + st.bakeSeconds);
        return true;
      }
      var sendable, history, rows := SendTargets(st, stored);
      if !sendable {
        return false;
      }
      if Targets(st) == {} {
        stages := stages[i := st.(status := Done, startedAt := now)];
        return true;
      }
      nodes := history;
      stages := stages[i := st.(status := AwaitingAck, startedAt := now, rows := rows)];
      status, current, bakeUntil := WaitingAcks, i, None;
      return true;
    }

    /** Appends the next generation to every queued target. */
    method SendTargets(st: StageRow, stored: Cluster) returns (ok: bool, history: map<Id, History>, rows: map<Id, Row>)
      ensures ok <==> CanPublish(st, nodes, stored)
      ensures ok ==> history == Grown(st, nodes, stored) && rows == SentRows(st, nodes, stored)
    {
      hide Storable, Targets, CanPublish, PartlySent;
      var rest := Targets(st);
      history, rows := nodes, st.rows;
      NothingSent(st, nodes, stored);
      while rest != {}
        invariant rest <= Targets(st) && PartlySent(st, nodes, stored, rest, history, rows)
        decreases |rest|
      {
        var n :| n in rest;
        SendOne(st, nodes, stored, rest, history, rows, n);
        if n !in nodes || !Storable(stored, n, st.rows[n].desired) {
          return false, history, rows;
        }
        rest := rest - {n};
        rows := rows[n := Row(stored[n], Some(|history[n]|), Sent)];
        history := history[n := history[n] + [stored[n]]];
      }
      AllSent(st, nodes, stored, history, rows);
      return true, history, rows;
    }

    /** completeClusterStageTx. */
    method CompleteStage(i: nat, now: nat, stored: Cluster) returns (ok: bool)
      requires i < |stages| && current < |stages|
      modifies this
      ensures ok <==> Finish(old(State()), i, now, stored).Some?
      ensures State() == if ok then Finish(old(State()), i, now, stored).value else old(State())
    {
      hide Publish;
      var savedStages, savedStatus, savedCurrent, savedBake := stages, status, current, bakeUntil;
      stages := stages[i := stages[i].(status := Done)];
      if stages[i].phase == Compensate {
        status, bakeUntil := RolledBack, None;
        return true;
      }
      var next := i + 1;
      while next < |stages| && stages[next].status != Pending
        invariant i < next <= |stages|
        invariant NextPending(stages, i + 1) == NextPending(stages, next)
      {
        next := next + 1;
      }
      if next < |stages| {
        status, current, bakeUntil := Publishing, next, None;
        ok := PublishStage(next, now, stored);
        if !ok {
          stages, status, current, bakeUntil := savedStages, savedStatus, savedCurrent, savedBake;
        }
        return;
      }
      status, bakeUntil := Completed, None;
      return true;
    }

    /** ensureCompensationStage. */
    method EnsureCompensation() returns (at: nat)
      modifies this
      ensures State() == Compensating(old(State())) && at == current < |stages|
      ensures nodes == old(nodes)
    {
      at := |stages|;
      assert stages[..at] == stages;
      while at > 0 && stages[at - 1].phase != Compensate
        invariant at <= |stages| && State() == old(State())
        invariant CompensationAt(stages) == CompensationAt(stages[..at])
      {
        assert stages[..at][..at - 1] == stages[..at - 1];
        at := at - 1;
      }
      assert at == |stages| ==> stages[..at] == stages;
      if at > 0 {
        at := at - 1;
      } else {
        at := |stages|;
        var rows: map<Id, Row> := map[];
        var rest := baselines.Keys;
        while rest != {}
          invariant rest <= baselines.Keys && State() == old(State())
          invariant forall n :: n in rows <==> n in baselines.Keys - rest && Published(stages, n)
          invariant forall n :: n in rows ==> rows[n] == Row(baselines[n], None, Queued)
          decreases |rest|
        {
          var n :| n in rest;
          rest := rest - {n};
          if Published(stages, n) {
            rows := rows[n := Row(baselines[n], None, Queued)];
          }
        }
        assert rows == QueuedRows(Disturbed(stages, baselines));
        stages := stages + [StageRow(Compensation, Compensate, 0, Pending, 0, rows)];
      }
      status, current, bakeUntil := RollingBack, at, None;
    }

    /** requestClusterRollbackTx. */
    method Rollback(i: nat)
      requires i < |stages|
      modifies this
      ensures State() == RequestRollback(old(State()), i)
    {
      var terminal := stages[i].phase == Compensate || !autoRollback;
      stages := stages[i := stages[i].(status := Faulted)];
      status := if terminal then Failed else RollbackPending;
      bakeUntil := None;
    }

    method CountPending(st: StageRow) returns (pending: nat)
      ensures pending == 0 <==> AllApplied(st)
    {
      pending := 0;
      var rest := st.rows.Keys;
      while rest != {}
        invariant rest <= st.rows.Keys
        invariant pending == 0 <==> forall n :: n in st.rows.Keys - rest ==> st.rows[n].status == Reported(Applied)
        decreases |rest|
      {
        var n :| n in rest;
        rest := rest - {n};
        if st.rows[n].status != Reported(Applied) {
          pending := pending + 1;
        }
      }
    }

    /** advanceClusterRolloutTx, as the advancer runs it on an active rollout. */
    method AdvanceRollout(now: nat, stored: Cluster, unhealthy: bool) returns (ok: bool)
      requires Valid() && !Terminal(State())
      modifies this
      ensures Valid()
      ensures State() == Handle(old(State()), Tick(now, stored, unhealthy))
      ensures ok <==> Advance(old(State()), now, stored, unhealthy).Some?
    {
      hide Publish, Finish, Compensating, RequestRollback, Sound, OnTrack, Reverting;
      assert current < |stages| by { StateHasStage(State(), origin); }
      HandleKeepsInv(State(), origin, Tick(now, stored, unhealthy));
      if status == RollbackPending {
        var savedStages, savedStatus, savedCurrent, savedBake := stages, status, current, bakeUntil;
        var at := EnsureCompensation();
        ok := PublishStage(at, now, stored);
        if !ok {
          stages, status, current, bakeUntil := savedStages, savedStatus, savedCurrent, savedBake;
        }
        return;
      }
      var st := stages[current];
      if status == Publishing || status == RollingBack {
        if st.status == Done {
          ok := CompleteStage(current, now, stored);
        } else {
          ok := PublishStage(current, now, stored);
        }
        return;
      }
      if status == WaitingAcks {
        var pending := CountPending(st);
        if pending == 0 {
          ok := CompleteStage(current, now, stored);
          return;
        }
        if now >= st.startedAt + ACK_TIMEOUT {
          Rollback(current);
        }
        return true;
      }
      if unhealthy {
        Rollback(current);
        return true;
      }
      if bakeUntil.Some? && now < bakeUntil.value {
        return true;
      }
      ok := CompleteStage(current, now, stored);
    }

    /** recordClusterRolloutACKTx, after the checks of RecordApplyResult. Every row that carries the
        generation is updated; there is only one. */
    method RecordAck(node: Id, generation: nat, content: NodeState, outcome: Outcome) returns (ok: bool)
      requires Valid()
      modifies this
      ensures Valid()
      ensures State() == Handle(old(State()), Ack(node, generation, content, outcome))
      ensures ok <==> Acknowledge(old(State()), node, generation, content, outcome).Some?
    {
      hide Sound, OnTrack, Reverting, Matches, MatchAt, RequestRollback;
      assert current < |stages| by { StateHasStage(State(), origin); }
      HandleKeepsInv(State(), origin, Ack(node, generation, content, outcome));
      if node !in nodes || generation == 0 || generation >= |nodes[node]| || nodes[node][generation] != content {
        return false;
      }
      ghost var before := stages;
      ghost var at := MatchAt(before, node, generation, outcome);
      OnlyMatch(State(), origin, node, generation, outcome);
      ghost var after := before;
      if at.Some? {
        MatchedRow(before[at.value], node, generation, outcome);
        after := before[at.value := Acked(before[at.value], node, outcome)];
      }
      var matches: seq<nat> := [];
      for i := 0 to |stages|
        invariant |stages| == |before|
        invariant State() == old(State()).(stages := stages)
        invariant stages == if at.Some? && at.value < i then after else before
        invariant matches == if at.Some? && at.value < i then [at.value] else []
      {
        if Matches(stages[i], node, generation, outcome) {
          MatchedRow(stages[i], node, generation, outcome);
          stages := stages[i := Acked(stages[i], node, outcome)];
          matches := matches + [i];
        }
      }
      if outcome == PermanentError && !Terminal(State()) && |matches| > 0 {
        Rollback(matches[0]);
      }
      return true;
    }
  }

  /** All targets but those in `rest` were looked at, could be published, and have been. */
  ghost predicate PartlySent(st: StageRow, nodes: map<Id, History>, stored: Cluster, rest: set<Id>,
                             history: map<Id, History>, rows: map<Id, Row>)
  {
    && history.Keys == nodes.Keys && rows.Keys == st.rows.Keys
    && (forall n :: n in Targets(st) && n !in rest ==> n in nodes && n in stored && Storable(stored, n, st.rows[n].desired))
    && (forall n :: n in nodes ==>
          history[n] == if n in Targets(st) && n !in rest then nodes[n] + [stored[n]] else nodes[n])
    && (forall n :: n in rows ==>
          rows[n] == if n in Targets(st) && n !in rest && n in nodes then Row(stored[n], Some(|nodes[n]|), Sent) else st.rows[n])
  }

  lemma NothingSent(st: StageRow, nodes: map<Id, History>, stored: Cluster)
    ensures PartlySent(st, nodes, stored, Targets(st), nodes, st.rows)
  {
    hide Targets;
  }

  lemma SendOne(st: StageRow, nodes: map<Id, History>, stored: Cluster, rest: set<Id>,
                history: map<Id, History>, rows: map<Id, Row>, n: Id)
    requires PartlySent(st, nodes, stored, rest, history, rows) && rest <= Targets(st) && n in rest
    ensures n in st.rows && |rest - {n}| < |rest|
    ensures n !in nodes || !Storable(stored, n, st.rows[n].desired) ==> !CanPublish(st, nodes, stored)
    ensures n in nodes && Storable(stored, n, st.rows[n].desired) ==>
      && n in stored && n in history
      && PartlySent(st, nodes, stored, rest - {n}, history[n := history[n] + [stored[n]]],
                    rows[n := Row(stored[n], Some(|history[n]|), Sent)])
  {
    hide SameUpToClass, ValidNode;
  }

  lemma AllSent(st: StageRow, nodes: map<Id, History>, stored: Cluster, history: map<Id, History>, rows: map<Id, Row>)
    requires PartlySent(st, nodes, stored, {}, history, rows)
    ensures CanPublish(st, nodes, stored) && history == Grown(st, nodes, stored) && rows == SentRows(st, nodes, stored)
  {
    hide Storable;
  }

  lemma StateHasStage(s: Rollout, o: Origin)
    requires Inv(s, o)
    ensures s.current < |s.stages|
  {
  }

  lemma MatchedRow(st: StageRow, node: Id, generation: nat, outcome: Outcome)
    requires Matches(st, node, generation, outcome)
    ensures node in st.rows
  {
  }

  /** Generations never repeat, so an acknowledgement concerns at most one stage. */
  lemma {:induction false} OnlyMatch(s: Rollout, o: Origin, node: Id, generation: nat, outcome: Outcome)
    requires Inv(s, o)
    ensures var at := MatchAt(s.stages, node, generation, outcome);
            forall i :: 0 <= i < |s.stages| ==> (Matches(s.stages[i], node, generation, outcome) <==> at == Some(i))
  {
    hide ValidOrigin, RowsOk, Extends, Covered, Carries, OnTrack, Reverting;
  }
}
