/** The exchange of generations between the controller and one agent: snapshots down, results up,
    over sessions that may break at any time. */
module GenerationExchange {
  import opened Spec
  import opened AgentMoves

  datatype Status = Applied | Retryable | Permanent

  datatype Result = Result(snapshot: Snapshot, status: Status)

  // ---------------------------------------------------------------- one connection

  /** What the controller remembers of a connected agent. Generation 0 is nothing at all. */
  datatype Session = Session(
    applied: Snapshot, lastSent: Option<Snapshot>, blocked: nat, retryAfter: Option<nat>)

  function Opened(hello: Snapshot): Session {
    Session(hello, None, 0, None)
  }

  datatype Sending = AgentAhead | Disagreement | Unsupported | Quiet | Sent(snapshot: Snapshot)

  /** What sendLatest does with the latest snapshot. */
  function Decide(s: Session, latest: Option<Snapshot>, supported: bool, capable: bool, now: nat): Sending {
    if latest.None? then Quiet
    else if !supported then Unsupported
    else if latest.value.generation < s.applied.generation then AgentAhead
    else if latest.value.generation == s.applied.generation then
      if latest.value != s.applied then Disagreement else Quiet
    else if s.blocked == latest.value.generation then Quiet
    else if s.lastSent == latest && (s.retryAfter.None? || now < s.retryAfter.value) then Quiet
    else if !capable then Unsupported
    else Sent(latest.value)
  }

  function AfterSending(s: Session, sending: Sending): Session {
    if sending.Sent? then s.(lastSent := Some(sending.snapshot), retryAfter := None) else s
  }

  function AfterResult(s: Session, r: Result, retryAt: nat): Session {
    match r.status
    case Applied => s.(applied := r.snapshot, blocked := 0)
    case Retryable => s.(retryAfter := Some(retryAt))
    case Permanent => s.(blocked := r.snapshot.generation)
  }

  class Connection {
    var applied: Snapshot
    var lastSent: Option<Snapshot>
    var blocked: nat
    var retryAfter: Option<nat>

    function State(): Session
      reads this
    {
      Session(applied, lastSent, blocked, retryAfter)
    }

    constructor (hello: Snapshot)
      ensures State() == Opened(hello)
    {
      applied, lastSent, blocked, retryAfter := hello, None, 0, None;
    }

    method SendLatest(latest: Option<Snapshot>, supported: bool, capable: bool, now: nat) returns (sending: Sending)
      modifies this
      ensures sending == Decide(old(State()), latest, supported, capable, now)
      ensures State() == AfterSending(old(State()), sending)
    {
      if latest.None? {
        return Quiet;
      }
      var record := latest.value;
      if !supported {
        return Unsupported;
      }
      if record.generation < applied.generation {
        return AgentAhead;
      }
      if record.generation == applied.generation {
        return if record.content != applied.content then Disagreement else Quiet;
      }
      if blocked == record.generation {
        return Quiet;
      }
      if lastSent.Some? && lastSent.value.generation == record.generation && lastSent.value.content == record.content {
        if retryAfter.None? || now < retryAfter.value {
          return Quiet;
        }
      }
      if !capable {
        return Unsupported;
      }
      lastSent, retryAfter := Some(record), None;
      return Sent(record);
    }

    method HandleResult(r: Result, retryAt: nat)
      modifies this
      ensures State() == AfterResult(old(State()), r, retryAt)
    {
      match r.status
      case Applied =>
        applied, blocked := r.snapshot, 0;
      case Retryable =>
        retryAfter := Some(retryAt);
      case Permanent =>
        blocked := r.snapshot.generation;
    }
  }

  // ---------------------------------------------------------------- over one connection

  datatype Call =
    | Asked(latest: Option<Snapshot>, supported: bool, capable: bool, now: nat)
    | Answered(result: Result, retryAt: nat)

  function AfterCall(s: Session, c: Call): Session {
    match c
    case Asked(latest, supported, capable, now) => AfterSending(s, Decide(s, latest, supported, capable, now))
    case Answered(result, retryAt) => AfterResult(s, result, retryAt)
  }

  function AfterCalls(s: Session, calls: seq<Call>): Session
    decreases |calls|
  {
    if calls == [] then s else AfterCalls(AfterCall(s, calls[0]), calls[1..])
  }

  predicate Sends(s: Session, c: Call, x: Snapshot) {
    c.Asked? && Decide(s, c.latest, c.supported, c.capable, c.now) == Sent(x)
  }

  /** The latest generation only grows, from `x` on. */
  predicate Growing(x: Snapshot, calls: seq<Call>) {
    && (forall i :: 0 <= i < |calls| && calls[i].Asked? && calls[i].latest.Some? ==>
          calls[i].latest.value == x || calls[i].latest.value.generation > x.generation)
    && forall i, j :: 0 <= i < j < |calls| && calls[i].Asked? && calls[j].Asked? && calls[i].latest.Some? && calls[j].latest.Some? ==>
         calls[i].latest.value == calls[j].latest.value || calls[i].latest.value.generation < calls[j].latest.value.generation
  }

  predicate Retried(calls: seq<Call>, k: nat, now: nat) {
    exists i :: 0 <= i < k <= |calls| && calls[i].Answered? && calls[i].result.status == Retryable && calls[i].retryAt <= now
  }

  /** Between two sends of a snapshot on the same connection a retryable error came in, and the time that it
      set has passed. */
  lemma {:induction false} ResentOnlyOnRetry(s: Session, first: Call, x: Snapshot, calls: seq<Call>, k: nat)
    requires Sends(s, first, x) && Growing(x, calls)
    requires k < |calls| && Sends(AfterCalls(AfterCall(s, first), calls[..k]), calls[k], x)
    ensures Retried(calls, k, calls[k].now)
  {
    RetryIsDue(AfterCall(s, first), x, calls, k);
  }

  lemma {:induction false} RetryIsDue(s: Session, x: Snapshot, calls: seq<Call>, k: nat)
    requires s.lastSent == Some(x) && Growing(x, calls)
    requires k < |calls| && Sends(AfterCalls(s, calls[..k]), calls[k], x)
    ensures Retried(calls, k, calls[k].now) || (s.retryAfter.Some? && s.retryAfter.value <= calls[k].now)
    decreases k
  {
    hide AfterCalls, Decide;
    CallsStep(s, calls, k);
    if k == 0 {
      SentMeans(s, calls[0], x);
    } else {
      var t, rest := AfterCall(s, calls[0]), calls[1..];
      TailGrows(x, calls);
      LatestAtEnd(AfterCalls(s, calls[..k]), calls[k], x);
      if calls[0].Asked? && Decide(s, calls[0].latest, calls[0].supported, calls[0].capable, calls[0].now).Sent? {
        var y := Decide(s, calls[0].latest, calls[0].supported, calls[0].capable, calls[0].now).snapshot;
        LatestAtEnd(s, calls[0], y);
        assert calls[0].latest.value == calls[k].latest.value;
      }
      RetryIsDue(t, x, rest, k - 1);
      if Retried(rest, k - 1, calls[k].now) {
        var i :| 0 <= i < k - 1 && rest[i].Answered? && rest[i].result.status == Retryable && rest[i].retryAt <= calls[k].now;
        assert calls[i + 1] == rest[i];
      } else {
        assert calls[0].Answered? && calls[0].result.status == Retryable ==> Retried(calls, k, calls[k].now) by {
          assert calls[0].Answered? && calls[0].result.status == Retryable ==> calls[0].retryAt <= calls[k].now;
        }
      }
    }
  }

  lemma {:induction false} CallsStep(s: Session, calls: seq<Call>, k: nat)
    requires k < |calls|
    ensures k == 0 ==> AfterCalls(s, calls[..k]) == s
    ensures k > 0 ==> AfterCalls(s, calls[..k]) == AfterCalls(AfterCall(s, calls[0]), calls[1..][..k - 1]) && calls[1..][k - 1] == calls[k]
  {
    if k > 0 {
      assert calls[..k][1..] == calls[1..][..k - 1];
    }
  }

  lemma TailGrows(x: Snapshot, calls: seq<Call>)
    requires calls != [] && Growing(x, calls)
    ensures Growing(x, calls[1..])
  {
  }

  lemma LatestAtEnd(s: Session, c: Call, x: Snapshot)
    requires Sends(s, c, x)
    ensures c.latest == Some(x)
  {
  }

  /** What a sent snapshot is: the latest, newer than what is applied, not blocked, and either not sent
      before or due for another try. */
  lemma SentMeans(s: Session, c: Call, x: Snapshot)
    requires Sends(s, c, x)
    ensures c.latest == Some(x) && x.generation > s.applied.generation && x.generation != s.blocked
    ensures s.lastSent == Some(x) ==> s.retryAfter.Some? && s.retryAfter.value <= c.now
  {
  }

  /** What is blocked stays so until something is applied, or another generation fails for good. */
  lemma {:induction false} BlockedUntilAnother(s: Session, x: Snapshot, calls: seq<Call>, k: nat)
    requires s.blocked == x.generation
    requires k < |calls| && Sends(AfterCalls(s, calls[..k]), calls[k], x)
    ensures exists i :: 0 <= i < k && calls[i].Answered? &&
              (calls[i].result.status == Applied || (calls[i].result.status == Permanent && calls[i].result.snapshot.generation != x.generation))
    decreases k
  {
    hide AfterCalls, Decide;
    CallsStep(s, calls, k);
    if k == 0 {
      SentMeans(s, calls[0], x);
    } else {
      var t, rest := AfterCall(s, calls[0]), calls[1..];
      if t.blocked == x.generation {
        BlockedUntilAnother(t, x, rest, k - 1);
        var i :| 0 <= i < k - 1 && rest[i].Answered? && (rest[i].result.status == Applied ||
                   (rest[i].result.status == Permanent && rest[i].result.snapshot.generation != x.generation));
        assert calls[i + 1] == rest[i];
      } else {
        assert calls[0].Answered?;
      }
    }
  }

  /** What is applied stays settled, unless the agent reports something older. */
  lemma {:induction false} SettledUntilOlder(s: Session, x: Snapshot, calls: seq<Call>, k: nat)
    requires x.generation <= s.applied.generation
    requires k < |calls| && Sends(AfterCalls(s, calls[..k]), calls[k], x)
    ensures exists i :: 0 <= i < k && calls[i].Answered? && calls[i].result.status == Applied
                        && calls[i].result.snapshot.generation < x.generation
    decreases k
  {
    hide AfterCalls, Decide;
    CallsStep(s, calls, k);
    if k == 0 {
      SentMeans(s, calls[0], x);
    } else {
      var t, rest := AfterCall(s, calls[0]), calls[1..];
      if x.generation <= t.applied.generation {
        SettledUntilOlder(t, x, rest, k - 1);
        var i :| 0 <= i < k - 1 && rest[i].Answered? && rest[i].result.status == Applied && rest[i].result.snapshot.generation < x.generation;
        assert calls[i + 1] == rest[i];
      } else {
        assert calls[0].Answered?;
      }
    }
  }

  /** After a permanent error its generation is sent again only if something was applied since, or another
      generation failed for good. */
  lemma BlockedUntilResult(s: Session, r: Result, retryAt: nat, x: Snapshot, calls: seq<Call>, k: nat)
    requires r.status == Permanent && r.snapshot.generation == x.generation
    requires k < |calls| && Sends(AfterCalls(AfterCall(s, Answered(r, retryAt)), calls[..k]), calls[k], x)
    ensures exists i :: 0 <= i < k && calls[i].Answered? &&
              (calls[i].result.status == Applied || (calls[i].result.status == Permanent && calls[i].result.snapshot.generation != x.generation))
  {
    BlockedUntilAnother(AfterCall(s, Answered(r, retryAt)), x, calls, k);
  }

  /** What was reported as applied, and anything older, is sent again only if something older yet is reported. */
  lemma SettledOnceApplied(s: Session, r: Result, retryAt: nat, x: Snapshot, calls: seq<Call>, k: nat)
    requires r.status == Applied && x.generation <= r.snapshot.generation
    requires k < |calls| && Sends(AfterCalls(AfterCall(s, Answered(r, retryAt)), calls[..k]), calls[k], x)
    ensures exists i :: 0 <= i < k && calls[i].Answered? && calls[i].result.status == Applied
                        && calls[i].result.snapshot.generation < x.generation
  {
    SettledUntilOlder(AfterCall(s, Answered(r, retryAt)), x, calls, k);
  }

  /** Once something is applied, whatever is newer and was not sent yet goes out at the next occasion, blocked
      before or not. */
  lemma AppliedUnblocks(s: Session, r: Result, retryAt: nat, x: Snapshot, now: nat)
    requires r.status == Applied && r.snapshot.generation < x.generation && s.lastSent != Some(x)
    ensures Sends(AfterCall(s, Answered(r, retryAt)), Asked(Some(x), true, true, now), x)
  {
  }

  // ---------------------------------------------------------------- the whole exchange

  /** `history` holds every published content by generation, starting with nothing at 0; `acked` is
      the applied generation the controller has stored; `received` is the last snapshot that reached
      the agent. */
  datatype Exchange = Exchange(
    history: seq<NodeState>, acked: Snapshot, agent: Agent, received: Snapshot,
    session: Option<Session>, down: seq<Snapshot>, up: seq<Result>, lost: bool)

  function Begin(): Exchange {
    Exchange([EmptyState()], Nothing(), Blank(), Nothing(), None, [], [], false)
  }

  datatype Step =
    | Publish(content: NodeState)
    | Connect
    | Disconnect
    | SendLatest(supported: bool, capable: bool, now: nat)
    | Receive
    | Act(move: AgentMove)
    | Report(status: Status, current: Snapshot)
    | Deliver(retryAt: nat)

  function Latest(x: Exchange): Option<Snapshot> {
    if |x.history| <= 1 then None else Some(Snapshot(|x.history| - 1, x.history[|x.history| - 1]))
  }

  /** RecordApplyResult: the errors that close the session as data loss. */
  predicate Refused(x: Exchange, r: Result) {
    var g := r.snapshot.generation;
    || g == 0 || g >= |x.history|
    || x.history[g] != r.snapshot.content
    || (r.status == Applied && x.acked.generation == g && x.acked.content != r.snapshot.content)
  }

  function Next(x: Exchange, s: Step): Exchange {
    match s
    case Publish(content) => x.(history := x.history + [content])
    case Disconnect => x.(session := None, down := [], up := [])
    case Connect =>
      x.(session := Some(Opened(x.agent.applied)), down := [],
         up := if x.agent.applied.generation == 0 then [] else [Result(x.agent.applied, Applied)])
    case SendLatest(supported, capable, now) =>
      if x.session.None? then x
      else
        var sending := Decide(x.session.value, Latest(x), supported, capable, now);
        var y := x.(session := Some(AfterSending(x.session.value, sending)));
        (match sending
         case Sent(snapshot) => y.(down := x.down + [snapshot])
         case Quiet => y
         case Unsupported => x.(session := None, down := [], up := [])
         case AgentAhead => y.(lost := true)
         case Disagreement => y.(lost := true))
    case Receive => if x.down == [] then x else x.(down := x.down[1..], received := x.down[0])
    case Act(m) => if Possible(x, m) then x.(agent := Moved(x.agent, m)) else x
    case Report(status, snapshot) =>
      if x.session.Some? && Reportable(x, snapshot, status) then x.(up := x.up + [Result(snapshot, status)]) else x
    case Deliver(retryAt) =>
      if x.up == [] || x.session.None? then x
      else
        var r, y := x.up[0], x.(up := x.up[1..]);
        if Refused(x, r) then y.(lost := true)
        else y.(acked := if r.status == Applied && x.acked.generation <= r.snapshot.generation then r.snapshot else x.acked,
                session := Some(AfterResult(x.session.value, r, retryAt)))
  }

  /** The agent writes ahead what it received, or again what is on top of its record. */
  predicate Possible(x: Exchange, m: AgentMove) {
    m.Fetch? ==> m.snapshot == x.received || m.snapshot == Top(x.agent)
  }

  /** An applied result names the durable state; an error names some snapshot that was delivered. */
  predicate Reportable(x: Exchange, s: Snapshot, status: Status) {
    if status == Applied then s == x.agent.applied && s.generation > 0
    else 0 < s.generation < |x.history| && s.content == x.history[s.generation]
  }

  function Run(x: Exchange, steps: seq<Step>): Exchange
    decreases |steps|
  {
    if steps == [] then x else Run(Next(x, steps[0]), steps[1..])
  }

  predicate Genuine(x: Exchange, s: Snapshot) {
    s.generation < |x.history| && s.content == x.history[s.generation]
  }

  predicate Inv(x: Exchange) {
    && !x.lost && |x.history| > 0 && x.history[0] == EmptyState()
    && Genuine(x, x.acked) && Genuine(x, x.received)
    && x.acked.generation <= x.agent.applied.generation
    && AgentOk(x, x.agent)
    && (x.session.Some? ==>
          Genuine(x, x.session.value.applied) && x.session.value.applied.generation <= x.agent.applied.generation)
    && (forall i :: 0 <= i < |x.down| ==> Genuine(x, x.down[i]) && x.down[i].generation > 0)
    && (forall i :: 0 <= i < |x.up| ==> GenuineResult(x, x.up[i]))
  }

  predicate AgentOk(x: Exchange, a: Agent) {
    && Genuine(x, a.applied) && Genuine(x, a.running)
    && (a.pending.Some? ==> Genuine(x, a.pending.value) && a.applied.generation <= a.pending.value.generation)
  }

  predicate GenuineResult(x: Exchange, r: Result) {
    && Genuine(x, r.snapshot) && r.snapshot.generation > 0
    && (r.status == Applied ==> r.snapshot.generation <= x.agent.applied.generation)
  }

  lemma NextKeepsInv(x: Exchange, s: Step)
    requires Inv(x)
    ensures Inv(Next(x, s))
    ensures x.agent.applied.generation <= Next(x, s).agent.applied.generation && x.acked.generation <= Next(x, s).acked.generation
    ensures x.history <= Next(x, s).history
  {
    hide Next, Inv;
    StepsForward(x, s);
    match s
    case Publish(content) => PublishKeepsInv(x, content);
    case Deliver(retryAt) => DeliverKeepsInv(x, retryAt);
    case SendLatest(supported, capable, now) => SendKeepsInv(x, supported, capable, now);
    case Act(m) => ActKeepsInv(x, m);
    case _ => OtherKeepsInv(x, s);
  }

  lemma StepsForward(x: Exchange, s: Step)
    requires Inv(x)
    ensures x.agent.applied.generation <= Next(x, s).agent.applied.generation && x.acked.generation <= Next(x, s).acked.generation
    ensures x.history <= Next(x, s).history
  {
    hide Decide, Refused, GenuineResult, Accepts, Reportable, AfterResult;
  }

  lemma OtherKeepsInv(x: Exchange, s: Step)
    requires Inv(x) && (s.Connect? || s.Disconnect? || s.Receive? || s.Report?)
    ensures Inv(Next(x, s))
  {
    hide Decide, Refused;
    var y := Next(x, s);
    assert y.history == x.history && y.agent == x.agent;
    if s.Report? {
      assert forall i :: 0 <= i < |x.up| ==> GenuineResult(x, x.up[i]);
    }
  }

  lemma PublishKeepsInv(x: Exchange, content: NodeState)
    requires Inv(x)
    ensures Inv(Next(x, Publish(content))) && x.history <= Next(x, Publish(content)).history
  {
    var y := Next(x, Publish(content));
    assert forall t :: Genuine(x, t) ==> Genuine(y, t);
    assert forall i :: 0 <= i < |y.up| ==> GenuineResult(x, x.up[i]);
  }

  lemma ActKeepsInv(x: Exchange, m: AgentMove)
    requires Inv(x)
    ensures Inv(Next(x, Act(m)))
  {
    var y := Next(x, Act(m));
    assert forall t :: Genuine(x, t) ==> Genuine(y, t);
    assert forall i :: 0 <= i < |y.up| ==> GenuineResult(x, x.up[i]);
  }

  lemma SendKeepsInv(x: Exchange, supported: bool, capable: bool, now: nat)
    requires Inv(x)
    ensures Inv(Next(x, SendLatest(supported, capable, now)))
    ensures x.session.Some? ==>
      var sending := Decide(x.session.value, Latest(x), supported, capable, now);
      sending != AgentAhead && sending != Disagreement
  {
    hide GenuineResult;
    if x.session.Some? {
      NeverLost(x, supported, capable, now);
      hide Decide;
      var sending := Decide(x.session.value, Latest(x), supported, capable, now);
      if sending.Sent? {
        SentIsLatest(x, supported, capable, now);
      }
    }
    SameGenuine(x, Next(x, SendLatest(supported, capable, now)));
  }

  lemma NeverLost(x: Exchange, supported: bool, capable: bool, now: nat)
    requires Inv(x) && x.session.Some?
    ensures var sending := Decide(x.session.value, Latest(x), supported, capable, now);
            sending != AgentAhead && sending != Disagreement
  {
    hide GenuineResult;
  }

  lemma SentIsLatest(x: Exchange, supported: bool, capable: bool, now: nat)
    requires x.session.Some? && Decide(x.session.value, Latest(x), supported, capable, now).Sent?
    ensures Latest(x) == Some(Decide(x.session.value, Latest(x), supported, capable, now).snapshot)
  {
  }

  /** What is genuine depends on the history and the agent only. */
  lemma SameGenuine(x: Exchange, y: Exchange)
    requires y.history == x.history && y.agent == x.agent
    ensures forall r :: GenuineResult(x, r) <==> GenuineResult(y, r)
    ensures forall s :: Genuine(x, s) <==> Genuine(y, s)
  {
  }

  lemma DeliverKeepsInv(x: Exchange, retryAt: nat)
    requires Inv(x)
    ensures Inv(Next(x, Deliver(retryAt)))
    ensures x.up != [] ==> !Refused(x, x.up[0])
  {
    var y := Next(x, Deliver(retryAt));
    if x.up != [] {
      assert GenuineResult(x, x.up[0]);
    }
    assert forall i :: 0 <= i < |y.up| ==> GenuineResult(x, y.up[i]);
  }

  /** In every run: the controller's applied generation is at most the agent's, which is at most the
      desired one; equal generations have equal contents; and no session is ever closed for data
      loss. */
  lemma {:induction false} Sandwich(x: Exchange, steps: seq<Step>)
    requires Inv(x)
    ensures var y := Run(x, steps);
            && Inv(y) && !y.lost
            && y.acked.generation <= y.agent.applied.generation <= |y.history| - 1
            && (y.acked.generation == y.agent.applied.generation ==> y.acked == y.agent.applied)
            && y.agent.applied.content == y.history[y.agent.applied.generation]
            && y.agent.running.content == y.history[y.agent.running.generation]
            && x.agent.applied.generation <= y.agent.applied.generation && x.acked.generation <= y.acked.generation
    decreases |steps|
  {
    hide Next;
    if steps != [] {
      NextKeepsInv(x, steps[0]);
      Sandwich(Next(x, steps[0]), steps[1..]);
    }
  }

  /** From the first publication on, whatever is lost, repeated or restarted: what the controller takes
      for applied is at most what the agent applied, and no decision to send ends in data loss. */
  lemma {:induction false} SandwichFromBegin(steps: seq<Step>, supported: bool, capable: bool, now: nat)
    ensures var y := Run(Begin(), steps);
            && y.acked.generation <= y.agent.applied.generation <= |y.history| - 1
            && (y.acked.generation == y.agent.applied.generation ==> y.acked == y.agent.applied)
            && !y.lost
            && (y.session.Some? ==>
                  var sending := Decide(y.session.value, Latest(y), supported, capable, now);
                  sending != AgentAhead && sending != Disagreement)
  {
    hide Run, Decide, Inv;
    BeginInv();
    Sandwich(Begin(), steps);
    var y := Run(Begin(), steps);
    if y.session.Some? {
      NeverLost(y, supported, capable, now);
    }
  }

  lemma BeginInv()
    ensures Inv(Begin())
  {
  }

  // ---------------------------------------------------------------- catching up

  /** What is published last is sent exactly when the agent can take it and has something to gain: it is newer
      than what is applied, not blocked, and not on its way already unless it is due for another try. */
  lemma SendsExactly(s: Session, latest: Option<Snapshot>, supported: bool, capable: bool, now: nat, x: Snapshot)
    ensures Decide(s, latest, supported, capable, now) == Sent(x) <==>
            && latest == Some(x) && supported && capable
            && x.generation > s.applied.generation && s.blocked != x.generation
            && (s.lastSent == Some(x) ==> s.retryAfter.Some? && s.retryAfter.value <= now)
  {
  }

  /** Some run from here ends with the controller and the agent at `goal`, and nothing else published. */
  predicate Arrives(x: Exchange, goal: Snapshot, steps: seq<Step>) {
    var y := Run(x, steps);
    y.history == x.history && y.acked == goal && y.agent.applied == goal && y.agent.pending.None?
  }

  lemma {:induction false} ArrivesLater(x: Exchange, s: Step, goal: Snapshot)
    requires Next(x, s).history == x.history && exists steps :: Arrives(Next(x, s), goal, steps)
    ensures exists steps :: Arrives(x, goal, steps)
  {
    hide Next;
    var steps :| Arrives(Next(x, s), goal, steps);
    assert ([s] + steps)[1..] == steps;
    assert Arrives(x, goal, [s] + steps);
  }

  lemma {:induction false} ArrivedAlready(x: Exchange, goal: Snapshot)
    requires x.acked == goal && x.agent.applied == goal && x.agent.pending.None?
    ensures exists steps :: Arrives(x, goal, steps)
  {
    assert Run(x, []) == x;
    assert Arrives(x, goal, []);
  }

  /** Results that are on their way arrive one by one; the last one says that `goal` is applied. */
  lemma {:induction false} ResultsArrive(x: Exchange, goal: Snapshot)
    requires Inv(x) && x.session.Some? && x.up != [] && x.up[|x.up| - 1] == Result(goal, Applied)
    requires x.agent.applied == goal && x.agent.pending.None?
    ensures exists steps :: Arrives(x, goal, steps)
    decreases |x.up|
  {
    hide Inv;
    DeliverKeepsInv(x, 0);
    NextKeepsInv(x, Deliver(0));
    DeliveredResult(x, goal);
    var y := Next(x, Deliver(0));
    if |x.up| == 1 {
      ArrivedAlready(y, goal);
    } else {
      ResultsArrive(y, goal);
    }
    ArrivesLater(x, Deliver(0), goal);
  }

  lemma DeliveredResult(x: Exchange, goal: Snapshot)
    requires Inv(x) && x.session.Some? && x.up != [] && !Refused(x, x.up[0])
    requires x.up[|x.up| - 1] == Result(goal, Applied) && x.agent.applied == goal
    ensures var y := Next(x, Deliver(0));
            && y.history == x.history && y.agent == x.agent && y.session.Some? && y.up == x.up[1..]
            && (|x.up| == 1 ==> y.acked == goal)
            && (|x.up| > 1 ==> y.up[|y.up| - 1] == Result(goal, Applied))
  {
    hide Refused;
  }

  /** The agent takes the snapshot it received: writes it ahead, switches and commits. */
  lemma {:induction false} AgentTakes(x: Exchange, goal: Snapshot)
    requires Inv(x) && x.session.Some? && Latest(x) == Some(goal) && x.received == goal
    requires x.agent.applied.generation < goal.generation
    ensures exists steps :: Arrives(x, goal, steps)
  {
    TakenSteps(x, goal);
    hide Inv, Next, Latest;
    var a := Next(x, Act(Fetch(goal)));
    var b := Next(a, Act(Switch));
    var c := Next(b, Act(Commit));
    var d := Next(c, Report(Applied, goal));
    NextKeepsInv(x, Act(Fetch(goal)));
    NextKeepsInv(a, Act(Switch));
    NextKeepsInv(b, Act(Commit));
    NextKeepsInv(c, Report(Applied, goal));
    ResultsArrive(d, goal);
    ArrivesLater(c, Report(Applied, goal), goal);
    ArrivesLater(b, Act(Commit), goal);
    ArrivesLater(a, Act(Switch), goal);
    ArrivesLater(x, Act(Fetch(goal)), goal);
  }

  lemma TakenSteps(x: Exchange, goal: Snapshot)
    requires Inv(x) && x.session.Some? && Latest(x) == Some(goal) && x.received == goal
    requires x.agent.applied.generation < goal.generation
    ensures var a := Next(x, Act(Fetch(goal)));
            var b := Next(a, Act(Switch));
            var c := Next(b, Act(Commit));
            var d := Next(c, Report(Applied, goal));
            && a.history == b.history == c.history == d.history == x.history
            && d.agent == Agent(goal, None, goal) && d.session.Some?
            && d.up != [] && d.up[|d.up| - 1] == Result(goal, Applied)
  {
    hide GenuineResult;
    var a := Next(x, Act(Fetch(goal)));
    assert a == x.(agent := x.agent.(pending := Some(goal)));
  }

  /** From any state of any run the exchange can catch up: a new session, in which the agent receives and
      takes what was published last and says so, ends with both sides there. Nothing that happened before,
      a block or a loss, stands in the way for good. */
  lemma {:induction false} CatchesUp(x: Exchange)
    requires Inv(x) && Latest(x).Some?
    ensures exists steps :: Arrives(x, Latest(x).value, steps)
  {
    var goal := Latest(x).value;
    if x.agent.applied.generation < goal.generation {
      CatchesUpFromBehind(x, goal);
    } else {
      AppliedIsLatest(x);
      UpToDate(x, goal);
    }
  }

  lemma {:induction false} CatchesUpFromBehind(x: Exchange, goal: Snapshot)
    requires Inv(x) && Latest(x) == Some(goal) && x.agent.applied.generation < goal.generation
    ensures exists steps :: Arrives(x, goal, steps)
  {
    SentAndReceived(x, goal);
    hide Inv, Next;
    var send := SendLatest(true, true, 0);
    var a := Next(x, Connect);
    var b := Next(a, send);
    NextKeepsInv(x, Connect);
    NextKeepsInv(a, send);
    NextKeepsInv(b, Receive);
    AgentTakes(Next(b, Receive), goal);
    ArrivesLater(b, Receive, goal);
    ArrivesLater(a, send, goal);
    ArrivesLater(x, Connect, goal);
  }

  lemma SentAndReceived(x: Exchange, goal: Snapshot)
    requires Inv(x) && Latest(x) == Some(goal) && x.agent.applied.generation < goal.generation
    ensures var a := Next(x, Connect);
            var b := Next(a, SendLatest(true, true, 0));
            var c := Next(b, Receive);
            && a.history == b.history == c.history == x.history
            && c.session.Some? && c.received == goal && c.agent == x.agent
  {
    hide GenuineResult;
    var a := Next(x, Connect);
    SendsExactly(a.session.value, Latest(a), true, true, 0, goal);
  }

  lemma AppliedIsLatest(x: Exchange)
    requires Inv(x) && Latest(x).Some? && x.agent.applied.generation >= Latest(x).value.generation
    ensures x.agent.applied == Latest(x).value && x.agent.applied.generation > 0
    ensures x.agent.pending.Some? ==> x.agent.pending.value == Latest(x).value
  {
    hide GenuineResult;
  }

  /** The agent is there already; if it was about to apply the same once more, it finishes that first. */
  lemma {:induction false} UpToDate(x: Exchange, goal: Snapshot)
    requires Inv(x) && x.agent.applied == goal && goal.generation > 0
    requires x.agent.pending.Some? ==> x.agent.pending.value == goal
    ensures exists steps :: Arrives(x, goal, steps)
  {
    Recommitted(x, goal);
    hide Inv, Next;
    var a := Next(x, Connect);
    var b := Next(a, Act(Switch));
    var c := Next(b, Act(Commit));
    NextKeepsInv(x, Connect);
    NextKeepsInv(a, Act(Switch));
    NextKeepsInv(b, Act(Commit));
    ResultsArrive(c, goal);
    ArrivesLater(b, Act(Commit), goal);
    ArrivesLater(a, Act(Switch), goal);
    ArrivesLater(x, Connect, goal);
  }

  lemma Recommitted(x: Exchange, goal: Snapshot)
    requires x.agent.applied == goal && goal.generation > 0
    requires x.agent.pending.Some? ==> x.agent.pending.value == goal
    ensures var a := Next(x, Connect);
            var b := Next(a, Act(Switch));
            var c := Next(b, Act(Commit));
            && a.history == b.history == c.history == x.history
            && c.session.Some? && c.up == [Result(goal, Applied)] && c.agent.applied == goal && c.agent.pending.None?
  {
  }

  // ---------------------------------------------------------------- the reconciler as an agent

  function Acts(moves: seq<AgentMove>): seq<Step>
    decreases |moves|
  {
    if moves == [] then [] else [Act(moves[0])] + Acts(moves[1..])
  }

  /** What an operation converges to stays within reach while it runs. */
  lemma StaysPossible(x: Exchange, m: AgentMove, s: Snapshot)
    requires (s == x.received || s == Top(x.agent)) && Converging(m, s)
    ensures Possible(x, m) && (s == x.received || s == Top(Moved(x.agent, m)))
  {
  }

  lemma {:induction false} ExchangePlays(x: Exchange, moves: seq<AgentMove>, s: Snapshot)
    requires s == x.received || s == Top(x.agent)
    requires forall i :: 0 <= i < |moves| ==> Converging(moves[i], s)
    ensures Run(x, Acts(moves)) == x.(agent := Played(x.agent, moves))
    decreases |moves|
  {
    hide Moved, Converging;
    if moves != [] {
      StaysPossible(x, moves[0], s);
      assert Acts(moves)[1..] == Acts(moves[1..]);
      ExchangePlays(x.(agent := Moved(x.agent, moves[0])), moves[1..], s);
    }
  }

  /** Whatever an operation of the reconciler adds to its moves is a run of the exchange, if it
      converges to what it received or to the top of its record. */
  lemma {:induction false} OperationIsExchange(x: Exchange, before: seq<AgentMove>, after: seq<AgentMove>, s: Snapshot)
    requires x.agent == Played(Blank(), before) && Adds(before, after, s)
    requires s == x.received || s == Top(x.agent)
    ensures Run(x, Acts(after[|before|..])) == x.(agent := Played(Blank(), after))
  {
    hide Run, Played, Converging;
    var more := after[|before|..];
    assert before + more == after;
    PlayedMore(Blank(), before, more);
    assert forall i :: 0 <= i < |more| ==> more[i] == after[|before| + i];
    ExchangePlays(x, more, s);
  }
}
