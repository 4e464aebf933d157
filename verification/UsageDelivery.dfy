/** Usage is counted exactly once, over sessions that break anywhere: the meter numbers what the agent
    collects, the agent sends its whole outbox in order on every session, the controller acknowledges
    what it recorded. */
module UsageDelivery {
  import opened Meter
  import opened UsageLedger
  import Spec
  import AgentModel

  /** Oldest and newest age, in seconds, at which the controller accepts a batch. */
  const CLOCK_WINDOW: int := 600

  type Program = AgentModel.Program

  /** `published` are the counters of every generation published so far; `meter` and `outbox` are the
      agent's durable record; `wire` and `acks` the two directions of the current stream. `emitted` is
      every batch the agent ever committed to its outbox. */
  datatype Link = Link(
    published: map<nat, set<string>>, meter: State<Program>, outbox: seq<Report>, wire: seq<Report>, acks: seq<Key>, ledger: Ledger, emitted: seq<Report>)

  function Initially(): Link {
    Link(map[], Initial(), [], [], [], EmptyLedger(), [])
  }

  /** `reading.traffic` is what really passed since the last collection; nobody sees it. A batch that
      arrives while the store is down ends the session. */
  datatype Step =
    | Publish(generation: nat, counters: set<string>)
    | Collect(applied: AgentModel.Desired, reading: Reading<Program>, now: int)
    | Disconnect
    | SendOutbox
    | Receive(now: int, up: bool)
    | AckArrives

  predicate InWindow(b: Report, now: int) {
    -CLOCK_WINDOW <= now - b.observedAt <= CLOCK_WINDOW
  }

  function Broken(l: Link): Link {
    l.(wire := [], acks := [])
  }

  /** A collection needs room in the outbox and some counter to read; what is applied was published,
      and only its counters are read. */
  predicate Collects(l: Link, s: Step) {
    && s.Collect? && |l.outbox| < AgentModel.MAX_USAGE_OUTBOX && s.reading.values != map[]
    && s.applied.generation in l.published && s.reading.values.Keys <= l.published[s.applied.generation]
  }

  function BatchFor(l: Link, s: Step): Report
    requires s.Collect?
  {
    AgentModel.NewBatch(l.meter, s.applied, s.reading.epoch, s.reading.values, s.now)
  }

  function Metered(l: Link, reading: Reading<Program>): Link {
    l.(meter := After(l.meter, reading.epoch, reading.values))
  }

  function Committed(l: Link, b: Report): Link {
    l.(outbox := l.outbox + [b], emitted := l.emitted + [b])
  }

  function Next(l: Link, s: Step): Link {
    match s
    case Publish(g, counters) => if g in l.published then l else l.(published := l.published[g := counters])
    case Collect(applied, reading, now) =>
      if !Collects(l, s) then l
      else if BatchFor(l, s).sequence == 0 then Metered(l, reading)
      else Committed(Metered(l, reading), BatchFor(l, s))
    case Disconnect => Broken(l)
    case SendOutbox => l.(wire := l.wire + l.outbox)
    case Receive(now, up) =>
      if l.wire == [] then l
      else if !InWindow(l.wire[0], now) || !up || !Accepts(l.ledger, l.wire[0], l.published) then Broken(l)
      else l.(wire := l.wire[1..], ledger := Recorded(l.ledger, l.wire[0]), acks := l.acks + [KeyOf(l.wire[0])])
    case AckArrives =>
      if l.acks == [] then l
      else l.(acks := l.acks[1..], outbox := Acknowledged(l.outbox, l.acks[0]))
  }

  function Run(l: Link, steps: seq<Step>): Link
    decreases |steps|
  {
    if steps == [] then l else Run(Next(l, steps[0]), steps[1..])
  }

  /** A collection of the agent is a step of this model: it reads counters of what is applied, under the
      epoch of the applied program, and leaves the same meter state and the same outbox. */
  lemma CollectsLikeTheAgent(l: Link, c: AgentModel.Compiler, r: AgentModel.Record, table: AgentModel.Table,
                             traffic: map<string, Value>, now: nat)
    requires r.applied.Some? && r.meter == l.meter && r.outbox == l.outbox
    requires AgentModel.Collectable(c, r, table) && c.counters(r.applied.value.desired) != {}
    requires var d := r.applied.value.desired;
             d.generation in l.published && l.published[d.generation] == c.counters(d)
    ensures var d := r.applied.value.desired;
            var epoch, samples := AgentModel.EpochOf(c, r.applied.value, now), AgentModel.SamplesOf(c, d, table);
            var s, after := Collect(d, Reading(epoch, samples, traffic), now), AgentModel.Observed(r, d, epoch, samples, now);
            && Collects(l, s)
            && Next(l, s).meter == after.meter && Next(l, s).outbox == after.outbox
  {
    var d := r.applied.value.desired;
    var samples := AgentModel.SamplesOf(c, d, table);
    assert samples.Keys == table.counters.Keys * c.counters(d);
    assert samples.Keys != {};
  }

  // ---------------------------------------------------------------- what every run keeps

  /** A batch more than ten minutes old, or ahead of the clock by more, is not recorded: it ends the session,
      and the agent keeps it. One in between is recorded and acknowledged, if the store is up and knows it. */
  lemma TenMinutes(l: Link, now: int, up: bool)
    requires l.wire != []
    ensures var b, t := l.wire[0], Next(l, Receive(now, up));
            && t.outbox == l.outbox && t.meter == l.meter && t.emitted == l.emitted
            && (now < b.observedAt - 600 || b.observedAt + 600 < now || !up ==>
                  t.ledger == l.ledger && t.wire == [] && t.acks == [])
            && (b.observedAt - 600 <= now <= b.observedAt + 600 && up && Bound(b, l.published) ==>
                  t.wire == l.wire[1..] && t.acks == l.acks + [Key(b.epoch, b.sequence)] && t.acks[|l.acks|] in t.ledger.recorded)
  {
  }

  predicate Ordered(emitted: seq<Report>) {
    forall i, j :: 0 <= i < j < |emitted| ==> emitted[i].sequence < emitted[j].sequence
  }

  predicate Done(l: Link, b: Report) {
    KeyOf(b) in l.ledger.recorded
  }

  /** Everything emitted before `sequence` is recorded or travels in `ahead`. */
  predicate Covered(l: Link, sequence: nat, ahead: seq<Report>) {
    forall b :: b in l.emitted && b.sequence < sequence ==> Done(l, b) || b in ahead
  }

  /** The outbox is what is left of the emitted batches once a recorded prefix was dropped. */
  predicate OutboxOk(l: Link) {
    && Ordered(l.emitted)
    && |l.outbox| <= |l.emitted| && Suffix(l.outbox, l.emitted)
    && forall i :: 0 <= i < |l.emitted| - |l.outbox| ==> Done(l, l.emitted[i])
  }

  predicate WireOk(l: Link) {
    forall i :: 0 <= i < |l.wire| ==> l.wire[i] in l.emitted && Covered(l, l.wire[i].sequence, l.wire[..i])
  }

  predicate AcksOk(l: Link) {
    forall k :: k in l.acks ==> k in l.ledger.recorded && Covered(l, k.sequence, [])
  }

  ghost predicate LedgerOk(l: Link) {
    && (forall k :: k in l.ledger.recorded ==> exists b :: b in l.emitted && KeyOf(b) == k)
    && forall n :: Amount(l.ledger.rollups, n) == SumDone(l.emitted, l.ledger.recorded, n)
  }

  /** The meter numbered every batch. */
  predicate Numbered(l: Link) {
    forall i :: 0 <= i < |l.emitted| ==> l.emitted[i].sequence <= l.meter.sequence
  }

  /** The store knows the generation and the counters of every batch. */
  predicate AllBound(l: Link) {
    forall b :: b in l.emitted ==> Bound(b, l.published)
  }

  ghost predicate Inv(l: Link) {
    OutboxOk(l) && WireOk(l) && AcksOk(l) && LedgerOk(l) && Numbered(l) && AllBound(l)
  }

  function Of(b: Report, n: string): Value {
    Amount(Amounts(b.deltas), n)
  }

  /** The part of the batches already credited, for one counter. */
  function SumDone(batches: seq<Report>, recorded: set<Key>, n: string): Value
    decreases |batches|
  {
    if batches == [] then Zero()
    else Plus(if KeyOf(batches[0]) in recorded then Of(batches[0], n) else Zero(), SumDone(batches[1..], recorded, n))
  }

  function SumMissing(batches: seq<Report>, recorded: set<Key>, n: string): Value
    decreases |batches|
  {
    if batches == [] then Zero()
    else Plus(if KeyOf(batches[0]) in recorded then Zero() else Of(batches[0], n), SumMissing(batches[1..], recorded, n))
  }

  function SumAll(batches: seq<Report>, n: string): Value
    decreases |batches|
  {
    if batches == [] then Zero() else Plus(Of(batches[0], n), SumAll(batches[1..], n))
  }

  lemma {:induction false} CollectKeepsSums(batches: seq<Report>, b: Report, recorded: set<Key>, n: string)
    requires KeyOf(b) !in recorded
    ensures SumDone(batches + [b], recorded, n) == SumDone(batches, recorded, n)
    decreases |batches|
  {
    if batches == [] {
      assert [b][1..] == [];
    } else {
      assert (batches + [b])[1..] == batches[1..] + [b];
      CollectKeepsSums(batches[1..], b, recorded, n);
    }
  }

  lemma PlusLaws(a: Value, b: Value, c: Value)
    ensures Plus(a, Plus(b, c)) == Plus(Plus(a, b), c) && Plus(a, b) == Plus(b, a)
    ensures Plus(Zero(), a) == a
  {
  }

  lemma {:induction false} OtherKeysKeepSum(batches: seq<Report>, recorded: set<Key>, k: Key, n: string)
    requires forall i :: 0 <= i < |batches| ==> KeyOf(batches[i]) != k
    ensures SumDone(batches, recorded + {k}, n) == SumDone(batches, recorded, n)
    decreases |batches|
  {
    hide Plus, Of;
    if batches != [] {
      OtherKeysKeepSum(batches[1..], recorded, k, n);
      assert KeyOf(batches[0]) != k;
    }
  }

  /** Recording one more of the batches credits it once. */
  lemma {:induction false} RecordAddsOnce(batches: seq<Report>, recorded: set<Key>, b: Report, n: string)
    requires Ordered(batches) && KeyOf(b) !in recorded && b in batches
    ensures SumDone(batches, recorded + {KeyOf(b)}, n) == Plus(SumDone(batches, recorded, n), Of(b, n))
    decreases |batches|
  {
    hide Plus, Of;
    var head, rest := batches[0], batches[1..];
    assert forall i :: 0 <= i < |rest| ==> rest[i] == batches[i + 1];
    assert Ordered(rest);
    var x := if KeyOf(head) in recorded then Of(head, n) else Zero();
    if head == b {
      OtherKeysKeepSum(rest, recorded, KeyOf(b), n);
      PlusLaws(Of(b, n), SumDone(rest, recorded, n), Zero());
      PlusLaws(SumDone(rest, recorded, n), Zero(), Zero());
    } else {
      assert b in rest;
      LaterKeyDiffers(batches, b);
      RecordAddsOnce(rest, recorded, b, n);
      PlusLaws(x, SumDone(rest, recorded, n), Of(b, n));
    }
  }

  lemma LaterKeyDiffers(batches: seq<Report>, b: Report)
    requires Ordered(batches) && batches != [] && b in batches[1..]
    ensures KeyOf(batches[0]) != KeyOf(b)
  {
    var i :| 0 <= i < |batches| - 1 && batches[1..][i] == b;
    assert batches[i + 1] == b;
  }

  // ---------------------------------------------------------------- one step at a time

  /** A batch above everything emitted before may be committed. */
  lemma CommitKeepsInv(l: Link, b: Report)
    requires Inv(l) && (forall i :: 0 <= i < |l.emitted| ==> l.emitted[i].sequence < b.sequence) && b.sequence <= l.meter.sequence
    requires Bound(b, l.published)
    ensures Inv(Committed(l, b))
  {
    hide SumDone;
    var m := Committed(l, b);
    assert m.emitted[|m.emitted| - |m.outbox|..] == m.outbox;
    forall k | k in l.ledger.recorded
      ensures k != KeyOf(b)
      ensures exists c :: c in m.emitted && KeyOf(c) == k
    {
      var c :| c in l.emitted && KeyOf(c) == k;
      assert c in m.emitted;
    }
    forall n
      ensures Amount(m.ledger.rollups, n) == SumDone(m.emitted, m.ledger.recorded, n)
    {
      CollectKeepsSums(l.emitted, b, l.ledger.recorded, n);
    }
    forall i | 0 <= i < |m.wire|
      ensures m.wire[i] in m.emitted && Covered(m, m.wire[i].sequence, m.wire[..i])
    {
      assert Covered(l, l.wire[i].sequence, l.wire[..i]);
      assert l.wire[i].sequence < b.sequence;
    }
    forall k | k in m.acks
      ensures Covered(m, k.sequence, [])
    {
      var c :| c in l.emitted && KeyOf(c) == k;
      assert k.sequence < b.sequence;
      assert Covered(l, k.sequence, []);
    }
  }

  lemma MeterKeepsInv(l: Link, reading: Reading<Program>)
    requires Inv(l)
    ensures Inv(Metered(l, reading))
  {
    hide SumDone, Moved, DeltasOf, Amount, Suffix, Ordered;
    var m := Metered(l, reading);
    assert m.emitted == l.emitted && m.ledger == l.ledger;
    SameLedgerCovers(l, m);
  }

  /** The meter's next number is above all it gave before, so a new batch never meets an old key. */
  lemma CollectKeepsInv(l: Link, s: Step)
    requires Inv(l) && Collects(l, s)
    ensures Inv(Next(l, s))
  {
    hide Inv, Moved, DeltasOf;
    var m, b := Metered(l, s.reading), BatchFor(l, s);
    MeterKeepsInv(l, s.reading);
    if b.sequence != 0 {
      assert b.sequence == m.meter.sequence == l.meter.sequence + 1;
      NumberedBelow(l);
      BatchIsBound(l, s);
      CommitKeepsInv(m, b);
    }
  }

  lemma BatchIsBound(l: Link, s: Step)
    requires Collects(l, s)
    ensures Bound(BatchFor(l, s), l.published)
  {
    hide Moved, DeltaOf;
    assert BatchFor(l, s).deltas.Keys == s.reading.values.Keys;
  }

  lemma NumberedBelow(l: Link)
    requires Inv(l)
    ensures forall i :: 0 <= i < |l.emitted| ==> l.emitted[i].sequence < l.meter.sequence + 1
  {
    hide SumDone;
  }

  lemma SendKeepsInv(l: Link)
    requires Inv(l)
    ensures Inv(Next(l, SendOutbox))
  {
    hide SumDone;
    var m, d := Next(l, SendOutbox), |l.emitted| - |l.outbox|;
    forall i | 0 <= i < |m.wire|
      ensures m.wire[i] in m.emitted && Covered(m, m.wire[i].sequence, m.wire[..i])
    {
      if i < |l.wire| {
        assert m.wire[..i] == l.wire[..i];
        assert Covered(l, l.wire[i].sequence, l.wire[..i]);
      } else {
        var j := i - |l.wire|;
        assert m.wire[i] == l.emitted[d + j];
        SentInOrder(l, j, m.wire[..i]);
      }
    }
  }

  /** Batches sent before the j-th of the outbox include everything older that is not recorded. */
  lemma SentInOrder(l: Link, j: nat, ahead: seq<Report>)
    requires Inv(l) && j < |l.outbox| && ahead == l.wire + l.outbox[..j]
    ensures Covered(l, l.outbox[j].sequence, ahead)
  {
    hide SumDone;
    var d := |l.emitted| - |l.outbox|;
    forall b | b in l.emitted && b.sequence < l.outbox[j].sequence
      ensures Done(l, b) || b in ahead
    {
      var i :| 0 <= i < |l.emitted| && l.emitted[i] == b;
      assert l.outbox[j] == l.emitted[d + j];
      if i >= d {
        assert i < d + j;
        assert l.outbox[..j][i - d] == b;
      }
    }
  }

  lemma ReceiveKeepsInv(l: Link, now: int)
    requires Inv(l) && l.wire != [] && InWindow(l.wire[0], now)
    ensures Accepts(l.ledger, l.wire[0], l.published)
    ensures Inv(Next(l, Receive(now, true)))
  {
    hide SumDone, Recorded, Covered, Ordered;
    assert l.wire[0] in l.emitted;
    var m, b := Next(l, Receive(now, true)), l.wire[0];
    RecordedKeys(l.ledger, b);
    assert Covered(l, b.sequence, []) by { assert l.wire[..0] == []; }
    ReceivedCovers(l, m, b);
    forall i | 0 <= i < |m.wire|
      ensures m.wire[i] in m.emitted && Covered(m, m.wire[i].sequence, m.wire[..i])
    {
      assert l.wire[i + 1] == m.wire[i] && l.wire[..i + 1] == [b] + m.wire[..i];
      assert Covered(l, l.wire[i + 1].sequence, l.wire[..i + 1]);
    }
    forall n
      ensures Amount(m.ledger.rollups, n) == SumDone(m.emitted, m.ledger.recorded, n)
    {
      RecordedAmount(l, b, n);
    }
  }

  lemma RecordedKeys(l: Ledger, b: Report)
    ensures Recorded(l, b).recorded == l.recorded + {KeyOf(b)}
  {
  }

  /** Recording the batch at the head keeps everything covered, and covers what follows it. */
  lemma ReceivedCovers(l: Link, m: Link, b: Report)
    requires m.emitted == l.emitted && m.ledger.recorded == l.ledger.recorded + {KeyOf(b)}
    ensures forall sequence: nat, ahead :: Covered(l, sequence, ahead) ==> Covered(m, sequence, ahead)
    ensures forall sequence: nat, ahead :: Covered(l, sequence, [b] + ahead) ==> Covered(m, sequence, ahead)
  {
    forall sequence: nat, ahead | Covered(l, sequence, [b] + ahead)
      ensures Covered(m, sequence, ahead)
    {
      assert forall c :: c in [b] + ahead ==> c == b || c in ahead;
    }
  }

  lemma {:induction false} RecordedAmount(l: Link, b: Report, n: string)
    requires Ordered(l.emitted) && b in l.emitted
    requires Amount(l.ledger.rollups, n) == SumDone(l.emitted, l.ledger.recorded, n)
    ensures var t := Recorded(l.ledger, b); Amount(t.rollups, n) == SumDone(l.emitted, t.recorded, n)
  {
    hide SumDone, Ordered, Credit, Plus, Amount;
    if !Done(l, b) {
      RecordAddsOnce(l.emitted, l.ledger.recorded, b, n);
      CreditAmount(l.ledger.rollups, Amounts(b.deltas), n);
    }
  }

  lemma AckKeepsInv(l: Link)
    requires Inv(l) && l.acks != []
    ensures Inv(Next(l, AckArrives))
  {
    hide OutboxOk, WireOk, AcksOk, LedgerOk, Acknowledged;
    AckKeepsOutbox(l);
    SameWire(l, Next(l, AckArrives));
  }

  lemma AckKeepsOutbox(l: Link)
    requires OutboxOk(l) && AcksOk(l) && l.acks != []
    ensures OutboxOk(Next(l, AckArrives))
  {
    hide Covered, Done, OutboxOk, Next, Suffix;
    var k := l.acks[0];
    assert k in l.acks;
    RestIsSuffix(l, k);
    AllDroppedAreDone(l, k);
    AfterAck(l);
    ShorterOutbox(l, Next(l, AckArrives), Acknowledged(l.outbox, k));
  }

  lemma AfterAck(l: Link)
    requires l.acks != []
    ensures var m := Next(l, AckArrives);
            m.emitted == l.emitted && m.ledger == l.ledger && m.outbox == Acknowledged(l.outbox, l.acks[0])
  {
    hide Acknowledged, Done;
  }

  lemma {:induction false} RestIsSuffix(l: Link, k: Key)
    requires OutboxOk(l)
    ensures var rest := Acknowledged(l.outbox, k);
            |rest| <= |l.emitted| && Suffix(rest, l.emitted)
  {
    hide Acknowledged, Ordered, Done, Suffix;
    SuffixOfSuffix(l.emitted, l.outbox, Acknowledged(l.outbox, k));
  }

  lemma {:induction false} AllDroppedAreDone(l: Link, k: Key)
    requires OutboxOk(l) && k in l.ledger.recorded && Covered(l, k.sequence, [])
    ensures forall i :: 0 <= i < |l.emitted| - |Acknowledged(l.outbox, k)| ==> Done(l, l.emitted[i])
  {
    hide Acknowledged, Covered, OutboxOk, Done;
    forall i | 0 <= i < |l.emitted| - |Acknowledged(l.outbox, k)|
      ensures Done(l, l.emitted[i])
    {
      DroppedAreDone(l, k, i);
    }
  }

  lemma ShorterOutbox(l: Link, m: Link, rest: seq<Report>)
    requires OutboxOk(l) && m.emitted == l.emitted && m.ledger == l.ledger && m.outbox == rest
    requires |rest| <= |l.emitted| && Suffix(rest, l.emitted)
    requires forall i :: 0 <= i < |l.emitted| - |rest| ==> Done(l, l.emitted[i])
    ensures OutboxOk(m)
  {
    hide Ordered, Suffix;
  }

  lemma SuffixOfSuffix(a: seq<Report>, b: seq<Report>, c: seq<Report>)
    requires Suffix(b, a) && Suffix(c, b)
    ensures Suffix(c, a)
  {
  }

  /** Taking an acknowledgement off the stream changes nothing about what travels on it. */
  lemma SameWire(l: Link, m: Link)
    requires WireOk(l) && AcksOk(l) && LedgerOk(l) && l.acks != [] && m.wire == l.wire && m.acks == l.acks[1..]
    requires m.emitted == l.emitted && m.ledger == l.ledger
    ensures WireOk(m) && AcksOk(m) && LedgerOk(m)
  {
    hide SumDone, Covered, Ordered;
    SameLedgerCovers(l, m);
    forall q | q in m.acks
      ensures q in l.acks
    {
    }
  }

  lemma SameLedgerCovers(l: Link, m: Link)
    requires m.emitted == l.emitted && m.ledger == l.ledger
    ensures forall sequence: nat, ahead :: Covered(l, sequence, ahead) ==> Covered(m, sequence, ahead)
  {
  }

  /** What a cumulative acknowledgement drops was recorded before, or just now. */
  lemma {:induction false} DroppedAreDone(l: Link, k: Key, i: nat)
    requires OutboxOk(l) && k in l.ledger.recorded && Covered(l, k.sequence, [])
    requires i < |l.emitted| - |Acknowledged(l.outbox, k)|
    ensures Done(l, l.emitted[i])
  {
    hide SumDone, Acknowledged;
    var d, e := |l.emitted| - |l.outbox|, |l.emitted| - |Acknowledged(l.outbox, k)|;
    if i >= d {
      assert KeyOf(l.outbox[|l.outbox| - |Acknowledged(l.outbox, k)| - 1]) == k;
      assert l.emitted[e - 1] == l.outbox[e - 1 - d];
      assert i < e - 1 ==> l.emitted[i].sequence < l.emitted[e - 1].sequence;
      assert l.emitted[i] in l.emitted;
    }
  }

  lemma NextKeepsInv(l: Link, s: Step)
    requires Inv(l)
    ensures Inv(Next(l, s))
  {
    hide Inv;
    match s
    case Collect(_, _, _) => if Collects(l, s) { CollectKeepsInv(l, s); }
    case SendOutbox => SendKeepsInv(l);
    case AckArrives => if l.acks != [] { AckKeepsInv(l); }
    case Disconnect => BrokenKeepsInv(l);
    case Receive(now, up) =>
      BrokenKeepsInv(l);
      if l.wire != [] && InWindow(l.wire[0], now) && up { ReceiveKeepsInv(l, now); }
    case Publish(g, counters) => PublishKeepsInv(l, g, counters);
  }

  lemma PublishKeepsInv(l: Link, g: nat, counters: set<string>)
    requires Inv(l)
    ensures Inv(Next(l, Publish(g, counters)))
  {
    hide SumDone, Ordered, Suffix;
    SameLedgerCovers(l, Next(l, Publish(g, counters)));
  }

  lemma BrokenKeepsInv(l: Link)
    requires Inv(l)
    ensures Inv(Broken(l))
  {
    hide SumDone;
  }

  /** The store never refuses a batch of this agent: in every run, whatever is on the wire in time is
      recorded if the store is up. */
  lemma {:induction false} NeverRefused(steps: seq<Step>, now: int)
    ensures var l := Run(Initially(), steps);
            && (forall b :: b in l.emitted ==> Accepts(l.ledger, b, l.published))
            && (l.wire != [] && InWindow(l.wire[0], now) ==> Done(Next(l, Receive(now, true)), l.wire[0]))
  {
    hide Run, SumDone, Credit;
    BeginInv();
    RunKeepsInv(Initially(), steps);
    var l := Run(Initially(), steps);
    if l.wire != [] {
      assert l.wire[0] in l.emitted;
    }
  }

  lemma BeginInv()
    ensures Inv(Initially())
  {
    assert forall m :: SumDone([], {}, m) == Zero() by { NothingDone(); }
  }

  lemma {:induction false} RunKeepsInv(l: Link, steps: seq<Step>)
    requires Inv(l)
    ensures Inv(Run(l, steps))
    decreases |steps|
  {
    hide Inv;
    if steps != [] {
      NextKeepsInv(l, steps[0]);
      RunKeepsInv(Next(l, steps[0]), steps[1..]);
    }
  }

  // ---------------------------------------------------------------- exactly once

  lemma {:induction false} Split(batches: seq<Report>, recorded: set<Key>, n: string)
    ensures Plus(SumDone(batches, recorded, n), SumMissing(batches, recorded, n)) == SumAll(batches, n)
    decreases |batches|
  {
    hide Plus, Of;
    PlusLaws(Zero(), Zero(), Zero());
    if batches != [] {
      Split(batches[1..], recorded, n);
      var x := Of(batches[0], n);
      var p, q := SumDone(batches[1..], recorded, n), SumMissing(batches[1..], recorded, n);
      PlusLaws(x, p, q);
      PlusLaws(p, x, q);
      PlusLaws(p, q, q);
      PlusLaws(Plus(p, q), x, x);
      PlusLaws(q, p, p);
    }
  }

  lemma {:induction false} OldOnesAreDone(batches: seq<Report>, d: nat, recorded: set<Key>, n: string)
    requires d <= |batches| && forall i :: 0 <= i < d ==> KeyOf(batches[i]) in recorded
    ensures SumMissing(batches, recorded, n) == SumMissing(batches[d..], recorded, n)
    decreases d
  {
    hide Plus, Of;
    if d == 0 {
      assert batches[0..] == batches;
    } else {
      OldOnesAreDone(batches[1..], d - 1, recorded, n);
      PlusLaws(SumMissing(batches[1..], recorded, n), Zero(), Zero());
      assert batches[1..][d - 1..] == batches[d..];
    }
  }

  /** After any run, for every counter: what the controller has credited, plus what the outbox still
      holds uncredited, is what was ever emitted; and nothing uncredited was dropped. */
  lemma {:induction false} CountedExactlyOnce(steps: seq<Step>, n: string)
    ensures var l := Run(Initially(), steps);
            && Plus(Amount(l.ledger.rollups, n), SumMissing(l.outbox, l.ledger.recorded, n)) == SumAll(l.emitted, n)
            && forall b :: b in l.emitted && b !in l.outbox ==> KeyOf(b) in l.ledger.recorded
  {
    hide SumDone, SumMissing, SumAll, Run;
    BeginInv();
    RunKeepsInv(Initially(), steps);
    var l := Run(Initially(), steps);
    var d := |l.emitted| - |l.outbox|;
    Split(l.emitted, l.ledger.recorded, n);
    OldOnesAreDone(l.emitted, d, l.ledger.recorded, n);
    forall i | d <= i < |l.emitted|
      ensures l.emitted[i] in l.outbox
    {
      assert l.outbox[i - d] == l.emitted[i];
    }
    forall b | b in l.emitted && b !in l.outbox
      ensures KeyOf(b) in l.ledger.recorded
    {
      var i :| 0 <= i < |l.emitted| && l.emitted[i] == b;
      assert i < d;
    }
  }

  lemma NothingDone()
    ensures forall n :: SumDone([], {}, n) == Zero()
  {
  }

  /** The readings a run really takes. */
  function Taken(l: Link, steps: seq<Step>): seq<Reading<Program>>
    decreases |steps|
  {
    if steps == [] then []
    else (if Collects(l, steps[0]) then [steps[0].reading] else []) + Taken(Next(l, steps[0]), steps[1..])
  }

  /** What is emitted over a run is what the meter reports for its readings. */
  lemma {:induction false} EmittedIsReported(l: Link, steps: seq<Step>, n: string)
    ensures SumAll(Run(l, steps).emitted, n) == Plus(SumAll(l.emitted, n), Reported(l.meter, Taken(l, steps), n))
    decreases |steps|
  {
    hide Next, Plus, SumAll, Reported;
    if steps == [] {
      NothingReported(l.meter, n);
      PlusZero(SumAll(l.emitted, n));
    } else {
      var s := steps[0];
      var m, rest := Next(l, s), Taken(Next(l, s), steps[1..]);
      EmittedIsReported(m, steps[1..], n);
      StepEmits(l, s, n);
      if Collects(l, s) {
        assert ([s.reading] + rest)[1..] == rest;
        OneStep(l.meter, [s.reading] + rest, n);
        PlusLaws(SumAll(l.emitted, n), Increment(l.meter, s.reading, n), Reported(m.meter, rest, n));
      } else {
        assert [] + rest == rest;
      }
    }
  }

  lemma {:induction false} StepEmits(l: Link, s: Step, n: string)
    ensures var m := Next(l, s);
            && (Collects(l, s) ==> SumAll(m.emitted, n) == Plus(SumAll(l.emitted, n), Increment(l.meter, s.reading, n))
                                   && m.meter == After(l.meter, s.reading.epoch, s.reading.values))
            && (!Collects(l, s) ==> m.emitted == l.emitted && m.meter == l.meter)
  {
    hide SumAll, Plus, Recorded, Acknowledged, After;
    if Collects(l, s) {
      BatchAmount(l, s, n);
      if BatchFor(l, s).sequence == 0 {
        PlusZero(SumAll(l.emitted, n));
      } else {
        SumAppend(l.emitted, BatchFor(l, s), n);
      }
    }
  }

  lemma BatchAmount(l: Link, s: Step, n: string)
    requires s.Collect?
    ensures Of(BatchFor(l, s), n) == Increment(l.meter, s.reading, n)
    ensures BatchFor(l, s).sequence == 0 ==> Increment(l.meter, s.reading, n) == Zero()
  {
    hide DeltaOf;
    var b := BatchFor(l, s);
    assert b.deltas == DeltasOf(l.meter, s.reading.epoch, s.reading.values);
    assert n in b.deltas <==> n in s.reading.values;
    assert n in Amounts(b.deltas) <==> n in b.deltas;
  }

  lemma {:induction false} SumAppend(batches: seq<Report>, b: Report, n: string)
    ensures SumAll(batches + [b], n) == Plus(SumAll(batches, n), Of(b, n))
    decreases |batches|
  {
    hide Plus, Of;
    if batches == [] {
      assert [b][1..] == [];
      assert [] + [b] == [b];
      PlusLaws(Of(b, n), Zero(), Zero());
    } else {
      assert (batches + [b])[1..] == batches[1..] + [b];
      SumAppend(batches[1..], b, n);
      PlusLaws(Of(batches[0], n), SumAll(batches[1..], n), Of(b, n));
    }
  }

  /** From the kernel counter to the rollup: in every run the controller never credits more than what
      passed, and nothing is missing but what the outbox still holds if nothing was lost on the way
      into the meter. */
  lemma {:induction false} NeverOvercharged(steps: seq<Step>, n: string)
    requires AllPlausible(Initial(), Taken(Initially(), steps))
    ensures var l, readings := Run(Initially(), steps), Taken(Initially(), steps);
            && Below(Plus(Amount(l.ledger.rollups, n), SumMissing(l.outbox, l.ledger.recorded, n)), Passed(readings, n))
            && (AllSeamless(Initial(), readings) ==>
                  Plus(Amount(l.ledger.rollups, n), SumMissing(l.outbox, l.ledger.recorded, n)) == Passed(readings, n))
  {
    hide Run, Taken, SumMissing, Reported, Passed, AllPlausible, AllSeamless, Amount;
    CountedExactlyOnce(steps, n);
    EmittedIsReported(Initially(), steps, n);
    MeteringBound(Initial(), Taken(Initially(), steps), n);
    PlusZero(Reported(Initial(), Taken(Initially(), steps), n));
  }

  // ---------------------------------------------------------------- the clock window

  /** What is left of an outbox once its head is in the window no more. */
  function Untimely(outbox: seq<Report>, now: int): (rest: seq<Report>)
    ensures rest == [] <==> forall b :: b in outbox ==> InWindow(b, now)
    ensures rest != [] ==> !InWindow(rest[0], now)
  {
    if outbox == [] || !InWindow(outbox[0], now) then outbox
    else
      assert outbox == [outbox[0]] + outbox[1..];
      Untimely(outbox[1..], now)
  }

  function Rounds(n: nat, now: int): seq<Step> {
    if n == 0 then [] else [Receive(now, true), AckArrives] + Rounds(n - 1, now)
  }

  /** A session nothing interrupts: the outbox is sent, and every batch received and acknowledged. */
  function Undisturbed(n: nat, now: int): seq<Step> {
    [SendOutbox] + Rounds(n, now)
  }

  lemma {:induction false} RunRound(l: Link, n: nat, now: int)
    requires n > 0
    ensures Run(l, Rounds(n, now)) == Run(Next(Next(l, Receive(now, true)), AckArrives), Rounds(n - 1, now))
  {
    hide Next;
    var all := Rounds(n, now);
    assert all[1..] == [AckArrives] + Rounds(n - 1, now) && all[1..][1..] == Rounds(n - 1, now);
  }

  /** One batch: recorded and dropped, or the end of the session. */
  lemma OneRound(l: Link, now: int)
    requires l.wire == l.outbox && l.acks == [] && l.outbox != [] && Bound(l.outbox[0], l.published)
    ensures var m := Next(Next(l, Receive(now, true)), AckArrives);
            && m.emitted == l.emitted && m.acks == [] && m.published == l.published
            && (InWindow(l.outbox[0], now) ==>
                  m.outbox == m.wire == l.outbox[1..] && m.ledger.recorded == l.ledger.recorded + {KeyOf(l.outbox[0])})
            && (!InWindow(l.outbox[0], now) ==> m == Broken(l))
  {
    hide Credit, Amounts;
  }

  lemma {:induction false} EmptySession(l: Link, n: nat, now: int)
    requires l.wire == [] && l.acks == []
    ensures Run(l, Rounds(n, now)) == l
  {
    if n > 0 {
      RunRound(l, n, now);
      EmptySession(l, n - 1, now);
    }
  }

  lemma {:induction false} RoundsDeliver(l: Link, now: int)
    requires l.wire == l.outbox && l.acks == [] && forall b :: b in l.outbox ==> Bound(b, l.published)
    ensures var m := Run(l, Rounds(|l.outbox|, now));
            && m.emitted == l.emitted && m.outbox == Untimely(l.outbox, now)
            && l.ledger.recorded <= m.ledger.recorded
            && forall b :: b in l.outbox ==> KeyOf(b) in m.ledger.recorded || b in m.outbox
    decreases |l.outbox|
  {
    hide Next, Run, InWindow;
    if l.outbox == [] {
      EmptySession(l, 0, now);
    } else {
      var n := |l.outbox|;
      RunRound(l, n, now);
      OneRound(l, now);
      var m := Next(Next(l, Receive(now, true)), AckArrives);
      if InWindow(l.outbox[0], now) {
        RoundsDeliver(m, now);
        assert forall b :: b in l.outbox ==> b == l.outbox[0] || b in m.outbox;
      } else {
        EmptySession(m, n - 1, now);
      }
    }
  }

  /** An undisturbed session leaves exactly the batches from the first untimely one on; so all usage
      gets through if and only if every batch of the outbox is in the window. */
  lemma {:induction false} SessionDelivers(l: Link, now: int)
    requires Inv(l) && l.wire == [] && l.acks == []
    ensures var m := Run(l, Undisturbed(|l.outbox|, now));
            && m.outbox == Untimely(l.outbox, now)
            && (m.outbox == [] && (forall b :: b in m.emitted ==> Done(m, b)) <==> forall b :: b in l.outbox ==> InWindow(b, now))
  {
    hide Run, InWindow, Inv, Done, Bound;
    HeldAreBound(l);
    var sent, m := Next(l, SendOutbox), Run(l, Undisturbed(|l.outbox|, now));
    assert sent.wire == sent.outbox == l.outbox by { assert [] + l.outbox == l.outbox; }
    FirstStep(l, SendOutbox, Rounds(|l.outbox|, now));
    RoundsDeliver(sent, now);
    forall b | b in m.emitted && m.outbox == []
      ensures Done(m, b)
    {
      DoneOrHeld(l, m, b);
    }
  }

  lemma DoneOrHeld(l: Link, m: Link, b: Report)
    requires Inv(l) && b in l.emitted && l.ledger.recorded <= m.ledger.recorded
    requires forall c :: c in l.outbox ==> KeyOf(c) in m.ledger.recorded
    ensures Done(m, b)
  {
    hide SumDone, Ordered;
    var d := |l.emitted| - |l.outbox|;
    var i :| 0 <= i < |l.emitted| && l.emitted[i] == b;
    if i >= d {
      assert l.outbox[i - d] == b;
    }
  }

  lemma {:induction false} FirstStep(l: Link, s: Step, rest: seq<Step>)
    ensures Run(l, [s] + rest) == Run(Next(l, s), rest)
  {
    assert ([s] + rest)[1..] == rest;
  }

  predicate Within(steps: seq<Step>, times: int -> bool) {
    forall i :: 0 <= i < |steps| && steps[i].Receive? ==> times(steps[i].now)
  }

  function Since(from: int): int -> bool {
    (t: int) => from <= t
  }

  /** The head of the outbox is gone after the run. */
  predicate Drops(l: Link, steps: seq<Step>) {
    !(l.outbox <= Run(l, steps).outbox)
  }

  /** The batch at the head can ever leave the outbox, by any run at all that receives at some of the
      given times, if and only if it is in the window at one of them. */
  lemma {:induction false} HeadGetsThrough(l: Link, times: int -> bool)
    requires Inv(l) && l.wire == [] && l.acks == [] && l.outbox != []
    ensures (exists steps :: Within(steps, times) && Drops(l, steps)) <==> exists t :: times(t) && InWindow(l.outbox[0], t)
  {
    hide InWindow, Run, Inv, Bound;
    HeldAreBound(l);
    if t :| times(t) && InWindow(l.outbox[0], t) {
      var steps := [SendOutbox] + Rounds(1, t);
      assert Rounds(1, t) == [Receive(t, true), AckArrives] by { assert Rounds(0, t) == []; }
      assert Within(steps, times);
      HeadDropped(l, t);
      assert Drops(l, steps);
    } else {
      forall steps | Within(steps, times)
        ensures !Drops(l, steps)
      {
        StuckRun(l, l.outbox[0], steps);
      }
    }
  }

  lemma HeldAreBound(l: Link)
    requires Inv(l)
    ensures forall b :: b in l.outbox ==> b in l.emitted && Bound(b, l.published)
  {
    hide SumDone, Ordered, WireOk, AcksOk, LedgerOk, Bound;
    forall b | b in l.outbox
      ensures b in l.emitted
    {
      var i :| 0 <= i < |l.outbox| && l.outbox[i] == b;
      assert l.emitted[|l.emitted| - |l.outbox| + i] == b;
    }
  }

  lemma {:induction false} HeadDropped(l: Link, t: int)
    requires l.wire == [] && l.acks == [] && l.outbox != [] && InWindow(l.outbox[0], t) && Bound(l.outbox[0], l.published)
    ensures Drops(l, [SendOutbox] + Rounds(1, t))
  {
    hide InWindow;
    var sent := Next(l, SendOutbox);
    assert [] + l.outbox == l.outbox;
    FirstStep(l, SendOutbox, Rounds(1, t));
    RunRound(sent, 1, t);
    OneRound(sent, t);
  }

  /** From a point in time on, a batch that is not too old yet can still be delivered, even one from
      the future; one that is too old is stuck for good, and everything behind it. */
  lemma {:induction false} OverdueIsStuck(l: Link, from: int)
    requires Inv(l) && l.wire == [] && l.acks == [] && l.outbox != []
    ensures (exists steps :: Within(steps, Since(from)) && Drops(l, steps)) <==> from <= l.outbox[0].observedAt + 600
  {
    hide Within, Drops, Inv;
    var times := Since(from);
    HeadGetsThrough(l, times);
    var earliest := l.outbox[0].observedAt - CLOCK_WINDOW;
    var t := if from < earliest then earliest else from;
    assert times(t);
  }

  /** While its head is outside the window the outbox only grows, and nothing at all is credited. */
  lemma {:induction false} StaleHeadBlocks(l: Link, steps: seq<Step>)
    requires l.wire == [] && l.acks == [] && l.outbox != []
    requires forall i :: 0 <= i < |steps| && steps[i].Receive? ==> !InWindow(l.outbox[0], steps[i].now)
    ensures Run(l, steps).ledger == l.ledger && l.outbox <= Run(l, steps).outbox
  {
    StuckRun(l, l.outbox[0], steps);
  }

  predicate Stuck(l: Link, head: Report) {
    l.acks == [] && l.outbox != [] && l.outbox[0] == head && (l.wire != [] ==> l.wire[0] == head)
  }

  lemma {:induction false} StuckRun(l: Link, head: Report, steps: seq<Step>)
    requires Stuck(l, head)
    requires forall i :: 0 <= i < |steps| && steps[i].Receive? ==> !InWindow(head, steps[i].now)
    ensures Run(l, steps).ledger == l.ledger && l.outbox <= Run(l, steps).outbox
    decreases |steps|
  {
    hide BatchFor, InWindow, Next;
    if steps != [] {
      var m := Next(l, steps[0]);
      StuckStep(l, head, steps[0]);
      forall i | 0 <= i < |steps[1..]| && steps[1..][i].Receive?
        ensures !InWindow(head, steps[1..][i].now)
      {
        assert steps[1..][i] == steps[i + 1];
      }
      StuckRun(m, head, steps[1..]);
    }
  }

  lemma StuckStep(l: Link, head: Report, s: Step)
    requires Stuck(l, head) && (s.Receive? ==> !InWindow(head, s.now))
    ensures var m := Next(l, s); Stuck(m, head) && m.ledger == l.ledger && l.outbox <= m.outbox
  {
    hide BatchFor, Collects, After, InWindow;
  }

  // ---------------------------------------------------------------- a run that gets stuck

  function Once(): AgentModel.Desired {
    AgentModel.Desired("node", 1, Spec.EmptyState())
  }

  function Shown(): Reading<Program> {
    var shown := map["counter" := Value(1, 100)];
    Reading(AgentModel.Program(Once(), ""), shown, shown)
  }

  /** One packet is counted at time 0 and sent, but arrives eleven minutes later. */
  function LateArrival(): seq<Step> {
    [Publish(1, {"counter"}), Collect(Once(), Shown(), 0), SendOutbox, Receive(660, true)]
  }

  /** From then on, whatever happens, it is not credited, and neither is anything collected later. */
  lemma {:induction false} LateUsageIsLost(later: seq<Step>)
    requires Within(later, Since(660))
    ensures var l := Run(Initially(), LateArrival());
            && |l.outbox| == 1 && Of(l.outbox[0], "counter") == Value(1, 100) && l.wire == [] && l.acks == []
            && l.outbox <= Run(l, later).outbox && Run(l, later).ledger == EmptyLedger()
  {
    hide Run;
    var publish, collect := LateArrival()[0], LateArrival()[1];
    FirstReading();
    var zero := Next(Initially(), publish);
    var one := Next(zero, collect);
    var two := Next(one, SendOutbox);
    var three := Next(two, Receive(660, true));
    assert [] + one.outbox == one.outbox;
    assert LateArrival() == [publish] + ([collect] + ([SendOutbox] + ([Receive(660, true)] + [])));
    FirstStep(Initially(), publish, [collect] + ([SendOutbox] + ([Receive(660, true)] + [])));
    FirstStep(zero, collect, [SendOutbox] + ([Receive(660, true)] + []));
    FirstStep(one, SendOutbox, [Receive(660, true)] + []);
    FirstStep(two, Receive(660, true), []);
    NoSteps(three);
    StaleHeadBlocks(three, later);
  }

  lemma {:induction false} NoSteps(l: Link)
    ensures Run(l, []) == l
  {
  }

  lemma FirstReading()
    ensures var zero, s := Next(Initially(), LateArrival()[0]), LateArrival()[1];
            var l := Next(zero, s);
            && Collects(zero, s) && BatchFor(zero, s).sequence == 1
            && l.outbox == [BatchFor(zero, s)] && l.wire == [] && l.acks == [] && l.ledger == EmptyLedger()
            && l.outbox[0].observedAt == 0 && Of(l.outbox[0], "counter") == Value(1, 100)
  {
    var zero, s := Next(Initially(), LateArrival()[0]), LateArrival()[1];
    var b := BatchFor(zero, s);
    assert "counter" in s.reading.values && s.reading.values["counter"] == Value(1, 100);
    assert "counter" in b.deltas && b.deltas["counter"].amount == Value(1, 100);
    assert [] + [b] == [b];
  }
}
