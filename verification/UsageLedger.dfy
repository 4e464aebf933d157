/** Both ends of usage accounting: the controller's ledger and the agent's durable outbox. */
module UsageLedger {
  import AgentModel
  import opened Meter

  type Report = AgentModel.UsageBatch

  datatype Key = Key(epoch: AgentModel.Program, sequence: nat)

  function KeyOf(b: Report): Key {
    Key(b.epoch, b.sequence)
  }

  function Amounts(deltas: map<string, Delta>): map<string, Value> {
    map n | n in deltas :: deltas[n].amount
  }

  datatype Ledger = Ledger(recorded: set<Key>, rollups: map<string, Value>)

  function EmptyLedger(): Ledger {
    Ledger({}, map[])
  }

  function Credit(rollups: map<string, Value>, deltas: map<string, Value>): map<string, Value> {
    map n | n in rollups.Keys + deltas.Keys :: Plus(Amount(rollups, n), Amount(deltas, n))
  }

  /** Whatever arrives twice is credited once. */
  function Recorded(l: Ledger, b: Report): Ledger {
    if KeyOf(b) in l.recorded then l
    else Ledger(l.recorded + {KeyOf(b)}, Credit(l.rollups, Amounts(b.deltas)))
  }

  /** Every counter of the batch has grown by its delta, and no other has changed. */
  ghost predicate Added(before: map<string, Value>, deltas: map<string, Delta>, after: map<string, Value>) {
    && (forall n :: n in after <==> n in before || n in deltas)
    && forall n :: n in after ==>
         var was, more := if n in before then before[n] else Value(0, 0), if n in deltas then deltas[n].amount else Value(0, 0);
         after[n].packets == was.packets + more.packets && after[n].bytes == was.bytes + more.bytes
  }

  /** The generation a batch names was published, and had all of its counters. */
  predicate Bound(b: Report, generations: map<nat, set<string>>) {
    b.generation in generations && b.deltas.Keys <= generations[b.generation]
  }

  /** What the store records; counters are looked at only the first time. */
  predicate Accepts(l: Ledger, b: Report, generations: map<nat, set<string>>) {
    b.generation in generations && (KeyOf(b) in l.recorded || Bound(b, generations))
  }

  predicate Suffix(rest: seq<Report>, all: seq<Report>) {
    |rest| <= |all| && rest == all[|all| - |rest|..]
  }

  /** The outbox after a cumulative acknowledgement; an unknown one changes nothing. */
  function Acknowledged(outbox: seq<Report>, key: Key): (rest: seq<Report>)
    ensures |rest| <= |outbox| && Suffix(rest, outbox)
    ensures rest == outbox || KeyOf(outbox[|outbox| - |rest| - 1]) == key
  {
    if outbox == [] then []
    else if KeyOf(outbox[0]) == key then outbox[1..]
    else
      var rest := Acknowledged(outbox[1..], key);
      if |rest| == |outbox| - 1 then outbox else rest
  }

  class Controller {
    var recorded: set<Key>
    var rollups: map<string, Value>

    function Contents(): Ledger
      reads this
    {
      Ledger(recorded, rollups)
    }

    constructor ()
      ensures Contents() == EmptyLedger()
    {
      recorded, rollups := {}, map[];
    }

    /** RecordUsageBatch: the batch row and all its rollups in one transaction. `generations` are the
        counters of each published generation; an unknown generation or counter fails it, but counters
        are looked at only the first time. */
    method RecordUsageBatch(b: Report, generations: map<nat, set<string>>) returns (ok: bool)
      modifies this
      ensures ok <==> Accepts(old(Contents()), b, generations)
      ensures Contents() == if ok then Recorded(old(Contents()), b) else old(Contents())
      ensures b.generation !in generations ==> !ok
      ensures b.generation in generations && Key(b.epoch, b.sequence) in old(recorded) ==>
        ok && recorded == old(recorded) && rollups == old(rollups)
      ensures b.generation in generations && Key(b.epoch, b.sequence) !in old(recorded) ==>
        && (ok <==> forall n :: n in b.deltas ==> n in generations[b.generation])
        && (ok ==> recorded == old(recorded) + {Key(b.epoch, b.sequence)} && Added(old(rollups), b.deltas, rollups))
      ensures !ok ==> recorded == old(recorded) && rollups == old(rollups)
    {
      if b.generation !in generations {
        return false;
      }
      if KeyOf(b) in recorded {
        return true;
      }
      var totals;
      ok, totals := Aggregate(Amounts(b.deltas), generations[b.generation]);
      if ok {
        recorded, rollups := recorded + {KeyOf(b)}, totals;
      }
    }

    method Aggregate(deltas: map<string, Value>, bindings: set<string>) returns (ok: bool, totals: map<string, Value>)
      ensures ok <==> deltas.Keys <= bindings
      ensures ok ==> totals == Credit(rollups, deltas)
    {
      hide Plus, Amount;
      totals := rollups;
      var names := deltas.Keys;
      while names != {}
        invariant names <= deltas.Keys
        invariant deltas.Keys - names <= bindings
        invariant forall n :: n in totals <==> n in rollups || n in deltas.Keys - names
        invariant forall n :: n in totals ==>
          totals[n] == if n in deltas.Keys - names then Plus(Amount(rollups, n), Amount(deltas, n)) else rollups[n]
        decreases |names|
      {
        var n :| n in names;
        names := names - {n};
        if n !in bindings {
          return false, totals;
        }
        SameAmount(totals, rollups, n);
        InAmount(deltas, n);
        totals := totals[n := Plus(Amount(totals, n), deltas[n])];
      }
      Untouched(rollups, deltas);
      assert totals == Credit(rollups, deltas);
      return true, totals;
    }
  }

  lemma SameAmount(a: map<string, Value>, b: map<string, Value>, n: string)
    requires n in a <==> n in b
    requires n in a ==> a[n] == b[n]
    ensures Amount(a, n) == Amount(b, n)
  {
  }

  lemma InAmount(a: map<string, Value>, n: string)
    requires n in a
    ensures Amount(a, n) == a[n]
  {
  }

  /** A counter without a delta is credited nothing. */
  lemma Untouched(rollups: map<string, Value>, deltas: map<string, Value>)
    ensures forall n :: n in rollups && n !in deltas ==> Plus(Amount(rollups, n), Amount(deltas, n)) == rollups[n]
  {
  }

  lemma CreditAmount(rollups: map<string, Value>, deltas: map<string, Value>, n: string)
    ensures Amount(Credit(rollups, deltas), n) == Plus(Amount(rollups, n), Amount(deltas, n))
  {
    hide Plus;
    var keys := rollups.Keys + deltas.Keys;
    assert Credit(rollups, deltas).Keys == keys;
    if n !in keys {
      assert n !in rollups && n !in deltas;
      ZeroPlusZero();
    }
  }

  lemma ZeroPlusZero()
    ensures Plus(Zero(), Zero()) == Zero()
  {
  }

  class Outbox {
    var batches: seq<Report>

    constructor (batches: seq<Report>)
      ensures this.batches == batches
    {
      this.batches := batches;
    }

    /** AckUsage: drops the acknowledged batch and everything before it. */
    method AckUsage(key: Key)
      modifies this
      ensures batches == Acknowledged(old(batches), key)
    {
      var index := 0;
      while index < |batches| && KeyOf(batches[index]) != key
        invariant 0 <= index <= |batches|
        invariant forall k :: 0 <= k < index ==> KeyOf(batches[k]) != key
      {
        index := index + 1;
      }
      DroppedThrough(batches, key, index);
      if index < |batches| {
        batches := batches[index + 1..];
      }
    }
  }

  lemma {:induction false} DroppedThrough(outbox: seq<Report>, key: Key, index: nat)
    requires index <= |outbox| && forall k :: 0 <= k < index ==> KeyOf(outbox[k]) != key
    requires index < |outbox| ==> KeyOf(outbox[index]) == key
    ensures Acknowledged(outbox, key) == if index < |outbox| then outbox[index + 1..] else outbox
  {
    if index > 0 {
      DroppedThrough(outbox[1..], key, index - 1);
    }
  }
}
