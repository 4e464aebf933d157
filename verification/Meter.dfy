/** Turning counter readings into deltas that survive resets of the counters. */
module Meter {
  import opened Spec

  datatype Value = Value(packets: nat, bytes: nat)

  function Zero(): Value {
    Value(0, 0)
  }

  function Plus(a: Value, b: Value): Value {
    Value(a.packets + b.packets, a.bytes + b.bytes)
  }

  predicate Below(a: Value, b: Value) {
    a.packets <= b.packets && a.bytes <= b.bytes
  }

  /** `epoch` is absent before the first observation. */
  datatype State<E> = State(epoch: Option<E>, sequence: nat, values: map<string, Value>)

  function Initial<E>(): State<E> {
    State(None, 0, map[])
  }

  datatype Delta = Delta(amount: Value, reset: bool)

  datatype Sample = Sample(name: string, value: Value)

  /** Sequence 0 marks an observation in which nothing moved; it is not reported. */
  datatype Batch<E> = Batch(epoch: E, sequence: nat, deltas: map<string, Delta>)

  /** A counter that is new, or went down, has been restarted from zero. */
  predicate Restarted<E(==)>(s: State<E>, epoch: E, name: string, value: Value) {
    s.epoch != Some(epoch) || name !in s.values || !Below(s.values[name], value)
  }

  function DeltaOf<E(==)>(s: State<E>, epoch: E, name: string, value: Value): Delta {
    if Restarted(s, epoch, name, value) then Delta(value, true)
    else Delta(Value(value.packets - s.values[name].packets, value.bytes - s.values[name].bytes), false)
  }

  function DeltasOf<E(==)>(s: State<E>, epoch: E, current: map<string, Value>): map<string, Delta> {
    map n | n in current :: DeltaOf(s, epoch, n, current[n])
  }

  predicate Moved(deltas: map<string, Delta>) {
    exists n :: n in deltas && deltas[n].amount != Zero()
  }

  function After<E(==)>(s: State<E>, epoch: E, current: map<string, Value>): State<E> {
    State(Some(epoch), if Moved(DeltasOf(s, epoch, current)) then s.sequence + 1 else s.sequence, current)
  }

  function BatchOf<E(==)>(s: State<E>, epoch: E, current: map<string, Value>): Batch<E> {
    var deltas := DeltasOf(s, epoch, current);
    Batch(epoch, if Moved(deltas) then s.sequence + 1 else 0, deltas)
  }

  /** What a delta says: either what was added since the last sample of the same epoch, or, marked as a
      restart, all that a counter shows that is new or went down. */
  predicate Explains<E(==)>(s: State<E>, epoch: E, name: string, value: Value, d: Delta) {
    var kept := s.epoch == Some(epoch) && name in s.values
                && s.values[name].packets <= value.packets && s.values[name].bytes <= value.bytes;
    if kept then
      !d.reset && s.values[name].packets + d.amount.packets == value.packets
      && s.values[name].bytes + d.amount.bytes == value.bytes
    else d.reset && d.amount == value
  }

  lemma DeltasExplain<E>(s: State<E>, epoch: E, current: map<string, Value>)
    ensures var deltas := DeltasOf(s, epoch, current);
            deltas.Keys == current.Keys && forall n :: n in deltas ==> Explains(s, epoch, n, current[n], deltas[n])
  {
  }

  lemma BatchExplains<E>(s: State<E>, epoch: E, current: map<string, Value>)
    ensures var b, t := BatchOf(s, epoch, current), After(s, epoch, current);
            && b.epoch == epoch && b.deltas.Keys == current.Keys && t.values == current && t.epoch == Some(epoch)
            && (forall n :: n in b.deltas ==> Explains(s, epoch, n, current[n], b.deltas[n]))
            && (if exists n :: n in b.deltas && (b.deltas[n].amount.packets > 0 || b.deltas[n].amount.bytes > 0)
                then b.sequence == t.sequence == s.sequence + 1
                else b.sequence == 0 && t.sequence == s.sequence)
  {
    DeltasExplain(s, epoch, current);
    MovedMeans(DeltasOf(s, epoch, current));
    hide Explains, DeltasOf, Moved;
  }

  lemma MovedMeans(deltas: map<string, Delta>)
    ensures Moved(deltas) <==> exists n :: n in deltas && (deltas[n].amount.packets > 0 || deltas[n].amount.bytes > 0)
  {
  }

  predicate Distinct(samples: seq<Sample>) {
    forall i, j :: 0 <= i < j < |samples| ==> samples[i].name != samples[j].name
  }

  predicate Named(samples: seq<Sample>) {
    forall i :: 0 <= i < |samples| ==> samples[i].name != ""
  }

  function Readings(samples: seq<Sample>): map<string, Value> {
    if samples == [] then map[]
    else
      var front, last := samples[..|samples| - 1], samples[|samples| - 1];
      Readings(front)[last.name := last.value]
  }

  class Tracker<E(==)> {
    var state: State<E>

    constructor (state: State<E>)
      ensures this.state == state
    {
      this.state := state;
    }

    /** Observe: refuses unnamed or duplicate samples without touching the state; otherwise
        advances it and counts a sequence number only when something moved. */
    method Observe(epoch: E, samples: seq<Sample>) returns (batch: Option<Batch<E>>)
      modifies this
      ensures batch.Some? <==> Named(samples) && Distinct(samples)
      ensures batch.Some? ==>
        state == After(old(state), epoch, Readings(samples)) && batch.value == BatchOf(old(state), epoch, Readings(samples))
      ensures batch.None? ==> state == old(state)
      ensures batch.Some? ==>
        var current, b := Readings(samples), batch.value;
        && b.epoch == epoch && b.deltas.Keys == current.Keys && state.values == current && state.epoch == Some(epoch)
        && (forall n :: n in b.deltas ==> Explains(old(state), epoch, n, current[n], b.deltas[n]))
        && (if exists n :: n in b.deltas && (b.deltas[n].amount.packets > 0 || b.deltas[n].amount.bytes > 0)
            then b.sequence == state.sequence == old(state).sequence + 1
            else b.sequence == 0 && state.sequence == old(state).sequence)
    {
      BatchExplains(state, epoch, Readings(samples));
      hide Readings, Distinct, Named, DeltasOf, Moved, Explains;
      var collected := Collect(samples);
      if collected.None? {
        return None;
      }
      var current := collected.value;
      var deltas, emit := Deltas(epoch, current);
      var sequence := state.sequence;
      state := State(Some(epoch), sequence, current);
      if !emit {
        return Some(Batch(epoch, 0, deltas));
      }
      state := state.(sequence := sequence + 1);
      return Some(Batch(epoch, sequence + 1, deltas));
    }

    method Collect(samples: seq<Sample>) returns (current: Option<map<string, Value>>)
      ensures current.Some? <==> Named(samples) && Distinct(samples)
      ensures current.Some? ==> current.value == Readings(samples)
    {
      hide Readings;
      var found: map<string, Value> := map[];
      ghost var at: map<string, nat> := map[];
      NothingRead(samples);
      for i := 0 to |samples|
        invariant forall j :: 0 <= j < i ==> samples[j].name != "" && samples[j].name in at && at[samples[j].name] == j
        invariant forall n :: n in at ==> at[n] < i && samples[at[n]].name == n
        invariant found.Keys == at.Keys
        invariant found == Readings(samples[..i])
      {
        if samples[i].name == "" {
          return None;
        }
        if samples[i].name in found {
          assert samples[at[samples[i].name]].name == samples[i].name;
          return None;
        }
        ReadNext(samples, i);
        found := found[samples[i].name := samples[i].value];
        at := at[samples[i].name := i];
      }
      assert samples[..|samples|] == samples;
      return Some(found);
    }

    method Deltas(epoch: E, current: map<string, Value>) returns (deltas: map<string, Delta>, emit: bool)
      ensures deltas == DeltasOf(state, epoch, current)
      ensures emit == Moved(deltas)
    {
      deltas, emit := map[], false;
      var names := current.Keys;
      while names != {}
        invariant names <= current.Keys
        invariant forall n :: n in deltas <==> n in current.Keys - names
        invariant forall n :: n in deltas ==> deltas[n] == DeltaOf(state, epoch, n, current[n])
        invariant emit == Moved(deltas)
        decreases |names|
      {
        hide Moved;
        var name :| name in names;
        names := names - {name};
        var delta := DeltaOf(state, epoch, name, current[name]);
        MovedUpdate(deltas, name, delta);
        deltas := deltas[name := delta];
        if delta.amount != Zero() {
          emit := true;
        }
      }
    }
  }

  lemma NothingRead(samples: seq<Sample>)
    ensures Readings(samples[..0]) == map[]
  {
  }

  lemma ReadNext(samples: seq<Sample>, i: nat)
    requires i < |samples|
    ensures Readings(samples[..i + 1]) == Readings(samples[..i])[samples[i].name := samples[i].value]
  {
    assert samples[..i + 1][..i] == samples[..i];
  }

  lemma MovedUpdate(deltas: map<string, Delta>, name: string, delta: Delta)
    requires name !in deltas
    ensures Moved(deltas[name := delta]) <==> Moved(deltas) || delta.amount != Zero()
  {
    var more := deltas[name := delta];
    assert more[name] == delta;
    assert forall n :: n in deltas ==> more[n] == deltas[n];
  }

  // ---------------------------------------------------------------- the metering bound

  /** One observation, with the traffic that really passed since the one before it. */
  datatype Reading<E> = Reading(epoch: E, values: map<string, Value>, traffic: map<string, Value>)

  function Amount(m: map<string, Value>, name: string): Value {
    if name in m then m[name] else Zero()
  }

  /** What a counter shows is at most what passed since it was last at zero: either it kept
      counting from the last reading, or it restarted at some point in between. */
  predicate Plausible<E(==)>(s: State<E>, r: Reading<E>) {
    forall n :: n in r.values ==>
      || (s.epoch == Some(r.epoch) && n in s.values && r.values[n] == Plus(s.values[n], Amount(r.traffic, n)))
      || Below(r.values[n], Amount(r.traffic, n))
  }

  /** Nothing was lost: no counter restarted within its epoch, and a new epoch's counters show
      everything since the last reading of the old one. */
  predicate Seamless<E(==)>(s: State<E>, r: Reading<E>) {
    && (forall n :: n in r.traffic && r.traffic[n] != Zero() ==> n in r.values)
    && forall n :: n in r.values ==>
         r.values[n] == if s.epoch == Some(r.epoch) && n in s.values then Plus(s.values[n], Amount(r.traffic, n))
                        else Amount(r.traffic, n)
  }

  ghost predicate AllPlausible<E>(s: State<E>, rs: seq<Reading<E>>)
    decreases |rs|
  {
    rs == [] || (Plausible(s, rs[0]) && AllPlausible(After(s, rs[0].epoch, rs[0].values), rs[1..]))
  }

  ghost predicate AllSeamless<E>(s: State<E>, rs: seq<Reading<E>>)
    decreases |rs|
  {
    rs == [] || (Seamless(s, rs[0]) && AllSeamless(After(s, rs[0].epoch, rs[0].values), rs[1..]))
  }

  /** What was reported for a counter, over all batches. */
  function Reported<E(==)>(s: State<E>, rs: seq<Reading<E>>, name: string): Value
    decreases |rs|
  {
    if rs == [] then Zero()
    else
      var deltas := BatchOf(s, rs[0].epoch, rs[0].values).deltas;
      Plus(if name in deltas then deltas[name].amount else Zero(),
           Reported(After(s, rs[0].epoch, rs[0].values), rs[1..], name))
  }

  function Passed<E>(rs: seq<Reading<E>>, name: string): Value
    decreases |rs|
  {
    if rs == [] then Zero() else Plus(Amount(rs[0].traffic, name), Passed(rs[1..], name))
  }

  /** Never more is reported than really passed; and all of it, if nothing was lost. */
  lemma {:induction false} MeteringBound<E>(s: State<E>, rs: seq<Reading<E>>, name: string)
    requires AllPlausible(s, rs)
    ensures Below(Reported(s, rs, name), Passed(rs, name))
    ensures AllSeamless(s, rs) ==> Reported(s, rs, name) == Passed(rs, name)
    decreases |rs|
  {
    hide Plausible, Seamless, After, Reported, Passed, Increment, Plus, Below, Amount;
    if rs == [] {
      NothingReported(s, name);
    } else {
      var r := rs[0];
      var next := After(s, r.epoch, r.values);
      MeteringBound(next, rs[1..], name);
      OneReading(s, r, name);
      OneStep(s, rs, name);
      Sums(Increment(s, r, name), Amount(r.traffic, name), Reported(next, rs[1..], name), Passed(rs[1..], name));
    }
  }

  lemma {:induction false} NothingReported<E>(s: State<E>, name: string)
    ensures Reported(s, [], name) == Zero() == Passed<E>([], name) && Below(Zero(), Zero())
  {
  }

  lemma Sums(a: Value, b: Value, c: Value, d: Value)
    requires Below(a, b) && Below(c, d)
    ensures Below(Plus(a, c), Plus(b, d))
  {
  }

  lemma {:induction false} OneStep<E>(s: State<E>, rs: seq<Reading<E>>, name: string)
    requires rs != []
    ensures Reported(s, rs, name) == Plus(Increment(s, rs[0], name), Reported(After(s, rs[0].epoch, rs[0].values), rs[1..], name))
    ensures Passed(rs, name) == Plus(Amount(rs[0].traffic, name), Passed(rs[1..], name))
  {
    hide DeltaOf, Plus, Amount, Moved, After;
  }

  function Increment<E(==)>(s: State<E>, r: Reading<E>, name: string): Value {
    if name in r.values then DeltaOf(s, r.epoch, name, r.values[name]).amount else Zero()
  }

  lemma OneReading<E>(s: State<E>, r: Reading<E>, name: string)
    requires Plausible(s, r)
    ensures Below(Increment(s, r, name), Amount(r.traffic, name))
    ensures Seamless(s, r) ==> Increment(s, r, name) == Amount(r.traffic, name)
  {
  }

  /** The bound is lost when a counter is missing from one reading and back in the next: it is counted
      twice, though nothing passed and nothing was restarted. */
  lemma {:induction false} VanishingCounterCountsTwice(epoch: int, sequence: nat, name: string, value: Value)
    requires value != Zero()
    ensures var s := State(Some(epoch), sequence, map[name := value]);
            var missing, back := Reading(epoch, map[], map[]), Reading(epoch, map[name := value], map[]);
            Reported(s, [missing, back], name) == value && Passed([missing, back], name) == Zero()
  {
    hide Moved, Plus;
    var s := State(Some(epoch), sequence, map[name := value]);
    var missing, back := Reading(epoch, map[], map[]), Reading(epoch, map[name := value], map[]);
    var t := After(s, epoch, missing.values);
    assert t.values == map[] && name !in BatchOf(s, epoch, missing.values).deltas;
    assert DeltasOf(t, epoch, back.values)[name] == Delta(value, true);
    assert [missing, back][1..] == [back] && [back][1..] == [];
    assert Reported(t, [back], name) == Plus(value, Zero());
    assert Reported(s, [missing, back], name) == Plus(Zero(), Reported(t, [back], name));
    assert Passed([back], name) == Plus(Zero(), Passed<int>([], name));
    assert Passed([missing, back], name) == Plus(Zero(), Passed([back], name));
    PlusZero(value);
    PlusZero(Zero());
  }

  lemma PlusZero(a: Value)
    ensures Plus(a, Zero()) == a == Plus(Zero(), a)
  {
  }

  // ---------------------------------------------------------------- when the bound holds

  function StateAfter<E(==)>(s: State<E>, rs: seq<Reading<E>>): State<E>
    decreases |rs|
  {
    if rs == [] then s else StateAfter(After(s, rs[0].epoch, rs[0].values), rs[1..])
  }

  predicate OneEpoch<E(==)>(epoch: E, rs: seq<Reading<E>>) {
    forall i :: 0 <= i < |rs| ==> rs[i].epoch == epoch
  }

  /** Every counter shows exactly what passed since the epoch began. */
  predicate Counting<E>(rs: seq<Reading<E>>) {
    forall i, n :: 0 <= i < |rs| && n in rs[i].values ==> rs[i].values[n] == Passed(rs[..i + 1], n)
  }

  /** A counter was seen to move, is missing from a later reading and back in a still later one. */
  predicate ComesBack<E>(rs: seq<Reading<E>>, i: nat, j: nat, k: nat, n: string) {
    i < j < k < |rs| && n in rs[i].values && rs[i].values[n] != Zero() && n !in rs[j].values && n in rs[k].values
  }

  predicate Bounded<E(==)>(rs: seq<Reading<E>>, p: nat, n: string)
    requires p <= |rs|
  {
    Below(Reported(Initial(), rs[..p], n), Passed(rs[..p], n))
  }

  /** With counters that only count, over one epoch of a fresh tracker, never more is reported than
      passed if and only if no counter that moved disappears and comes back. */
  lemma {:induction false} BoundHoldsExactly<E(!new)>(epoch: E, rs: seq<Reading<E>>)
    requires OneEpoch(epoch, rs) && Counting(rs)
    ensures (forall p: nat, n :: p <= |rs| ==> Bounded(rs, p, n)) <==> !exists i, j, k, n :: ComesBack(rs, i, j, k, n)
  {
    hide Reported, Passed, Counting, OneEpoch, Below, ComesBack, Bounded;
    if i, j, k, n :| ComesBack(rs, i, j, k, n) {
      var p := CountedTwice(epoch, rs, i, j, k, n);
      assert !Bounded(rs, p, n);
    } else {
      forall p: nat, n | p <= |rs|
        ensures Bounded(rs, p, n)
      {
        ReportsLastSeen(epoch, rs, p, n);
        SeenHasPassed(rs, p, n);
        BoundedBy(rs, p, n);
      }
    }
  }

  lemma {:induction false} BoundedBy<E>(rs: seq<Reading<E>>, p: nat, n: string)
    requires p <= |rs| && Reported(Initial(), rs[..p], n) == LastSeen(rs, p, n) && Below(LastSeen(rs, p, n), Passed(rs[..p], n))
    ensures Bounded(rs, p, n)
  {
  }

  /** What a counter showed when it was last there. */
  function LastSeen<E>(rs: seq<Reading<E>>, p: nat, n: string): Value
    requires p <= |rs|
  {
    if p == 0 then Zero()
    else if n in rs[p - 1].values then rs[p - 1].values[n]
    else LastSeen(rs, p - 1, n)
  }

  /** What one reading of an epoch adds for a counter. */
  function Step<E>(rs: seq<Reading<E>>, i: nat, n: string): Value
    requires i < |rs|
  {
    if n !in rs[i].values then Zero()
    else if i > 0 && n in rs[i - 1].values && Below(rs[i - 1].values[n], rs[i].values[n]) then
      Value(rs[i].values[n].packets - rs[i - 1].values[n].packets, rs[i].values[n].bytes - rs[i - 1].values[n].bytes)
    else rs[i].values[n]
  }

  lemma {:induction false} StateAppend<E>(s: State<E>, rs: seq<Reading<E>>, r: Reading<E>)
    ensures StateAfter(s, rs + [r]) == After(StateAfter(s, rs), r.epoch, r.values)
    decreases |rs|
  {
    hide After;
    if rs == [] {
      assert [r][1..] == [];
    } else {
      assert (rs + [r])[1..] == rs[1..] + [r];
      StateAppend(After(s, rs[0].epoch, rs[0].values), rs[1..], r);
    }
  }

  lemma {:induction false} ReportedAppend<E>(s: State<E>, rs: seq<Reading<E>>, r: Reading<E>, n: string)
    ensures Reported(s, rs + [r], n) == Plus(Reported(s, rs, n), Increment(StateAfter(s, rs), r, n))
    decreases |rs|
  {
    hide After, Increment, Reported, Passed, Plus;
    var all := rs + [r];
    OneStep(s, all, n);
    if rs == [] {
      assert all == [r] && [r][1..] == [];
      NothingReported(s, n);
      NothingReported(After(s, r.epoch, r.values), n);
      PlusZero(Increment(s, r, n));
    } else {
      assert all[1..] == rs[1..] + [r];
      var next := After(s, rs[0].epoch, rs[0].values);
      ReportedAppend(next, rs[1..], r, n);
      OneStep(s, rs, n);
      PlusIsAssociative(Increment(s, rs[0], n), Reported(next, rs[1..], n), Increment(StateAfter(s, rs), r, n));
    }
  }

  lemma PlusIsAssociative(a: Value, b: Value, c: Value)
    ensures Plus(a, Plus(b, c)) == Plus(Plus(a, b), c)
  {
  }

  lemma {:induction false} PassedAppend<E>(rs: seq<Reading<E>>, r: Reading<E>, n: string)
    ensures Passed(rs + [r], n) == Plus(Passed(rs, n), Amount(r.traffic, n))
    decreases |rs|
  {
    hide Amount;
    if rs == [] {
      assert [r][1..] == [];
      PlusZero(Amount(r.traffic, n));
    } else {
      assert (rs + [r])[1..] == rs[1..] + [r];
      PassedAppend(rs[1..], r, n);
    }
  }

  lemma {:induction false} PreviousReading<E>(epoch: E, rs: seq<Reading<E>>, i: nat)
    requires OneEpoch(epoch, rs) && 0 < i <= |rs|
    ensures StateAfter(Initial(), rs[..i]).epoch == Some(epoch) && StateAfter(Initial(), rs[..i]).values == rs[i - 1].values
  {
    assert rs[..i] == rs[..i - 1] + [rs[i - 1]];
    StateAppend(Initial(), rs[..i - 1], rs[i - 1]);
  }

  lemma {:induction false} ReadingAdds<E>(epoch: E, rs: seq<Reading<E>>, i: nat, n: string)
    requires OneEpoch(epoch, rs) && i < |rs|
    ensures Reported(Initial(), rs[..i + 1], n) == Plus(Reported(Initial(), rs[..i], n), Step(rs, i, n))
    ensures Passed(rs[..i + 1], n) == Plus(Passed(rs[..i], n), Amount(rs[i].traffic, n))
  {
    hide Reported, Passed, Amount;
    assert rs[..i + 1] == rs[..i] + [rs[i]];
    ReportedAppend(Initial(), rs[..i], rs[i], n);
    PassedAppend(rs[..i], rs[i], n);
    if i > 0 {
      PreviousReading(epoch, rs, i);
    } else {
      assert rs[..0] == [];
    }
  }

  lemma {:induction false} SumsGrow<E>(epoch: E, rs: seq<Reading<E>>, i: nat, p: nat, n: string)
    requires OneEpoch(epoch, rs) && i <= p <= |rs|
    ensures Below(Reported(Initial(), rs[..i], n), Reported(Initial(), rs[..p], n))
    ensures Below(Passed(rs[..i], n), Passed(rs[..p], n))
    decreases p
  {
    hide Reported, Passed, Step, Amount, OneEpoch;
    if i < p {
      SumsGrow(epoch, rs, i, p - 1, n);
      ReadingAdds(epoch, rs, p - 1, n);
    }
  }

  /** Whatever a counter shows has been reported by then. */
  lemma {:induction false} SeenIsReported<E>(epoch: E, rs: seq<Reading<E>>, i: nat, n: string)
    requires OneEpoch(epoch, rs) && i < |rs| && n in rs[i].values
    ensures Below(rs[i].values[n], Reported(Initial(), rs[..i + 1], n))
    decreases i
  {
    hide Reported, Passed, OneEpoch;
    ReadingAdds(epoch, rs, i, n);
    if i > 0 && n in rs[i - 1].values {
      SeenIsReported(epoch, rs, i - 1, n);
    }
  }

  lemma {:induction false} FirstBack<E>(rs: seq<Reading<E>>, j: nat, k: nat, n: string) returns (b: nat)
    requires j < k < |rs| && n !in rs[j].values && n in rs[k].values
    ensures j < b <= k && n in rs[b].values && n !in rs[b - 1].values
    decreases k
  {
    b := k;
    if n in rs[k - 1].values {
      b := FirstBack(rs, j, k - 1, n);
    }
  }

  /** A counter that comes back is reported in full once more. */
  lemma {:induction false} CountedTwice<E>(epoch: E, rs: seq<Reading<E>>, i: nat, j: nat, k: nat, n: string) returns (p: nat)
    requires OneEpoch(epoch, rs) && Counting(rs) && ComesBack(rs, i, j, k, n)
    ensures p <= |rs| && !Bounded(rs, p, n)
  {
    hide Reported, Passed, OneEpoch, Counting, Amount, Plus, Below;
    var b := FirstBack(rs, j, k, n);
    p := b + 1;
    SeenIsReported(epoch, rs, i, n);
    SumsGrow(epoch, rs, i + 1, b, n);
    ReadingAdds(epoch, rs, b, n);
    ShowsPassed(rs, b, n);
    Exceeds(rs[i].values[n], Reported(Initial(), rs[..i + 1], n), Reported(Initial(), rs[..b], n), Passed(rs[..p], n));
  }

  lemma {:induction false} ShowsPassed<E>(rs: seq<Reading<E>>, i: nat, n: string)
    requires Counting(rs) && i < |rs| && n in rs[i].values
    ensures rs[i].values[n] == Passed(rs[..i + 1], n)
  {
    hide Passed;
  }

  lemma Exceeds(seen: Value, before: Value, later: Value, passed: Value)
    requires Below(seen, before) && Below(before, later) && seen != Zero()
    ensures !Below(Plus(later, passed), passed)
  {
  }

  /** If none comes back, what was reported is what the counter last showed. */
  lemma {:induction false} ReportsLastSeen<E>(epoch: E, rs: seq<Reading<E>>, p: nat, n: string)
    requires OneEpoch(epoch, rs) && Counting(rs) && p <= |rs|
    requires !exists i, j, k :: ComesBack(rs, i, j, k, n)
    ensures Reported(Initial(), rs[..p], n) == LastSeen(rs, p, n)
    decreases p
  {
    hide Reported, Passed, OneEpoch, Counting;
    if p == 0 {
      assert rs[..0] == [];
      NothingReported(Initial<E>(), n);
    } else {
      ReportsLastSeen(epoch, rs, p - 1, n);
      ReadingAdds(epoch, rs, p - 1, n);
      if n in rs[p - 1].values {
        if p > 1 && n in rs[p - 2].values {
          CountsUp(epoch, rs, p - 2, n);
        } else {
          NeverMoved(rs, p - 1, n);
        }
      }
    }
  }

  lemma {:induction false} CountsUp<E>(epoch: E, rs: seq<Reading<E>>, i: nat, n: string)
    requires OneEpoch(epoch, rs) && Counting(rs) && i + 1 < |rs| && n in rs[i].values && n in rs[i + 1].values
    ensures Below(rs[i].values[n], rs[i + 1].values[n])
  {
    hide Passed, OneEpoch;
    SumsGrow(epoch, rs, i + 1, i + 2, n);
  }

  /** A counter that is new in this reading was not seen to move before. */
  lemma {:induction false} NeverMoved<E>(rs: seq<Reading<E>>, p: nat, n: string)
    requires p < |rs| && n in rs[p].values && (p > 0 ==> n !in rs[p - 1].values)
    requires !exists i, j, k :: ComesBack(rs, i, j, k, n)
    ensures LastSeen(rs, p, n) == Zero()
  {
    if LastSeen(rs, p, n) != Zero() {
      var i := SeenWhere(rs, p, n);
      assert i < p - 1;
      assert ComesBack(rs, i, p - 1, p, n);
    }
  }

  lemma {:induction false} SeenWhere<E>(rs: seq<Reading<E>>, p: nat, n: string) returns (i: nat)
    requires p <= |rs| && LastSeen(rs, p, n) != Zero()
    ensures i < p && n in rs[i].values && rs[i].values[n] == LastSeen(rs, p, n)
    decreases p
  {
    i := p - 1;
    if n !in rs[p - 1].values {
      i := SeenWhere(rs, p - 1, n);
    }
  }

  lemma {:induction false} SeenHasPassed<E>(rs: seq<Reading<E>>, p: nat, n: string)
    requires Counting(rs) && p <= |rs|
    ensures Below(LastSeen(rs, p, n), Passed(rs[..p], n))
    decreases p
  {
    hide Passed, Amount;
    if p > 0 {
      SeenHasPassed(rs, p - 1, n);
      assert rs[..p] == rs[..p - 1] + [rs[p - 1]];
      PassedAppend(rs[..p - 1], rs[p - 1], n);
    }
  }
}
