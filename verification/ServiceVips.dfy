/** Allocation of service addresses to forwards that leave through an exit node. */
module ServiceVips {
  import opened Spec

  function AddressSpace(): nat {
    0x1_0000_0000
  }

  predicate ValidPrefix(p: Prefix) {
    p.bits <= 32
  }

  /** In blocks of more than two addresses the first and the last one are not handed out. */
  function First(p: Prefix): nat {
    if Size(p.bits) > 2 then 1 else 0
  }

  function Last(p: Prefix): nat {
    if Size(p.bits) > 2 then Size(p.bits) - 1 else Size(p.bits)
  }

  /** The n-th address of a block, as a 32-bit addition computes it. */
  function Candidate(p: Prefix, n: nat): Address {
    (Base(p) + n) % AddressSpace()
  }

  predicate Usable(p: Prefix, a: Address) {
    First(p) <= a - Base(p) < Last(p)
  }

  /** An address of the block, and in blocks of more than two addresses neither its first nor its last. */
  predicate InsideOf(p: Prefix, a: Address) {
    && Base(p) <= a < Base(p) + Size(p.bits)
    && (Size(p.bits) > 2 ==> a != Base(p) && a != Base(p) + Size(p.bits) - 1)
  }

  lemma UsableIsInside(p: Prefix, a: Address)
    ensures Usable(p, a) <==> InsideOf(p, a)
  {
  }

  lemma UsableAreInside()
    ensures forall p, a :: Usable(p, a) <==> InsideOf(p, a)
  {
    hide Usable, InsideOf;
    forall p, a
      ensures Usable(p, a) <==> InsideOf(p, a)
    {
      UsableIsInside(p, a);
    }
  }

  /** Blocks are aligned to their size, which is a power of two. */
  lemma BlocksAreAligned(p: Prefix)
    requires ValidPrefix(p)
    ensures (exists k: nat :: Base(p) == k * Size(p.bits)) && Base(p) <= p.address < Base(p) + Size(p.bits)
    ensures Size(p.bits) * Power(p.bits) == AddressSpace()
  {
    SizeDividesSpace(p.bits);
    WholeSpace();
    var k := p.address / Size(p.bits);
    assert Base(p) == k * Size(p.bits);
  }

  function Power(n: nat): (r: nat)
    ensures r > 0
  {
    if n == 0 then 1 else 2 * Power(n - 1)
  }

  lemma {:induction false} SizeDividesSpace(bits: nat)
    requires bits <= 32
    ensures Size(bits) * Power(bits) == Size(0)
    decreases bits
  {
    if bits > 0 {
      SizeDividesSpace(bits - 1);
      HalfSize(bits);
      assert Power(bits) == 2 * Power(bits - 1);
      hide Size, Power;
      Regroup(Size(bits), Power(bits - 1));
    }
  }

  lemma {:induction false} HalfSize(bits: nat)
    requires 0 < bits <= 32
    ensures Size(bits - 1) == 2 * Size(bits)
  {
  }

  lemma Regroup(a: nat, b: nat)
    ensures a * (2 * b) == (2 * a) * b
  {
  }

  lemma WholeSpace()
    ensures Size(0) == AddressSpace()
  {
    assert Size(32) == 1 && Size(31) == 2 && Size(30) == 4 && Size(29) == 8 && Size(28) == 16;
    assert Size(24) == 256 by { assert Size(27) == 32 && Size(26) == 64 && Size(25) == 128; }
    assert Size(20) == 4096 by { assert Size(23) == 512 && Size(22) == 1024 && Size(21) == 2048; }
    assert Size(16) == 65536 by { assert Size(19) == 8192 && Size(18) == 16384 && Size(17) == 32768; }
    assert Size(12) == 0x10_0000 by { assert Size(15) == 0x2_0000 && Size(14) == 0x4_0000 && Size(13) == 0x8_0000; }
    assert Size(8) == 0x100_0000 by { assert Size(11) == 0x20_0000 && Size(10) == 0x40_0000 && Size(9) == 0x80_0000; }
    assert Size(4) == 0x1000_0000 by { assert Size(7) == 0x200_0000 && Size(6) == 0x400_0000 && Size(5) == 0x800_0000; }
    assert Size(3) == 0x2000_0000 && Size(2) == 0x4000_0000 && Size(1) == 0x8000_0000;
  }

  /** No address of a block lies beyond the address space, so the addition never wraps around. */
  lemma NoWrapAround(p: Prefix, n: nat)
    requires ValidPrefix(p) && n < Size(p.bits)
    ensures Base(p) + n < AddressSpace()
    ensures Candidate(p, n) == Base(p) + n
  {
    var size := Size(p.bits);
    SizeDividesSpace(p.bits);
    WholeSpace();
    BlockFits(p.address, size, Power(p.bits));
  }

  lemma BlockFits(a: nat, size: nat, count: nat)
    requires size > 0 && a < size * count
    ensures a / size * size + size <= size * count
  {
    assert a / size * size <= a;
    Cancel(a / size, count, size);
    Monotone(a / size + 1, count, size);
    assert (a / size + 1) * size == a / size * size + size;
  }

  lemma Cancel(a: nat, b: nat, k: nat)
    requires a * k < b * k
    ensures a < b
  {
  }

  lemma Monotone(a: nat, b: nat, k: nat)
    requires a <= b
    ensures a * k <= b * k
  {
  }

  lemma UsableIsContained(p: Prefix, a: Address)
    requires Usable(p, a)
    ensures Contains(p, a)
  {
  }

  /** Everything before the cursor of a block is taken. */
  predicate CursorOk(p: Prefix, taken: set<Address>, cursor: nat) {
    forall a: Address :: Usable(p, a) && a - Base(p) < cursor ==> a in taken
  }

  /** The cursors of all blocks, for the addresses taken so far. */
  predicate CursorsOk(cidrs: seq<Prefix>, taken: set<Address>, cursors: map<Prefix, nat>) {
    forall p :: p in cidrs ==> CursorOk(p, taken, CursorOf(cursors, p))
  }

  function CursorOf(cursors: map<Prefix, nat>, p: Prefix): nat {
    if p in cursors then cursors[p] else 0
  }

  /** Moving a cursor past one address, which is taken from now on. */
  lemma CursorMoves(cidrs: seq<Prefix>, taken: set<Address>, cursors: map<Prefix, nat>, p: Prefix, cursor: nat, a: Address)
    requires CursorsOk(cidrs, taken, cursors) && a == Base(p) + cursor
    requires forall b: Address :: Usable(p, b) && b - Base(p) < cursor ==> b in taken
    ensures CursorsOk(cidrs, taken + {a}, cursors[p := cursor + 1])
    ensures a in taken ==> CursorsOk(cidrs, taken, cursors[p := cursor + 1])
  {
    hide Base, Usable;
    forall q | q in cidrs
      ensures CursorOk(q, taken + {a}, CursorOf(cursors[p := cursor + 1], q))
    {
      assert CursorOk(q, taken, CursorOf(cursors, q));
    }
    assert a in taken ==> taken + {a} == taken;
  }

  /** Rows of the allocation table; an address belongs to one forward. */
  datatype Row = Row(vip: Address, forward: Id)

  datatype Demand = Demand(forward: Id, mode: PathMode)

  datatype Outcome = Allocated(vips: map<Id, Address>) | OutOfRange(forward: Id) | NoCapacity

  predicate InAny(cidrs: seq<Prefix>, a: Address) {
    exists p :: p in cidrs && Contains(p, a)
  }

  /** Two forwards never share an address, and a forward has the address the table says. */
  predicate Consistent(used: map<Address, Id>, byForward: map<Id, Address>) {
    forall f :: f in byForward ==> byForward[f] in used && used[byForward[f]] == f
  }

  class Allocator {
    const cidrs: seq<Prefix>
    var used: map<Address, Id>
    var byForward: map<Id, Address>
    var cursors: map<Prefix, nat>

    ghost predicate Valid()
      reads this
    {
      && (forall p :: p in cidrs ==> ValidPrefix(p))
      && Consistent(used, byForward)
      && CursorsOk(cidrs, used.Keys, cursors)
    }

    /** Loads the allocation table. */
    constructor (cidrs: seq<Prefix>, rows: seq<Row>)
      requires forall p :: p in cidrs ==> ValidPrefix(p)
      requires forall i, j :: 0 <= i < j < |rows| ==> rows[i].vip != rows[j].vip
      ensures Valid() && this.cidrs == cidrs
      ensures forall a :: a in used <==> exists i :: 0 <= i < |rows| && rows[i].vip == a
      ensures forall f :: f in byForward <==> exists i :: 0 <= i < |rows| && rows[i].forward == f
    {
      this.cidrs := cidrs;
      used, byForward, cursors := map[], map[], map[];
      new;
      for k := 0 to |rows|
        invariant Valid() && this.cidrs == cidrs && cursors == map[]
        invariant forall a :: a in used <==> exists i :: 0 <= i < k && rows[i].vip == a
        invariant forall f :: f in byForward <==> exists i :: 0 <= i < k && rows[i].forward == f
      {
        hide ValidPrefix;
        used := used[rows[k].vip := rows[k].forward];
        byForward := byForward[rows[k].forward := rows[k].vip];
      }
    }

    /** nextAvailableVIP: block after block, resuming where the last search in the block ended. */
    method NextAvailable() returns (r: Option<Address>)
      requires Valid()
      modifies this`cursors
      ensures r.None? ==> Valid()
      ensures r.Some? ==> r.value !in used && exists p :: p in cidrs && InsideOf(p, r.value)
      ensures r.Some? ==> CursorsOk(cidrs, used.Keys + {r.value}, cursors)
      ensures r.None? ==> forall p, a :: p in cidrs && InsideOf(p, a) ==> a in used
    {
      UsableAreInside();
      hide ValidPrefix, Usable, CursorOk, Consistent, InsideOf;
      for i := 0 to |cidrs|
        invariant Valid()
        invariant forall p, a :: p in cidrs[..i] && InsideOf(p, a) ==> a in used
      {
        var p := cidrs[i];
        assert p in cidrs;
        r := Search(p);
        if r.Some? {
          return;
        }
        assert cidrs[..i + 1] == cidrs[..i] + [p];
      }
      assert cidrs[..|cidrs|] == cidrs;
      return None;
    }

    method Search(p: Prefix) returns (r: Option<Address>)
      requires Valid() && p in cidrs
      modifies this`cursors
      ensures r.None? ==> Valid()
      ensures r.Some? ==> r.value !in used && Usable(p, r.value)
      ensures r.Some? ==> CursorsOk(cidrs, used.Keys + {r.value}, cursors)
      ensures r.None? ==> forall a :: Usable(p, a) ==> a in used
    {
      hide Base, Size, ValidPrefix, Consistent;
      var cursor := CursorOf(cursors, p);
      if cursor < First(p) {
        cursor := First(p);
      }
      while cursor < Last(p)
        invariant First(p) <= cursor
        invariant forall a: Address :: Usable(p, a) && a - Base(p) < cursor ==> a in used
        invariant CursorsOk(cidrs, used.Keys, cursors)
        decreases Last(p) - cursor
      {
        var candidate := Candidate(p, cursor);
        NoWrapAround(p, cursor);
        CursorMoves(cidrs, used.Keys, cursors, p, cursor, candidate);
        cursor := cursor + 1;
        cursors := cursors[p := cursor];
        if candidate !in used {
          return Some(candidate);
        }
      }
      return None;
    }

    /** Takes the next free address for a forward that has none. */
    method Assign(f: Id) returns (r: Option<Address>)
      requires Valid() && f !in byForward
      modifies this
      ensures Valid()
      ensures r.Some? ==> r.value !in old(used) && used == old(used)[r.value := f] && byForward == old(byForward)[f := r.value]
      ensures r.Some? ==> InAny(cidrs, r.value) && exists p :: p in cidrs && InsideOf(p, r.value)
      ensures r.None? ==> used == old(used) && byForward == old(byForward) && forall p, a :: p in cidrs && InsideOf(p, a) ==> a in used
    {
      hide Usable, InsideOf, CursorOk, ValidPrefix, Contains, CursorsOk;
      assert Consistent(used, byForward);
      r := NextAvailable();
      if r.Some? {
        assert used[r.value := f].Keys == used.Keys + {r.value};
        used := used[r.value := f];
        byForward := byForward[f := r.value];
        UsableInAny(cidrs, r.value);
      }
    }

    /** allocateServiceVIPs, for demands in the order of their forwards. */
    method AllocateServiceVIPs(demands: seq<Demand>) returns (r: Outcome)
      requires Valid()
      requires forall i, j :: 0 <= i < j < |demands| ==> demands[i].forward != demands[j].forward
      modifies this
      ensures Valid()
      ensures Kept(old(used), old(byForward), used, byForward)
      ensures r.Allocated? ==> Answers(cidrs, old(used), old(byForward), used, demands, r.vips)
      ensures r.Allocated? ==> forall f, g :: f in r.vips && g in r.vips && f != g ==> r.vips[f] != r.vips[g]
      ensures r.NoCapacity? ==> forall p, a :: p in cidrs && InsideOf(p, a) ==> a in used
      ensures r.OutOfRange? ==> r.forward in old(byForward) && !InAny(cidrs, old(byForward)[r.forward])
      ensures forall a :: a in used && a !in old(used) ==> Demand(used[a], ViaExit) in demands
    {
      hide Usable, InsideOf, CursorOk, ValidPrefix, Contains, CursorsOk, InAny, Answers;
      ghost var table, owners := used, byForward;
      var vips: map<Id, Address> := map[];
      NothingAsked(cidrs, table, owners);
      for k := 0 to |demands|
        invariant Valid()
        invariant Kept(table, owners, used, byForward)
        invariant Answers(cidrs, table, owners, used, demands[..k], vips)
        invariant forall f :: f in byForward && f !in owners ==> Demand(f, ViaExit) in demands[..k]
        invariant forall a :: a in used && a !in table ==> Demand(used[a], ViaExit) in demands[..k]
      {
        assert demands[..k + 1] == demands[..k] + [demands[k]];
        var f := demands[k].forward;
        assert Demand(f, ViaExit) !in demands[..k];
        if demands[k].mode == ViaExit {
          if f in byForward {
            if !InAny(cidrs, byForward[f]) {
              return OutOfRange(f);
            }
            Answered(cidrs, table, owners, used, used, demands[..k], vips, f, byForward[f]);
            vips := vips[f := byForward[f]];
          } else {
            ghost var before := used;
            var next := Assign(f);
            if next.None? {
              return NoCapacity;
            }
            Answered(cidrs, table, owners, before, used, demands[..k], vips, f, next.value);
            vips := vips[f := next.value];
          }
        } else {
          NotAsked(cidrs, table, owners, used, demands[..k], vips, demands[k]);
        }
      }
      assert demands[..|demands|] == demands;
      Injective(cidrs, table, owners, used, demands, vips);
      return Allocated(vips);
    }
  }

  lemma NothingAsked(cidrs: seq<Prefix>, table: map<Address, Id>, owners: map<Id, Address>)
    ensures Answers(cidrs, table, owners, table, [], map[])
  {
  }

  lemma NotAsked(cidrs: seq<Prefix>, table: map<Address, Id>, owners: map<Id, Address>, used: map<Address, Id>,
                 demands: seq<Demand>, vips: map<Id, Address>, d: Demand)
    requires Answers(cidrs, table, owners, used, demands, vips) && d.mode != ViaExit
    ensures Answers(cidrs, table, owners, used, demands + [d], vips)
  {
    hide Usable, InAny;
  }

  lemma Answered(cidrs: seq<Prefix>, table: map<Address, Id>, owners: map<Id, Address>, before: map<Address, Id>,
                 used: map<Address, Id>, demands: seq<Demand>, vips: map<Id, Address>, f: Id, a: Address)
    requires Answers(cidrs, table, owners, before, demands, vips)
    requires forall b :: b in before ==> b in used && used[b] == before[b]
    requires a in used && used[a] == f && InAny(cidrs, a)
    requires if f in owners then a == owners[f] else a !in table && exists p :: p in cidrs && InsideOf(p, a)
    ensures Answers(cidrs, table, owners, used, demands + [Demand(f, ViaExit)], vips[f := a])
  {
    hide Usable, InAny;
  }

  /** An address in the table of one forward cannot be another one's. */
  lemma Injective(cidrs: seq<Prefix>, table: map<Address, Id>, owners: map<Id, Address>, used: map<Address, Id>,
                  demands: seq<Demand>, vips: map<Id, Address>)
    requires Answers(cidrs, table, owners, used, demands, vips)
    ensures forall f, g :: f in vips && g in vips && f != g ==> vips[f] != vips[g]
  {
    hide Usable, InAny;
  }

  /** Nothing already allocated is changed or given away. */
  predicate Kept(table: map<Address, Id>, owners: map<Id, Address>, used: map<Address, Id>, byForward: map<Id, Address>) {
    && (forall a :: a in table ==> a in used && used[a] == table[a])
    && forall f :: f in owners ==> f in byForward && byForward[f] == owners[f]
  }

  /** Exactly the demands for an exit path are answered: with the address the forward had, or with a
      usable one that was free; always inside the service range. */
  ghost predicate Answers(cidrs: seq<Prefix>, table: map<Address, Id>, owners: map<Id, Address>, used: map<Address, Id>,
                          demands: seq<Demand>, vips: map<Id, Address>) {
    && (forall f :: f in vips <==> Demand(f, ViaExit) in demands)
    && (forall f :: f in vips ==> vips[f] in used && used[vips[f]] == f && InAny(cidrs, vips[f]))
    && (forall f :: f in vips && f in owners ==> vips[f] == owners[f])
    && forall f :: f in vips && f !in owners ==> vips[f] !in table && exists p :: p in cidrs && InsideOf(p, vips[f])
  }

  lemma UsableInAny(cidrs: seq<Prefix>, a: Address)
    requires exists p :: p in cidrs && InsideOf(p, a)
    ensures InAny(cidrs, a)
  {
    var p :| p in cidrs && InsideOf(p, a);
    UsableIsContained(p, a);
  }
}
