/** Which of the changed forwards a canary wave carries (selectCanary). */
module CanarySelection {
  import opened Spec
  import opened Ordering

  /** Candidates are ordered by the hash of plan and forward, ties by identifier. `hash`
      stands for the digest of the two, read as a big-endian number. */
  predicate Precedes(hash: Id -> nat, a: Id, b: Id) {
    hash(a) < hash(b) || (hash(a) == hash(b) && Before(a, b))
  }

  function Order(hash: Id -> nat): (Id, Id) -> bool {
    (a, b) => Precedes(hash, a, b)
  }

  lemma PrecedesIsStrictTotal(hash: Id -> nat)
    ensures StrictTotal(Order(hash))
  {
    var less := Order(hash);
    forall a, b
      ensures less(a, b) ==> !less(b, a)
      ensures a == b || less(a, b) || less(b, a)
    {
      BeforeIsStrict(a, b);
      BeforeIsTotal(a, b);
    }
    forall a, b, c | less(a, b) && less(b, c)
      ensures less(a, c)
    {
      if Before(a, b) && Before(b, c) {
        BeforeIsTransitive(a, b, c);
      }
    }
  }

  /** `chosen` is the `count` candidates that precede all others. */
  ghost predicate IsFirst(hash: Id -> nat, ids: set<Id>, chosen: set<Id>, count: nat) {
    && chosen <= ids && |chosen| == count
    && forall a, b :: a in chosen && b in ids - chosen ==> Precedes(hash, a, b)
  }

  /** Of two initial sections of the order, the smaller is contained in the larger. */
  lemma FirstAreNested(hash: Id -> nat, ids: set<Id>, small: set<Id>, m: nat, large: set<Id>, n: nat)
    requires IsFirst(hash, ids, small, m) && IsFirst(hash, ids, large, n) && m <= n
    ensures small <= large
  {
    if large <= small {
      SubsetOfSameSize(large, small);
    } else {
      var b :| b in large && b !in small;
      forall a | a in small
        ensures a in large
      {
        BeforeIsStrict(a, b);
        assert b in ids - small;
        assert a !in large ==> a in ids - large;
      }
    }
  }

  lemma SubsetOfSameSize(a: set<Id>, b: set<Id>)
    requires a <= b && |b| <= |a|
    ensures a == b
  {
    assert b == a + (b - a);
  }

  lemma FirstIsUnique(hash: Id -> nat, ids: set<Id>, chosen: set<Id>, other: set<Id>, count: nat)
    requires IsFirst(hash, ids, chosen, count) && IsFirst(hash, ids, other, count)
    ensures chosen == other
  {
    FirstAreNested(hash, ids, chosen, count, other, count);
    FirstAreNested(hash, ids, other, count, chosen, count);
  }

  function CeilPercent(n: nat, percent: nat): nat {
    (n * percent + 99) / 100
  }

  /** A canary wave needs at least two candidates and must leave some of them for later. */
  predicate Splits(n: nat, percent: nat) {
    percent < 100 && 2 <= n && 0 < CeilPercent(n, percent) < n
  }

  ghost function CanarySet(hash: Id -> nat, ids: set<Id>, percent: nat): (canary: set<Id>)
    ensures canary <= ids
    ensures canary != {} <==> Splits(|ids|, percent)
    ensures canary != {} ==> IsFirst(hash, ids, canary, CeilPercent(|ids|, percent)) && canary != ids
  {
    if !Splits(|ids|, percent) then {}
    else
      FirstExists(hash, ids, CeilPercent(|ids|, percent));
      var c :| IsFirst(hash, ids, c, CeilPercent(|ids|, percent));
      c
  }

  lemma {:induction false} FirstExists(hash: Id -> nat, ids: set<Id>, count: nat)
    requires count <= |ids|
    ensures exists c :: IsFirst(hash, ids, c, count)
    decreases count
  {
    if count == 0 {
      assert IsFirst(hash, ids, {}, 0);
    } else {
      FirstExists(hash, ids, count - 1);
      var c :| IsFirst(hash, ids, c, count - 1);
      var rest := ids - c;
      assert ids == c + rest;
      var x := Least(hash, rest);
      var bigger := c + {x};
      assert IsFirst(hash, ids, bigger, count);
    }
  }

  lemma {:induction false} Least(hash: Id -> nat, ids: set<Id>) returns (x: Id)
    requires ids != {}
    ensures x in ids
    ensures forall b :: b in ids - {x} ==> Precedes(hash, x, b)
  {
    var y :| y in ids;
    var rest := ids - {y};
    if rest == {} {
      x := y;
      assert ids == {y};
    } else {
      var z := Least(hash, rest);
      PrecedesIsStrictTotal(hash);
      var less := Order(hash);
      assert y != z;
      assert less(y, z) || less(z, y);
      x := if Precedes(hash, y, z) then y else z;
      forall b | b in ids - {x}
        ensures Precedes(hash, x, b)
      {
        if b != y && b != z {
          assert less(z, b);
          assert x == y ==> less(y, z) && less(y, b);
        }
      }
    }
  }

  /** The share is rounded up. */
  lemma ShareIsRoundedUp(n: nat, percent: nat)
    ensures var count := CeilPercent(n, percent); 100 * count - 100 < n * percent <= 100 * count
  {
  }

  /** The canary carries the rounded-up share of the forwards, and raising the percentage only
      adds to it as long as both percentages split the rollout. */
  lemma CanariesGrow(hash: Id -> nat, ids: set<Id>, p: nat, q: nat)
    requires p <= q
    ensures CanarySet(hash, ids, p) != {} ==>
      var count := |CanarySet(hash, ids, p)|;
      100 * (count - 1) < |ids| * p <= 100 * count && 0 < count < |ids| && p < 100
    ensures CanarySet(hash, ids, p) == {} ==> p >= 100 || |ids| < 2 || |ids| * p == 0 || |ids| * p > 100 * (|ids| - 1)
    ensures Splits(|ids|, p) && Splits(|ids|, q) ==> CanarySet(hash, ids, p) <= CanarySet(hash, ids, q)
  {
    var n := |ids|;
    ShareIsRoundedUp(n, p);
    if Splits(n, p) && Splits(n, q) {
      assert n * p <= n * q;
      assert CeilPercent(n, p) <= CeilPercent(n, q);
      FirstAreNested(hash, ids, CanarySet(hash, ids, p), CeilPercent(n, p),
                     CanarySet(hash, ids, q), CeilPercent(n, q));
    }
  }

  /** selectCanary: the first share of the sorted candidates, and the remainder. No canary
      means that everything is released in one wave. */
  method SelectCanary(hash: Id -> nat, ids: set<Id>, percent: nat) returns (canary: set<Id>, remainder: set<Id>)
    ensures canary == CanarySet(hash, ids, percent)
    ensures remainder == ids - canary
    ensures SmallestHashes(hash, canary, remainder)
  {
    hide SmallestHashes;
    NoHashes(hash, ids);
    if percent >= 100 || |ids| < 2 {
      return {}, ids;
    }
    var candidates := SortCandidates(hash, ids);
    var count := CeilPercent(|candidates|, percent);
    if count <= 0 || count >= |candidates| {
      return {}, ids;
    }
    canary, remainder := {}, {};
    for index := 0 to |candidates|
      invariant canary == Elements(candidates[..Min(index, count)])
      invariant remainder == if index <= count then {} else Elements(candidates[count..index])
    {
      var id := candidates[index];
      if index < count {
        assert candidates[..index + 1] == candidates[..index] + [id];
        canary := canary + {id};
      } else {
        assert candidates[count..index + 1] == candidates[count..index] + [id];
        remainder := remainder + {id};
      }
    }
    assert candidates[count..|candidates|] == candidates[count..];
    PrefixIsFirst(hash, ids, candidates, count);
    FirstIsUnique(hash, ids, canary, CanarySet(hash, ids, percent), count);
    assert remainder == ids - canary;
    FirstHashIsSmallest(hash, ids, canary, count);
  }

  /** Whatever is in the canary hashes lower than what is not, or as low with the smaller identifier. */
  predicate SmallestHashes(hash: Id -> nat, canary: set<Id>, remainder: set<Id>) {
    forall a, b :: a in canary && b in remainder ==> hash(a) <= hash(b) && (hash(a) == hash(b) ==> Before(a, b))
  }

  lemma NoHashes(hash: Id -> nat, ids: set<Id>)
    ensures SmallestHashes(hash, {}, ids)
  {
  }

  lemma FirstHashIsSmallest(hash: Id -> nat, ids: set<Id>, canary: set<Id>, count: nat)
    requires IsFirst(hash, ids, canary, count)
    ensures SmallestHashes(hash, canary, ids - canary)
  {
  }

  function Min(a: nat, b: nat): nat {
    if a < b then a else b
  }

  function Elements(s: seq<Id>): set<Id> {
    set x | x in s
  }

  lemma PrefixIsFirst(hash: Id -> nat, ids: set<Id>, sorted: seq<Id>, count: nat)
    requires Sorted(sorted, Order(hash))
    requires Elements(sorted) == ids && count <= |sorted|
    ensures IsFirst(hash, ids, Elements(sorted[..count]), count)
    ensures Elements(sorted[count..]) == ids - Elements(sorted[..count])
    ensures |ids| == |sorted|
  {
    PrecedesIsStrictTotal(hash);
    var less := Order(hash);
    assert sorted == sorted[..count] + sorted[count..];
    forall a, b | a in sorted[..count] && b in sorted[count..]
      ensures less(a, b) && a != b
    {
      var i :| 0 <= i < count && sorted[i] == a;
      var j :| 0 <= j < |sorted| - count && sorted[count..][j] == b;
      assert less(sorted[i], sorted[count + j]);
    }
    DistinctSize(sorted, less);
    assert Sorted(sorted[..count], less);
    DistinctSize(sorted[..count], less);
  }

  lemma TailElements(s: seq<Id>)
    requires s != []
    ensures Elements(s) == {s[0]} + Elements(s[1..]) && (s[0] in Elements(s[1..]) <==> s[0] in s[1..])
  {
    assert s == [s[0]] + s[1..];
  }

  lemma {:induction false} DistinctSize(s: seq<Id>, less: (Id, Id) -> bool)
    requires StrictTotal(less) && Sorted(s, less)
    ensures |Elements(s)| == |s|
  {
    if s != [] {
      SortedTail(s, s[0], less);
      TailElements(s);
      assert Sorted(s[1..], less);
      hide Sorted, StrictTotal, Elements;
      DistinctSize(s[1..], less);
    }
  }

  method SortCandidates(hash: Id -> nat, ids: set<Id>) returns (sorted: seq<Id>)
    ensures Sorted(sorted, Order(hash))
    ensures Elements(sorted) == ids && |sorted| == |ids|
  {
    PrecedesIsStrictTotal(hash);
    sorted := SortSet(ids, Order(hash));
    assert Elements(sorted) == ids;
    DistinctSize(sorted, Order(hash));
  }
}
