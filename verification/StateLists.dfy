/** Desired states as the controller stores them, with lists, and what the lists stand for. Nothing
    the controller computes from a valid state depends on the order of its lists. */
module StateLists {
  import opened Spec
  import opened Ordering

  // ---------------------------------------------------------------- lists with keys

  predicate DistinctKeys<K(==), T>(xs: seq<T>, key: T -> K) {
    forall i, j :: 0 <= i < j < |xs| ==> key(xs[i]) != key(xs[j])
  }

  /** The map a list stands for; of two elements with the same key the later one counts. */
  function Mapped<K(==), T>(xs: seq<T>, key: T -> K): (m: map<K, T>)
    ensures forall k :: k in m ==> key(m[k]) == k && m[k] in xs
    ensures forall x :: x in xs ==> key(x) in m
  {
    if xs == [] then map[]
    else
      var last := xs[|xs| - 1];
      assert forall x :: x in xs ==> x in xs[..|xs| - 1] || x == last;
      Mapped(xs[..|xs| - 1], key)[key(last) := last]
  }

  lemma MappedNext<K, T>(xs: seq<T>, key: T -> K, i: nat)
    requires i < |xs|
    ensures Mapped(xs[..i + 1], key) == Mapped(xs[..i], key)[key(xs[i]) := xs[i]]
  {
    assert xs[..i + 1][..i] == xs[..i];
  }

  /** With distinct keys an element is found under its key, wherever it stands. */
  lemma {:induction false} MappedAt<K, T>(xs: seq<T>, key: T -> K, i: nat)
    requires DistinctKeys(xs, key) && i < |xs|
    ensures key(xs[i]) in Mapped(xs, key) && Mapped(xs, key)[key(xs[i])] == xs[i]
    decreases |xs|
  {
    var front := xs[..|xs| - 1];
    if i < |xs| - 1 {
      assert front[i] == xs[i] && DistinctKeys(front, key);
      MappedAt(front, key, i);
    }
  }

  // ---------------------------------------------------------------- the canonical order

  predicate SortedByKey<K, T>(xs: seq<T>, key: T -> K, less: (K, K) -> bool) {
    forall i, j :: 0 <= i < j < |xs| ==> less(key(xs[i]), key(xs[j]))
  }

  function Keys<K, T>(xs: seq<T>, key: T -> K): (ks: seq<K>)
    ensures |ks| == |xs| && forall i :: 0 <= i < |xs| ==> ks[i] == key(xs[i])
  {
    seq(|xs|, i requires 0 <= i < |xs| => key(xs[i]))
  }

  /** Sorted lists that stand for the same map are the same list. */
  lemma {:induction false} CanonicalIsUnique<K(!new), T>(xs: seq<T>, ys: seq<T>, key: T -> K, less: (K, K) -> bool)
    requires StrictTotal(less) && SortedByKey(xs, key, less) && SortedByKey(ys, key, less)
    requires Mapped(xs, key) == Mapped(ys, key)
    ensures xs == ys
  {
    hide Mapped;
    SortedIsDistinct(xs, key, less);
    SortedIsDistinct(ys, key, less);
    var ks, ls := Keys(xs, key), Keys(ys, key);
    forall k
      ensures k in ks <==> k in ls
    {
      SameKeys(xs, ys, key, k);
      SameKeys(ys, xs, key, k);
    }
    SortedIsUnique(ks, ls, less);
    forall i | 0 <= i < |xs|
      ensures xs[i] == ys[i]
    {
      MappedAt(xs, key, i);
      MappedAt(ys, key, i);
      assert ks[i] == ls[i];
    }
  }

  lemma {:induction false} SameKeys<K(!new), T>(xs: seq<T>, ys: seq<T>, key: T -> K, k: K)
    requires Mapped(xs, key) == Mapped(ys, key)
    ensures k in Keys(xs, key) ==> k in Keys(ys, key)
  {
    if k in Keys(xs, key) {
      var i :| 0 <= i < |xs| && Keys(xs, key)[i] == k;
      assert xs[i] in xs && k in Mapped(ys, key);
      var y := Mapped(ys, key)[k];
      var j :| 0 <= j < |ys| && ys[j] == y;
      assert Keys(ys, key)[j] == k;
    }
  }

  lemma SortedIsDistinct<K(!new), T>(xs: seq<T>, key: T -> K, less: (K, K) -> bool)
    requires StrictTotal(less) && SortedByKey(xs, key, less)
    ensures DistinctKeys(xs, key)
  {
    forall i, j | 0 <= i < j < |xs|
      ensures key(xs[i]) != key(xs[j])
    {
      assert less(key(xs[i]), key(xs[j]));
    }
  }

  /** sort.Slice by a key no two elements share. */
  method SortByKey<K(!new, ==), T(==)>(xs: seq<T>, key: T -> K, less: (K, K) -> bool) returns (sorted: seq<T>)
    requires StrictTotal(less) && DistinctKeys(xs, key)
    ensures SortedByKey(sorted, key, less)
    ensures Mapped(sorted, key) == Mapped(xs, key)
  {
    hide Mapped;
    sorted := [];
    for i := 0 to |xs|
      invariant SortedByKey(sorted, key, less)
      invariant forall x :: x in sorted <==> x in xs[..i]
    {
      assert xs[..i + 1] == xs[..i] + [xs[i]];
      forall x | x in sorted
        ensures key(x) != key(xs[i])
      {
        var j :| 0 <= j < i && xs[..i][j] == x;
        assert xs[j] == x;
      }
      sorted := InsertByKey(sorted, xs[i], key, less);
    }
    assert xs[..|xs|] == xs;
    SortedIsDistinct(sorted, key, less);
    SameElementsSameMap(sorted, xs, key);
  }

  method InsertByKey<K(!new, ==), T(==)>(xs: seq<T>, x: T, key: T -> K, less: (K, K) -> bool) returns (ys: seq<T>)
    requires StrictTotal(less) && SortedByKey(xs, key, less) && forall y :: y in xs ==> key(y) != key(x)
    ensures SortedByKey(ys, key, less)
    ensures forall y :: y in ys <==> y == x || y in xs
  {
    hide StrictTotal, SortedByKey;
    var i := 0;
    while i < |xs| && less(key(xs[i]), key(x))
      invariant 0 <= i <= |xs|
      invariant forall k :: 0 <= k < i ==> less(key(xs[k]), key(x))
    {
      i := i + 1;
    }
    ys := xs[..i] + [x] + xs[i..];
    assert xs == xs[..i] + xs[i..];
    assert i < |xs| ==> xs[i] in xs;
    InsertedIsSorted(xs, i, x, key, less);
  }

  lemma InsertedIsSorted<K(!new), T>(xs: seq<T>, i: nat, x: T, key: T -> K, less: (K, K) -> bool)
    requires StrictTotal(less) && SortedByKey(xs, key, less) && i <= |xs|
    requires forall k :: 0 <= k < i ==> less(key(xs[k]), key(x))
    requires i < |xs| ==> key(xs[i]) != key(x) && !less(key(xs[i]), key(x))
    ensures SortedByKey(xs[..i] + [x] + xs[i..], key, less)
  {
    forall k | i <= k < |xs|
      ensures less(key(x), key(xs[k]))
    {
      assert less(key(x), key(xs[i]));
    }
  }

  lemma {:induction false} SameElementsSameMap<K, T>(xs: seq<T>, ys: seq<T>, key: T -> K)
    requires DistinctKeys(xs, key) && DistinctKeys(ys, key) && forall x :: x in xs <==> x in ys
    ensures Mapped(xs, key) == Mapped(ys, key)
  {
    hide Mapped;
    var a, b := Mapped(xs, key), Mapped(ys, key);
    forall k | k in a
      ensures k in b && b[k] == a[k]
    {
      var j :| 0 <= j < |ys| && ys[j] == a[k];
      MappedAt(ys, key, j);
    }
    forall k | k in b
      ensures k in a
    {
      assert b[k] in xs;
    }
  }

  // ---------------------------------------------------------------- editing the lists of a rollout

  function ForwardKey(): Forward -> Id {
    (f: Forward) => f.id
  }

  /** upsertForward: afterwards the forward is there exactly once, everything else as before. */
  method UpsertForward(forwards: seq<Forward>, target: Forward) returns (result: seq<Forward>)
    requires DistinctKeys(forwards, ForwardKey())
    ensures DistinctKeys(result, ForwardKey())
    ensures Mapped(result, ForwardKey()) == Mapped(forwards, ForwardKey())[target.id := target]
  {
    hide Mapped;
    result := [];
    var replaced := false;
    for i := 0 to |forwards|
      invariant forall f :: f in result <==> (f in forwards[..i] && f.id != target.id) || (replaced && f == target)
      invariant replaced <==> exists k :: 0 <= k < i && forwards[k].id == target.id
      invariant DistinctKeys(result, ForwardKey())
    {
      var f := forwards[i];
      assert forwards[..i + 1] == forwards[..i] + [f];
      Elsewhere(forwards, i);
      if f.id == target.id {
        if !replaced {
          AppendDistinct(result, target, ForwardKey());
          result := result + [target];
          replaced := true;
        }
      } else {
        AppendDistinct(result, f, ForwardKey());
        result := result + [f];
      }
    }
    assert forwards[..|forwards|] == forwards;
    if !replaced {
      AppendDistinct(result, target, ForwardKey());
      result := result + [target];
    }
    Upserted(forwards, result, target);
  }

  lemma Elsewhere(forwards: seq<Forward>, i: nat)
    requires DistinctKeys(forwards, ForwardKey()) && i < |forwards|
    ensures forall f :: f in forwards[..i] ==> f.id != forwards[i].id
  {
    forall f | f in forwards[..i]
      ensures f.id != forwards[i].id
    {
      var j :| 0 <= j < i && forwards[..i][j] == f;
      assert ForwardKey()(forwards[j]) != ForwardKey()(forwards[i]);
    }
  }

  lemma AppendDistinct<K, T>(xs: seq<T>, x: T, key: T -> K)
    requires DistinctKeys(xs, key)
    ensures (forall y :: y in xs ==> key(y) != key(x)) ==> DistinctKeys(xs + [x], key)
  {
  }

  lemma {:induction false} Upserted(forwards: seq<Forward>, result: seq<Forward>, target: Forward)
    requires DistinctKeys(forwards, ForwardKey()) && DistinctKeys(result, ForwardKey())
    requires forall f :: f in result <==> (f in forwards && f.id != target.id) || f == target
    ensures Mapped(result, ForwardKey()) == Mapped(forwards, ForwardKey())[target.id := target]
  {
    hide Mapped;
    var key := ForwardKey();
    var a, b := Mapped(result, key), Mapped(forwards, key)[target.id := target];
    forall k | k in a
      ensures k in b && b[k] == a[k]
    {
      if k != target.id {
        FoundAt(forwards, a[k], key);
      }
    }
    forall k | k in b
      ensures k in a
    {
      assert k == target.id || b[k] in result;
    }
    if target.id in a {
      FoundAt(result, target, key);
    }
  }

  lemma {:induction false} FoundAt<K, T>(xs: seq<T>, x: T, key: T -> K)
    requires DistinctKeys(xs, key) && x in xs
    ensures key(x) in Mapped(xs, key) && Mapped(xs, key)[key(x)] == x
  {
    var i :| 0 <= i < |xs| && xs[i] == x;
    MappedAt(xs, key, i);
  }

  /** removeForward. */
  method RemoveForward(forwards: seq<Forward>, id: Id) returns (result: seq<Forward>)
    requires DistinctKeys(forwards, ForwardKey())
    ensures DistinctKeys(result, ForwardKey())
    ensures Mapped(result, ForwardKey()) == Mapped(forwards, ForwardKey()) - {id}
  {
    hide Mapped;
    result := [];
    for i := 0 to |forwards|
      invariant forall f :: f in result <==> f in forwards[..i] && f.id != id
      invariant DistinctKeys(result, ForwardKey())
    {
      var f := forwards[i];
      assert forwards[..i + 1] == forwards[..i] + [f];
      Elsewhere(forwards, i);
      if f.id != id {
        AppendDistinct(result, f, ForwardKey());
        result := result + [f];
      }
    }
    assert forwards[..|forwards|] == forwards;
    var key := ForwardKey();
    var a, b := Mapped(result, key), Mapped(forwards, key) - {id};
    forall k | k in a
      ensures k in b && b[k] == a[k]
    {
      FoundAt(forwards, a[k], key);
    }
    forall k | k in b
      ensures k in a
    {
      assert b[k] in result;
    }
  }

  /** The four merge functions: final elements override current ones with the same key; the result
      comes out in whatever order the map is visited. */
  method MergeByKey<K(!new, ==), T(==)>(current: seq<T>, final: seq<T>, key: T -> K) returns (result: seq<T>)
    ensures DistinctKeys(result, key)
    ensures Mapped(result, key) == Mapped(current, key) + Mapped(final, key)
  {
    hide Mapped;
    var merged := Override(map[], current, key);
    merged := Override(merged, final, key);
    result := Values(merged, key);
  }

  /** Puts the elements of a list into a map, later ones over earlier ones. */
  method Override<K(!new, ==), T(==)>(before: map<K, T>, xs: seq<T>, key: T -> K) returns (merged: map<K, T>)
    ensures merged == before + Mapped(xs, key)
  {
    hide Mapped;
    merged := before;
    NothingMapped(xs, key);
    for i := 0 to |xs|
      invariant merged == before + Mapped(xs[..i], key)
    {
      MappedNext(xs, key, i);
      PutLast(before, Mapped(xs[..i], key), key(xs[i]), xs[i]);
      merged := merged[key(xs[i]) := xs[i]];
    }
    assert xs[..|xs|] == xs;
  }

  lemma PutLast<K, T>(a: map<K, T>, b: map<K, T>, k: K, x: T)
    ensures a + b[k := x] == (a + b)[k := x]
  {
  }

  lemma NothingMapped<K, T>(xs: seq<T>, key: T -> K)
    ensures Mapped(xs[..0], key) == map[]
  {
  }

  method Values<K(!new, ==), T(==)>(m: map<K, T>, key: T -> K) returns (result: seq<T>)
    requires forall k :: k in m ==> key(m[k]) == k
    ensures DistinctKeys(result, key) && Mapped(result, key) == m
  {
    hide Mapped;
    result := [];
    var rest := m.Keys;
    while rest != {}
      invariant rest <= m.Keys && DistinctKeys(result, key)
      invariant forall x :: x in result <==> key(x) in m.Keys - rest && x == m[key(x)]
      decreases |rest|
    {
      var k :| k in rest;
      rest := rest - {k};
      AppendDistinct(result, m[k], key);
      result := result + [m[k]];
    }
    forall k | k in m
      ensures k in Mapped(result, key) && Mapped(result, key)[k] == m[k]
    {
      assert key(m[k]) == k && m[k] in result;
      FoundAt(result, m[k], key);
    }
    forall k | k in Mapped(result, key)
      ensures k in m
    {
      assert Mapped(result, key)[k] in result;
    }
  }
}
