/** The order of identifiers, and why sorting by a strict order leaves nothing to chance. */
module Ordering {

  /** Byte-wise order of strings, as the language's `<` on strings. */
  predicate Before(a: string, b: string) {
    if a == "" then b != ""
    else if b == "" then false
    else a[0] < b[0] || (a[0] == b[0] && Before(a[1..], b[1..]))
  }

  /** At the first place where two strings differ, the smaller character comes before the larger one, and the
      end of a string before anything. */
  lemma {:induction false} BeforeAtDifference(a: string, b: string, k: nat)
    requires k <= |a| && k <= |b| && a[..k] == b[..k]
    ensures k < |a| && k < |b| && a[k] < b[k] ==> Before(a, b)
    ensures k == |a| < |b| ==> Before(a, b)
    decreases k
  {
    if k > 0 {
      assert a[0] == a[..k][0] == b[..k][0] == b[0];
      assert a[1..][..k - 1] == a[..k][1..] && b[1..][..k - 1] == b[..k][1..];
      BeforeAtDifference(a[1..], b[1..], k - 1);
      assert k < |a| ==> a[1..][k - 1] == a[k];
      assert k < |b| ==> b[1..][k - 1] == b[k];
    }
  }

  lemma {:induction false} BeforeIsStrict(a: string, b: string)
    ensures !(Before(a, b) && Before(b, a))
    ensures a == b ==> !Before(a, b)
  {
    if a != "" && b != "" {
      BeforeIsStrict(a[1..], b[1..]);
    }
  }

  lemma {:induction false} BeforeIsTotal(a: string, b: string)
    ensures a == b || Before(a, b) || Before(b, a)
  {
    if a != "" && b != "" {
      BeforeIsTotal(a[1..], b[1..]);
      assert a == [a[0]] + a[1..] && b == [b[0]] + b[1..];
    }
  }

  lemma {:induction false} BeforeIsTransitive(a: string, b: string, c: string)
    requires Before(a, b) && Before(b, c)
    ensures Before(a, c)
  {
    if a != "" && b != "" && c != "" && a[0] == b[0] == c[0] {
      BeforeIsTransitive(a[1..], b[1..], c[1..]);
    }
  }

  ghost predicate StrictTotal<T(!new)>(less: (T, T) -> bool) {
    && (forall a, b :: less(a, b) ==> !less(b, a))
    && (forall a, b :: a == b || less(a, b) || less(b, a))
    && (forall a, b, c :: less(a, b) && less(b, c) ==> less(a, c))
  }

  predicate Sorted<T>(s: seq<T>, less: (T, T) -> bool) {
    forall i, j :: 0 <= i < j < |s| ==> less(s[i], s[j])
  }

  /** Whatever sorting algorithm is used, the outcome is determined by the elements. */
  lemma {:induction false} SortedIsUnique<T(!new)>(s: seq<T>, t: seq<T>, less: (T, T) -> bool)
    requires StrictTotal(less)
    requires Sorted(s, less) && Sorted(t, less)
    requires forall x :: x in s <==> x in t
    ensures s == t
  {
    assert s != [] ==> s[0] in s;
    assert t != [] ==> t[0] in t;
    if s != [] {
      SameHead(s, t, less);
      forall x
        ensures x in s[1..] <==> x in t[1..]
      {
        SortedTail(s, x, less);
        SortedTail(t, x, less);
      }
      SortedIsUnique(s[1..], t[1..], less);
      assert s == [s[0]] + s[1..] && t == [t[0]] + t[1..];
    }
  }

  lemma SameHead<T(!new)>(s: seq<T>, t: seq<T>, less: (T, T) -> bool)
    requires StrictTotal(less)
    requires Sorted(s, less) && Sorted(t, less)
    requires forall x :: x in s <==> x in t
    requires s != [] && t != []
    ensures s[0] == t[0]
  {
    assert s[0] in s && t[0] in t;
    var i :| 0 <= i < |t| && t[i] == s[0];
    var j :| 0 <= j < |s| && s[j] == t[0];
    assert i > 0 ==> less(t[0], t[i]);
    assert j > 0 ==> less(s[0], s[j]);
  }

  lemma SortedTail<T(!new)>(s: seq<T>, x: T, less: (T, T) -> bool)
    requires StrictTotal(less)
    requires Sorted(s, less) && s != []
    ensures x in s[1..] <==> x in s && x != s[0]
  {
    if x in s[1..] {
      var i :| 0 <= i < |s| - 1 && s[1..][i] == x;
      assert less(s[0], s[i + 1]);
    }
    if x in s && x != s[0] {
      var i :| 0 <= i < |s| && s[i] == x;
      assert s[1..][i - 1] == x;
    }
  }

  /** Insertion into a sorted list. */
  method Insert<T(!new)>(s: seq<T>, x: T, less: (T, T) -> bool) returns (r: seq<T>)
    requires StrictTotal(less)
    requires Sorted(s, less) && x !in s
    ensures Sorted(r, less)
    ensures |r| == |s| + 1
    ensures forall y :: y in r <==> y == x || y in s
  {
    var i := 0;
    while i < |s| && less(s[i], x)
      invariant 0 <= i <= |s|
      invariant forall k :: 0 <= k < i ==> less(s[k], x)
    {
      i := i + 1;
    }
    r := s[..i] + [x] + s[i..];
    forall k | i <= k < |s|
      ensures less(x, s[k])
    {
      assert s[i] in s && s[k] in s;
      assert less(x, s[i]);
    }
    forall y
      ensures y in r <==> y == x || y in s
    {
      assert s == s[..i] + s[i..];
    }
  }

  /** Sorting the elements of a set, which are visited in any order. */
  method SortSet<T(!new, ==)>(elements: set<T>, less: (T, T) -> bool) returns (sorted: seq<T>)
    requires StrictTotal(less)
    ensures Sorted(sorted, less)
    ensures forall x :: x in sorted <==> x in elements
  {
    sorted := [];
    var rest := elements;
    while rest != {}
      invariant rest <= elements && Sorted(sorted, less)
      invariant forall x :: x in sorted <==> x in elements - rest
      decreases |rest|
    {
      var x :| x in rest;
      rest := rest - {x};
      sorted := Insert(sorted, x, less);
    }
  }

  function ById(): (string, string) -> bool {
    (a, b) => Before(a, b)
  }

  lemma ByIdIsStrictTotal()
    ensures StrictTotal(ById())
  {
    var less := ById();
    forall a, b
      ensures less(a, b) ==> !less(b, a)
      ensures a == b || less(a, b) || less(b, a)
    {
      BeforeIsStrict(a, b);
      BeforeIsTotal(a, b);
    }
    forall a, b, c | less(a, b) && less(b, c)
      ensures less(a, c)
    {
      BeforeIsTransitive(a, b, c);
    }
  }

  method SortIds(ids: set<string>) returns (sorted: seq<string>)
    ensures Sorted(sorted, ById())
    ensures forall x :: x in sorted <==> x in ids
  {
    ByIdIsStrictTotal();
    sorted := SortSet(ids, ById());
  }
}
