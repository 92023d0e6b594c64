/**
 Orders on strings, and sorting by a strict order.

 Strings compare by their first difference. A sorting lists the elements of a set, each once, in
 increasing order; it is unique, and insertion sort computes it.
 */
module Ordering {

  /** Strings compare by their first difference, a prefix before what extends it. */
  predicate StringLess(a: string, b: string) {
    if b == "" then false
    else if a == "" then true
    else if a[0] != b[0] then a[0] < b[0]
    else StringLess(a[1..], b[1..])
  }

  lemma {:induction false} StringLessIrreflexive(a: string)
    ensures !StringLess(a, a)
  {
    if a != "" {
      StringLessIrreflexive(a[1..]);
    }
  }

  lemma {:induction false} StringLessTotal(a: string, b: string)
    ensures a == b || StringLess(a, b) || StringLess(b, a)
  {
    if a != "" && b != "" && a[0] == b[0] {
      StringLessTotal(a[1..], b[1..]);
      assert a == [a[0]] + a[1..] && b == [b[0]] + b[1..];
    }
  }

  lemma {:induction false} StringLessTransitive(a: string, b: string, c: string)
    requires StringLess(a, b) && StringLess(b, c)
    ensures StringLess(a, c)
  {
    if a != "" && a[0] == b[0] && b[0] == c[0] {
      StringLessTransitive(a[1..], b[1..], c[1..]);
    }
  }

  // ---- Sorting a set by a strict order ----

  ghost predicate Irreflexive<T(!new)>(less: (T, T) -> bool) {
    forall x :: !less(x, x)
  }

  ghost predicate Transitive<T(!new)>(less: (T, T) -> bool) {
    forall x, y, z :: less(x, y) && less(y, z) ==> less(x, z)
  }

  ghost predicate StrictOrder<T(!new)>(less: (T, T) -> bool) {
    Irreflexive(less) && Transitive(less)
  }

  ghost predicate TotalOn<T>(less: (T, T) -> bool, s: set<T>) {
    forall x, y :: x in s && y in s && x != y ==> less(x, y) || less(y, x)
  }

  ghost predicate Increasing<T>(less: (T, T) -> bool, r: seq<T>) {
    forall i, j {:trigger r[i], r[j]} :: 0 <= i < j < |r| ==> less(r[i], r[j])
  }

  function Elements<T>(xs: seq<T>): set<T> {
    set x | x in xs
  }

  /** The elements of the set, each once, in increasing order. */
  ghost predicate IsSorting<T>(less: (T, T) -> bool, s: set<T>, r: seq<T>) {
    Increasing(less, r) && Elements(r) == s
  }

  predicate NoRepeats<T(==)>(xs: seq<T>) {
    forall i, j {:trigger xs[i], xs[j]} :: 0 <= i < j < |xs| ==> xs[i] != xs[j]
  }

  lemma Appended<T>(xs: seq<T>, x: T)
    ensures Elements(xs + [x]) == Elements(xs) + {x}
    ensures NoRepeats(xs) && x !in Elements(xs) ==> NoRepeats(xs + [x])
  {
    if NoRepeats(xs) && x !in Elements(xs) {
      forall i, j {:trigger (xs + [x])[i], (xs + [x])[j]} | 0 <= i < j < |xs + [x]|
        ensures (xs + [x])[i] != (xs + [x])[j]
      {
        assert (xs + [x])[i] == xs[i] && xs[i] in Elements(xs);
      }
    }
  }

  lemma Concatenated<T>(a: seq<T>, b: seq<T>)
    requires NoRepeats(a) && NoRepeats(b) && Elements(a) !! Elements(b)
    ensures NoRepeats(a + b) && Elements(a + b) == Elements(a) + Elements(b)
  {
    forall i, j {:trigger (a + b)[i], (a + b)[j]} | 0 <= i < j < |a + b| ensures (a + b)[i] != (a + b)[j] {
      if i < |a| <= j {
        assert (a + b)[i] in Elements(a) && (a + b)[j] in Elements(b);
      }
    }
  }

  /** The next element of a sequence without repeats is new to the prefix before it. */
  lemma PrefixStep<T>(xs: seq<T>, n: nat)
    requires n < |xs|
    ensures xs[..n + 1] == xs[..n] + [xs[n]]
    ensures Elements(xs[..n + 1]) == Elements(xs[..n]) + {xs[n]}
    ensures Elements(xs[..n + 1]) <= Elements(xs)
    ensures NoRepeats(xs) ==> xs[n] !in Elements(xs[..n])
  {
    assert xs[..n + 1] == xs[..n] + [xs[n]];
    Appended(xs[..n], xs[n]);
  }

  lemma {:induction false} NoRepeatsCounts<T>(xs: seq<T>)
    requires NoRepeats(xs)
    ensures |Elements(xs)| == |xs|
    decreases |xs|
  {
    if xs != [] {
      var init, last := xs[..|xs| - 1], xs[|xs| - 1];
      NoRepeatsCounts(init);
      assert xs == init + [last];
      assert Elements(xs) == Elements(init) + {last};
      assert last !in Elements(init);
    }
  }

  lemma {:induction false} SubsetSize<T>(a: set<T>, b: set<T>)
    requires a <= b
    ensures |a| <= |b|
    decreases |a|
  {
    if a != {} {
      var x :| x in a;
      SubsetSize(a - {x}, b - {x});
    }
  }

  lemma FirstIsLeast<T(!new)>(less: (T, T) -> bool, s: set<T>, r: seq<T>)
    requires StrictOrder(less) && IsSorting(less, s, r) && r != []
    ensures r[0] in s && forall y :: y in s && y != r[0] ==> less(r[0], y)
    ensures IsSorting(less, s - {r[0]}, r[1..])
  {
    assert r[0] in Elements(r);
    forall y | y in s && y != r[0] ensures less(r[0], y) {
      assert y in Elements(r);
      var k :| 0 <= k < |r| && r[k] == y;
    }
    forall y ensures y in Elements(r[1..]) <==> y in s - {r[0]} {
      if y in r[1..] {
        var k :| 0 <= k < |r[1..]| && r[1..][k] == y;
        assert r[k + 1] == y && r[k + 1] in Elements(r);
      }
    }
  }

  lemma SortingEmpty<T(!new)>(less: (T, T) -> bool, s: set<T>, r: seq<T>)
    requires IsSorting(less, s, r)
    ensures r == [] <==> s == {}
  {
    if r != [] {
      assert r[0] in Elements(r);
    }
  }

  /** A set has one sorting. */
  lemma {:induction false} SortingUnique<T(!new)>(less: (T, T) -> bool, s: set<T>, a: seq<T>, b: seq<T>)
    requires StrictOrder(less) && IsSorting(less, s, a) && IsSorting(less, s, b)
    ensures a == b
    decreases |a|
  {
    SortingEmpty(less, s, a);
    SortingEmpty(less, s, b);
    if a != [] {
      FirstIsLeast(less, s, a);
      FirstIsLeast(less, s, b);
      SortingUnique(less, s - {a[0]}, a[1..], b[1..]);
      assert a == [a[0]] + a[1..] && b == [b[0]] + b[1..];
    }
  }

  /** The position where x belongs in an increasing sequence. */
  method InsertionPoint<T(!new)>(less: (T, T) -> bool, r: seq<T>, x: T) returns (k: nat)
    requires StrictOrder(less) && Increasing(less, r) && x !in r
    requires forall y :: y in r ==> less(x, y) || less(y, x)
    ensures k <= |r|
    ensures forall i {:trigger r[i]} :: 0 <= i < k ==> less(r[i], x)
    ensures forall i {:trigger r[i]} :: k <= i < |r| ==> less(x, r[i])
  {
    k := 0;
    while k < |r| && less(r[k], x)
      invariant 0 <= k <= |r|
      invariant forall i {:trigger r[i]} :: 0 <= i < k ==> less(r[i], x)
    {
      k := k + 1;
    }
    if k < |r| {
      assert r[k] in r;
      forall i {:trigger r[i]} | k <= i < |r| ensures less(x, r[i]) {
        assert i > k ==> less(r[k], r[i]);
      }
    }
  }

  /** Sort values that the order tells apart. */
  method Sort<T(!new)>(less: (T, T) -> bool, xs: seq<T>) returns (r: seq<T>)
    requires StrictOrder(less) && TotalOn(less, Elements(xs)) && NoRepeats(xs)
    ensures IsSorting(less, Elements(xs), r)
    ensures |r| == |xs|
  {
    r := [];
    for n := 0 to |xs|
      invariant IsSorting(less, Elements(xs[..n]), r) && |r| == n
    {
      var x := xs[n];
      assert xs[..n + 1] == xs[..n] + [x];
      assert forall y :: y in r ==> y in Elements(r);
      assert forall y :: y in xs[..n] ==> y in Elements(xs);
      assert x in Elements(xs);
      var k := InsertionPoint(less, r, x);
      ghost var before := r;
      r := r[..k] + [x] + r[k..];
      forall y ensures y in r <==> y in before || y == x {
        assert before == before[..k] + before[k..];
      }
      assert Elements(r) == Elements(before) + {x} == Elements(xs[..n + 1]);
    }
    assert xs[..|xs|] == xs;
  }
}
