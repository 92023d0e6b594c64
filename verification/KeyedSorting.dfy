/**
 Sorting by a key, and sums over finite sets.

 A set with distinct keys has exactly one sorting, so a sort is a function of the set: whatever order
 the elements arrive in, the result is the same. The sums are independent of order as well, which is
 what lets the cost of a selection be a property of the selection.
 */
module KeyedSorting {
  import opened Ordering

  /** The sort keys of the program: up to three numbers, then perhaps a group, then an identifier. */
  datatype Key = Key(first: int, second: int, third: int, id: string, group: string := "")

  predicate KeyLess(a: Key, b: Key) {
    if a.first != b.first then a.first < b.first
    else if a.second != b.second then a.second < b.second
    else if a.third != b.third then a.third < b.third
    else if a.group != b.group then StringLess(a.group, b.group)
    else StringLess(a.id, b.id)
  }

  function ByKey<T>(key: T -> Key): (T, T) -> bool {
    (a, b) => KeyLess(key(a), key(b))
  }

  ghost predicate Injective<T>(key: T -> Key, s: set<T>) {
    forall a, b :: a in s && b in s && key(a) == key(b) ==> a == b
  }

  lemma KeyLessTransitive(a: Key, b: Key, c: Key)
    requires KeyLess(a, b) && KeyLess(b, c)
    ensures KeyLess(a, c)
  {
    if a.first == b.first == c.first && a.second == b.second == c.second && a.third == b.third == c.third {
      TextTransitive(a, b, c);
    }
  }

  lemma TextTransitive(a: Key, b: Key, c: Key)
    requires a.first == b.first == c.first && a.second == b.second == c.second && a.third == b.third == c.third
    requires KeyLess(a, b) && KeyLess(b, c)
    ensures KeyLess(a, c)
  {
    if a.group == b.group == c.group {
      StringLessTransitive(a.id, b.id, c.id);
    } else if a.group != b.group && b.group != c.group {
      StringLessTransitive(a.group, b.group, c.group);
      if a.group == c.group {
        StringLessIrreflexive(a.group);
      }
    }
  }

  lemma KeyLessTotal(a: Key, b: Key)
    ensures a == b || KeyLess(a, b) || KeyLess(b, a)
  {
    StringLessTotal(a.group, b.group);
    StringLessTotal(a.id, b.id);
  }

  lemma KeyLessAsymmetric(a: Key, b: Key)
    requires KeyLess(a, b)
    ensures !KeyLess(b, a)
  {
    if KeyLess(b, a) {
      KeyLessTransitive(a, b, a);
      StringLessIrreflexive(a.id);
    }
  }

  lemma ByKeyOrders<T(!new)>(key: T -> Key, s: set<T>)
    ensures StrictOrder(ByKey(key))
    ensures Injective(key, s) ==> TotalOn(ByKey(key), s)
  {
    forall x: T ensures !ByKey(key)(x, x) {
      StringLessIrreflexive(key(x).id);
    }
    forall x: T, y: T, z: T | ByKey(key)(x, y) && ByKey(key)(y, z) ensures ByKey(key)(x, z) {
      KeyLessTransitive(key(x), key(y), key(z));
    }
    if Injective(key, s) {
      forall x, y | x in s && y in s && x != y ensures ByKey(key)(x, y) || ByKey(key)(y, x) {
        KeyLessTotal(key(x), key(y));
      }
    }
  }

  /** A nonempty set with distinct keys has a least element. */
  lemma {:induction false} LeastExists<T(!new)>(key: T -> Key, s: set<T>) returns (least: T)
    requires s != {} && Injective(key, s)
    ensures least in s && forall y :: y in s && y != least ==> KeyLess(key(least), key(y))
    decreases |s|
  {
    var x :| x in s;
    least := x;
    if s != {x} {
      assert exists y :: y in s && y != x;
      var m := LeastExists(key, s - {x});
      KeyLessTotal(key(x), key(m));
      if KeyLess(key(x), key(m)) {
        forall y | y in s && y != x ensures KeyLess(key(x), key(y)) {
          if y != m {
            KeyLessTransitive(key(x), key(m), key(y));
          }
        }
      } else {
        least := m;
      }
    }
  }

  lemma {:induction false} SortingExists<T(!new)>(key: T -> Key, s: set<T>) returns (r: seq<T>)
    requires Injective(key, s)
    ensures IsSorting(ByKey(key), s, r)
    decreases |s|
  {
    r := [];
    if s != {} {
      var least := LeastExists(key, s);
      var rest := SortingExists(key, s - {least});
      r := [least] + rest;
      forall y ensures y in Elements(r) <==> y in s {
        assert y in Elements(rest) <==> y in s - {least};
      }
      forall i, j {:trigger r[i], r[j]} | 0 <= i < j < |r| ensures ByKey(key)(r[i], r[j]) {
        if i == 0 {
          assert rest[j - 1] in Elements(rest);
        }
      }
    }
  }

  /** The elements of a set in the order of their keys. */
  ghost function Sorted<T(!new)>(key: T -> Key, s: set<T>): (r: seq<T>)
    requires Injective(key, s)
    ensures IsSorting(ByKey(key), s, r)
  {
    assert exists r :: IsSorting(ByKey(key), s, r) by {
      var r := SortingExists(key, s);
    }
    var r :| IsSorting(ByKey(key), s, r);
    r
  }

  lemma SortedIs<T(!new)>(key: T -> Key, s: set<T>, r: seq<T>)
    requires Injective(key, s) && IsSorting(ByKey(key), s, r)
    ensures r == Sorted(key, s)
  {
    ByKeyOrders(key, s);
    SortingUnique(ByKey(key), s, r, Sorted(key, s));
  }

  lemma SortedNoRepeats<T(!new)>(key: T -> Key, s: set<T>)
    requires Injective(key, s)
    ensures NoRepeats(Sorted(key, s)) && Elements(Sorted(key, s)) == s && |Sorted(key, s)| == |s|
  {
    ByKeyOrders(key, s);
    NoRepeatsCounts(Sorted(key, s));
  }

  /** Sorting is a function of the set of elements, whatever order they come in. */
  method SortBy<T(!new)>(key: T -> Key, xs: seq<T>) returns (r: seq<T>)
    requires NoRepeats(xs) && Injective(key, Elements(xs))
    ensures r == Sorted(key, Elements(xs))
  {
    ByKeyOrders(key, Elements(xs));
    r := Sort(ByKey(key), xs);
    SortedIs(key, Elements(xs), r);
  }

  /** The element with the least key. */
  method Least<T(!new)>(key: T -> Key, xs: seq<T>) returns (least: T)
    requires xs != [] && Injective(key, Elements(xs))
    ensures least in xs && forall y :: y in xs && y != least ==> KeyLess(key(least), key(y))
  {
    least := xs[0];
    for n := 1 to |xs|
      invariant least in xs[..n]
      invariant forall y :: y in xs[..n] && y != least ==> KeyLess(key(least), key(y))
    {
      assert xs[..n + 1] == xs[..n] + [xs[n]];
      assert xs[n] in Elements(xs) && least in Elements(xs);
      KeyLessTotal(key(xs[n]), key(least));
      if KeyLess(key(xs[n]), key(least)) {
        forall y | y in xs[..n] && y != least ensures KeyLess(key(xs[n]), key(y)) {
          KeyLessTransitive(key(xs[n]), key(least), key(y));
        }
        least := xs[n];
      }
    }
    assert xs[..|xs|] == xs;
  }

  // ---- Sums over sets ----

  ghost function Total<T(!new)>(weight: T -> int, s: set<T>): int
    decreases |s|
  {
    if s == {} then 0
    else
      var x :| x in s;
      weight(x) + Total(weight, s - {x})
  }

  lemma {:induction false} TotalWithout<T(!new)>(weight: T -> int, s: set<T>, x: T)
    requires x in s
    ensures Total(weight, s) == weight(x) + Total(weight, s - {x})
    decreases |s|
  {
    var y :| y in s && Total(weight, s) == weight(y) + Total(weight, s - {y});
    if y != x {
      TotalWithout(weight, s - {y}, x);
      TotalWithout(weight, s - {x}, y);
      assert s - {y} - {x} == s - {x} - {y};
    }
  }

  lemma TotalWith<T(!new)>(weight: T -> int, s: set<T>, x: T)
    requires x !in s
    ensures Total(weight, s + {x}) == Total(weight, s) + weight(x)
  {
    TotalWithout(weight, s + {x}, x);
    assert s + {x} - {x} == s;
  }

  lemma {:induction false} TotalUnion<T(!new)>(weight: T -> int, a: set<T>, b: set<T>)
    requires a !! b
    ensures Total(weight, a + b) == Total(weight, a) + Total(weight, b)
    decreases |a|
  {
    if a == {} {
      assert a + b == b;
    } else {
      var x :| x in a;
      TotalWithout(weight, a, x);
      TotalWithout(weight, a + b, x);
      TotalUnion(weight, a - {x}, b);
      assert a + b - {x} == (a - {x}) + b;
    }
  }

  lemma {:induction false} TotalLinear<T(!new)>(v: T -> int, w: T -> int, s: set<T>, factor: int, offset: int)
    requires forall x :: x in s ==> v(x) <= factor * w(x) + offset
    ensures Total(v, s) <= factor * Total(w, s) + offset * |s|
    decreases |s|
  {
    if s != {} {
      var x :| x in s;
      TotalWithout(v, s, x);
      TotalWithout(w, s, x);
      TotalLinear(v, w, s - {x}, factor, offset);
      assert |s| == |s - {x}| + 1;
      calc {
        Total(v, s);
      <=
        factor * w(x) + offset + factor * Total(w, s - {x}) + offset * |s - {x}|;
      ==
        factor * (w(x) + Total(w, s - {x})) + offset * (|s - {x}| + 1);
      }
    }
  }

  lemma {:induction false} TotalAtLeast<T(!new)>(weight: T -> int, s: set<T>, floor: int)
    requires forall x :: x in s ==> weight(x) >= floor
    ensures Total(weight, s) >= floor * |s|
    decreases |s|
  {
    if s != {} {
      var x :| x in s;
      TotalWithout(weight, s, x);
      TotalAtLeast(weight, s - {x}, floor);
      assert |s| == |s - {x}| + 1;
      assert floor * |s| == floor * |s - {x}| + floor;
    }
  }
}
