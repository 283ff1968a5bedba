/** What Go's sort.Slice and sort.SliceStable promise, on a stable insertion sort, and ranging over maps. */
module Sorting {

  /** A strict weak order, as the comparison functions given to the sort must be. */
  ghost predicate StrictWeak<T(!new)>(less: (T, T) -> bool) {
    && (forall a, b :: less(a, b) ==> !less(b, a))
    && (forall a, b, c :: less(a, b) && less(b, c) ==> less(a, c))
    && (forall a, b, c :: !less(a, b) && !less(b, c) ==> !less(a, c))
  }

  ghost predicate Ordered<T>(less: (T, T) -> bool, xs: seq<T>) {
    forall i, j | 0 <= i < j < |xs| :: !less(xs[j], xs[i])
  }

  ghost predicate Strict<T>(less: (T, T) -> bool, xs: seq<T>) {
    forall i, j | 0 <= i < j < |xs| :: less(xs[i], xs[j])
  }

  /** Puts `x` behind everything that does not have to come after it. */
  function Insert<T>(less: (T, T) -> bool, xs: seq<T>, x: T): seq<T> {
    if xs == [] || !less(x, xs[|xs| - 1]) then xs + [x]
    else Insert(less, xs[..|xs| - 1], x) + [xs[|xs| - 1]]
  }

  function Sort<T>(less: (T, T) -> bool, xs: seq<T>): seq<T> {
    if xs == [] then [] else Insert(less, Sort(less, xs[..|xs| - 1]), xs[|xs| - 1])
  }

  lemma {:induction false} InsertPermutes<T>(less: (T, T) -> bool, xs: seq<T>, x: T)
    ensures multiset(Insert(less, xs, x)) == multiset(xs) + multiset{x}
  {
    if xs == [] {
    } else {
      InsertPermutes(less, xs[..|xs| - 1], x);
      assert xs == xs[..|xs| - 1] + [xs[|xs| - 1]];
    }
  }

  lemma {:induction false} SortPermutes<T>(less: (T, T) -> bool, xs: seq<T>)
    ensures multiset(Sort(less, xs)) == multiset(xs) && |Sort(less, xs)| == |xs|
    ensures forall x :: x in Sort(less, xs) <==> x in xs
  {
    if xs == [] {
    } else {
      SortPermutes(less, xs[..|xs| - 1]);
      InsertPermutes(less, Sort(less, xs[..|xs| - 1]), xs[|xs| - 1]);
      assert xs == xs[..|xs| - 1] + [xs[|xs| - 1]];
    }
    assert |multiset(Sort(less, xs))| == |multiset(xs)|;
    assert forall x :: x in Sort(less, xs) <==> x in multiset(Sort(less, xs));
  }

  lemma {:induction false} InsertOrders<T(!new)>(less: (T, T) -> bool, xs: seq<T>, x: T)
    requires StrictWeak(less) && Ordered(less, xs)
    ensures Ordered(less, Insert(less, xs, x))
  {
    if xs != [] && less(x, xs[|xs| - 1]) {
      var init, last := xs[..|xs| - 1], xs[|xs| - 1];
      InsertOrders(less, init, x);
      InsertPermutes(less, init, x);
      var ys := Insert(less, init, x);
      forall i | 0 <= i < |ys| ensures !less(last, ys[i]) {
        assert ys[i] in multiset(ys);
        assert ys[i] == x || ys[i] in init;
      }
    }
  }

  lemma {:induction false} SortOrders<T(!new)>(less: (T, T) -> bool, xs: seq<T>)
    requires StrictWeak(less)
    ensures Ordered(less, Sort(less, xs))
  {
    if xs == [] {
    } else {
      SortOrders(less, xs[..|xs| - 1]);
      InsertOrders(less, Sort(less, xs[..|xs| - 1]), xs[|xs| - 1]);
    }
  }

  /** Elements that are all comparable end up strictly ordered. */
  lemma {:induction false} SortStrict<T(!new)>(less: (T, T) -> bool, xs: seq<T>)
    requires StrictWeak(less) && forall i, j | 0 <= i < j < |xs| :: less(xs[i], xs[j]) || less(xs[j], xs[i])
    ensures Strict(less, Sort(less, xs))
  {
    SortOrders(less, xs);
    if xs == [] {
    } else {
      var init, x := xs[..|xs| - 1], xs[|xs| - 1];
      SortStrict(less, init);
      SortPermutes(less, init);
      InsertStrict(less, Sort(less, init), x);
    }
  }

  lemma {:induction false} InsertStrict<T(!new)>(less: (T, T) -> bool, xs: seq<T>, x: T)
    requires StrictWeak(less) && Strict(less, xs) && forall y | y in xs :: less(x, y) || less(y, x)
    ensures Strict(less, Insert(less, xs, x))
  {
    if xs == [] {
    } else {
      var init, last := xs[..|xs| - 1], xs[|xs| - 1];
      if less(x, last) {
        InsertStrict(less, init, x);
        InsertPermutes(less, init, x);
        var ys := Insert(less, init, x);
        forall i | 0 <= i < |ys| ensures less(ys[i], last) {
          assert ys[i] in multiset(ys);
          assert ys[i] == x || ys[i] in init;
        }
      } else {
        assert last in xs;
      }
    }
  }

  /** A strictly ordered arrangement is unique: the order in which the elements came does not matter. */
  lemma {:induction false} StrictUnique<T(!new)>(less: (T, T) -> bool, xs: seq<T>, ys: seq<T>)
    requires StrictWeak(less) && Strict(less, xs) && Strict(less, ys) && forall x :: x in xs <==> x in ys
    ensures xs == ys
  {
    assert xs != [] ==> xs[0] in ys;
    assert ys != [] ==> ys[0] in xs;
    if xs == [] {
    } else {
      assert xs[0] == ys[0];
      assert xs == [xs[0]] + xs[1..] && ys == [ys[0]] + ys[1..];
      forall x ensures x in xs[1..] <==> x in ys[1..] {
        assert x in xs[1..] ==> x in xs && less(xs[0], x);
        assert x in ys[1..] ==> x in ys && less(ys[0], x);
      }
      StrictUnique(less, xs[1..], ys[1..]);
    }
  }

  // ----- Stability

  predicate Alike<T>(less: (T, T) -> bool, a: T, b: T) {
    !less(a, b) && !less(b, a)
  }

  /** The elements that compare like `a`, in order. */
  function Class<T>(less: (T, T) -> bool, a: T, xs: seq<T>): seq<T> {
    if xs == [] then []
    else Class(less, a, xs[..|xs| - 1]) + if Alike(less, a, xs[|xs| - 1]) then [xs[|xs| - 1]] else []
  }

  lemma {:induction false} InsertStable<T(!new)>(less: (T, T) -> bool, xs: seq<T>, x: T, a: T)
    requires StrictWeak(less)
    ensures Class(less, a, Insert(less, xs, x)) == Class(less, a, xs) + if Alike(less, a, x) then [x] else []
  {
    if xs == [] || !less(x, xs[|xs| - 1]) {
      assert (xs + [x])[..|xs|] == xs;
    } else {
      var init, last := xs[..|xs| - 1], xs[|xs| - 1];
      InsertStable(less, init, x, a);
      var ys := Insert(less, init, x);
      assert (ys + [last])[..|ys|] == ys;
      assert Alike(less, a, x) ==> !Alike(less, a, last);
    }
  }

  /** Elements that compare alike keep the order they came in. */
  lemma {:induction false} SortStable<T(!new)>(less: (T, T) -> bool, xs: seq<T>, a: T)
    requires StrictWeak(less)
    ensures Class(less, a, Sort(less, xs)) == Class(less, a, xs)
  {
    if xs == [] {
    } else {
      SortStable(less, xs[..|xs| - 1], a);
      InsertStable(less, Sort(less, xs[..|xs| - 1]), xs[|xs| - 1], a);
    }
  }

  lemma {:induction false} ClassMembers<T>(less: (T, T) -> bool, a: T, xs: seq<T>)
    ensures forall x :: x in Class(less, a, xs) <==> x in xs && Alike(less, a, x)
  {
    if xs == [] {
    } else {
      ClassMembers(less, a, xs[..|xs| - 1]);
      assert xs == xs[..|xs| - 1] + [xs[|xs| - 1]];
    }
  }

  /** The last of an ordered list compares alike with that of any ordered list of the same classes. */
  lemma LastsAlike<T(!new)>(less: (T, T) -> bool, xs: seq<T>, ys: seq<T>)
    requires StrictWeak(less) && Ordered(less, xs) && Ordered(less, ys) && xs != [] && ys != []
    requires forall a :: Class(less, a, xs) == Class(less, a, ys)
    ensures Alike(less, xs[|xs| - 1], ys[|ys| - 1])
  {
    var x, y := xs[|xs| - 1], ys[|ys| - 1];
    assert Alike(less, x, x) && Alike(less, y, y);
    assert x in ys by {
      ClassMembers(less, x, xs);
      ClassMembers(less, x, ys);
    }
    assert y in xs by {
      ClassMembers(less, y, xs);
      ClassMembers(less, y, ys);
    }
    hide StrictWeak, Class;
  }

  /** Ordered and with equals in the same order, lists are the same: what a stable sort returns is determined. */
  lemma {:induction false} StableUnique<T(!new)>(less: (T, T) -> bool, xs: seq<T>, ys: seq<T>)
    requires StrictWeak(less) && Ordered(less, xs) && Ordered(less, ys)
    requires forall a :: Class(less, a, xs) == Class(less, a, ys)
    ensures xs == ys
  {
    if xs == [] || ys == [] {
      if xs != [] {
        NotEmptyClass(less, xs);
      } else if ys != [] {
        NotEmptyClass(less, ys);
      }
    } else {
      var xs', x, ys', y := xs[..|xs| - 1], xs[|xs| - 1], ys[..|ys| - 1], ys[|ys| - 1];
      LastsAlike(less, xs, ys);
      forall a ensures Class(less, a, xs') == Class(less, a, ys') && (Alike(less, a, x) ==> x == y) {
        assert Alike(less, a, x) <==> Alike(less, a, y);
        assert Class(less, a, xs) == Class(less, a, xs') + if Alike(less, a, x) then [x] else [];
        assert Class(less, a, ys) == Class(less, a, ys') + if Alike(less, a, y) then [y] else [];
        SameEnds(Class(less, a, xs'), Class(less, a, ys'), x, y);
      }
      assert Alike(less, x, x);
      StableUnique(less, xs', ys');
      assert xs == xs' + [x] && ys == ys' + [y];
    }
  }

  lemma NotEmptyClass<T(!new)>(less: (T, T) -> bool, xs: seq<T>)
    requires StrictWeak(less) && xs != []
    ensures Class(less, xs[|xs| - 1], xs) != []
  {
    assert Alike(less, xs[|xs| - 1], xs[|xs| - 1]);
  }

  lemma SameEnds<T>(a: seq<T>, b: seq<T>, x: T, y: T)
    ensures a + [x] == b + [y] ==> a == b && x == y
    ensures a + [] == b + [] ==> a == b
  {
    if a + [x] == b + [y] {
      assert |a| == |b| && (a + [x])[..|a|] == a && (b + [y])[..|b|] == b;
      assert (a + [x])[|a|] == x && (b + [y])[|b|] == y;
    }
    assert a + [] == a && b + [] == b;
  }

  /** Whatever stable sort is used: an ordered list that keeps the order of elements that compare alike is the one
      computed here. */
  lemma StableSortIsSort<T(!new)>(less: (T, T) -> bool, xs: seq<T>, ys: seq<T>)
    requires StrictWeak(less) && Ordered(less, ys) && forall a :: Class(less, a, ys) == Class(less, a, xs)
    ensures ys == Sort(less, xs)
  {
    SortOrders(less, xs);
    forall a ensures Class(less, a, Sort(less, xs)) == Class(less, a, xs) {
      SortStable(less, xs, a);
    }
    StableUnique(less, Sort(less, xs), ys);
  }

  // ----- Ranging over a map, which Go does in no particular order

  ghost predicate Distinct(names: seq<string>) {
    forall i, j | 0 <= i < j < |names| :: names[i] != names[j]
  }

  /** Reads a map's entries in some order. */
  method Collect<T>(m: map<string, T>) returns (out: seq<T>, ghost keys: seq<string>)
    ensures |out| == |keys| && Distinct(keys) && forall k :: k in keys <==> k in m
    ensures forall i | 0 <= i < |keys| :: keys[i] in m && out[i] == m[keys[i]]
  {
    out, keys := [], [];
    var rest := m.Keys;
    while rest != {}
      invariant rest <= m.Keys && |out| == |keys| && Distinct(keys)
      invariant forall k :: k in keys <==> k in m && k !in rest
      invariant forall i | 0 <= i < |keys| :: keys[i] in m && out[i] == m[keys[i]]
      decreases rest
    {
      var k :| k in rest;
      out, keys := out + [m[k]], keys + [k];
      rest := rest - {k};
    }
  }
}
