/**
 * Goods and bundles. A good is an atomic token; the doctests of the engine use
 * one-letter names, so a good is a character and the natural order of goods is
 * the order of characters. A bundle is a set of goods. Wherever the engine
 * iterates over a set, the model iterates in ascending order of goods.
 */
module Goods {

  type Good = char

  lemma LeastExists(s: set<Good>)
    requires s != {}
    ensures exists g :: g in s && forall h | h in s :: g <= h
  {
    var x :| x in s;
    if s != {x} {
      LeastExists(s - {x});
      var y :| y in s - {x} && forall h | h in s - {x} :: y <= h;
      var m := if x <= y then x else y;
      forall h | h in s
        ensures m <= h
      {
        if h != x { assert h in s - {x}; }
      }
    }
  }

  /** The least good of a non-empty bundle. */
  function Least(s: set<Good>): (g: Good)
    requires s != {}
    ensures g in s && forall h | h in s :: g <= h
  {
    LeastExists(s);
    var g :| g in s && forall h | h in s :: g <= h; g
  }

  /** The goods of a bundle listed in ascending order. */
  function Ascending(s: set<Good>): seq<Good>
    decreases |s|
  {
    if s == {} then []
    else
      var g := Least(s);
      [g] + Ascending(s - {g})
  }

  /** Ascending lists each good of the bundle exactly once, nothing else, in strictly increasing order. */
  lemma {:induction false} AscendingSorted(s: set<Good>)
    ensures var r := Ascending(s);
      && |r| == |s|
      && (forall g :: g in r <==> g in s)
      && (forall i, j | 0 <= i < j < |r| :: r[i] < r[j])
    decreases |s|
  {
    if s != {} {
      var g := Least(s);
      var rest := Ascending(s - {g});
      AscendingSorted(s - {g});
      var r := [g] + rest;
      forall i, j | 0 <= i < j < |r| ensures r[i] < r[j] {
        assert r[j] == rest[j - 1] && r[j] in s - {g};
        if i > 0 { assert r[i] == rest[i - 1]; }
      }
    }
  }

  /** Ascending lists the bundle: as a multiset it is the bundle, each good once. */
  lemma {:induction false} AscendingMultiset(s: set<Good>)
    ensures multiset(Ascending(s)) == multiset(s)
    decreases |s|
  {
    if s != {} {
      var g := Least(s);
      AscendingMultiset(s - {g});
      forall y ensures multiset(Ascending(s))[y] == multiset(s)[y] {
        assert multiset(Ascending(s)) == multiset{g} + multiset(Ascending(s - {g}));
      }
    }
  }

  /** A bundle's ascending list starts with its least good. */
  lemma AscendingFrom(s: set<Good>, g: Good)
    requires g in s && forall h | h in s :: g <= h
    ensures Ascending(s) == [g] + Ascending(s - {g})
  {
    assert Least(s) <= g && g <= Least(s);
  }

  lemma AscendingOfTwo(a: Good, b: Good)
    requires a < b
    ensures Ascending({a, b}) == [a, b]
  {
    AscendingFrom({a, b}, a);
    assert {a, b} - {a} == {b};
    AscendingFrom({b}, b);
    assert {b} - {b} == {};
  }

  lemma AscendingOfThree(a: Good, b: Good, c: Good)
    requires a < b < c
    ensures Ascending({a, b, c}) == [a, b, c]
  {
    AscendingFrom({a, b, c}, a);
    assert {a, b, c} - {a} == {b, c};
    AscendingOfTwo(b, c);
  }

  lemma AscendingOfFour(a: Good, b: Good, c: Good, d: Good)
    requires a < b < c < d
    ensures Ascending({a, b, c, d}) == [a, b, c, d]
  {
    AscendingFrom({a, b, c, d}, a);
    assert {a, b, c, d} - {a} == {b, c, d};
    AscendingOfThree(b, c, d);
  }

  lemma AscendingOfFive(a: Good, b: Good, c: Good, d: Good, e: Good)
    requires a < b < c < d < e
    ensures Ascending({a, b, c, d, e}) == [a, b, c, d, e]
  {
    AscendingFrom({a, b, c, d, e}, a);
    assert {a, b, c, d, e} - {a} == {b, c, d, e};
    AscendingOfFour(b, c, d, e);
  }

  /** Distinct elements: a list that could be the iteration of a set. */
  predicate Distinct<T(==)>(xs: seq<T>)
  {
    forall i, j | 0 <= i < j < |xs| :: xs[i] != xs[j]
  }

  /** The set of the elements of a list. */
  function Elements<T>(xs: seq<T>): set<T>
  {
    set x | x in xs
  }

  lemma {:induction false} DistinctCard<T>(xs: seq<T>)
    requires Distinct(xs)
    ensures |Elements(xs)| == |xs|
  {
    if xs != [] {
      DistinctCard(xs[1..]);
      assert Elements(xs) == {xs[0]} + Elements(xs[1..]);
      assert xs[0] !in Elements(xs[1..]);
    }
  }

  /** Any bundle with at least k goods has a sub-bundle of exactly k goods. */
  lemma {:induction false} PickK(s: set<Good>, k: nat) returns (t: set<Good>)
    requires k <= |s|
    ensures t <= s && |t| == k
    decreases k
  {
    if k == 0 {
      t := {};
    } else {
      var x :| x in s;
      var rest := PickK(s - {x}, k - 1);
      t := rest + {x};
    }
  }

  /** The goods of all bundles of an allocation together. */
  function UnionOf(bundles: seq<set<Good>>): set<Good>
  {
    if bundles == [] then {} else bundles[0] + UnionOf(bundles[1..])
  }

  /** No good is in two bundles of the allocation. */
  predicate PairwiseDisjoint(bundles: seq<set<Good>>)
  {
    forall i, j | 0 <= i < j < |bundles| :: bundles[i] !! bundles[j]
  }

  /** The bundles split the goods: disjoint, and together exactly the goods. */
  predicate Allocates(bundles: seq<set<Good>>, goods: set<Good>)
  {
    PairwiseDisjoint(bundles) && UnionOf(bundles) == goods
  }
}
