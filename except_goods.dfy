/**
 * The value of a bundle when its best or worst c goods are taken away
 * (agents.py). Generically this is the minimum (best) or the maximum (worst),
 * over every sub-bundle G of exactly c goods, of the value of the bundle
 * without G. The additive variant sorts the goods by weight and drops the
 * first c; the binary variant subtracts c from its value.
 */
module ExceptGoods {
  import opened Outcomes
  import opened Goods
  import opened Valuations

  /** Every value of b without c of its goods is defined. */
  predicate RemaindersDefined(v: Valuation, b: set<Good>, c: int)
  {
    forall g: set<Good> | g <= b && |g| == c :: Value(v, b - g).Ok?
  }

  /** The values of b without each of its c-good sub-bundles. */
  function Remainders(v: Valuation, b: set<Good>, c: int): set<int>
    requires RemaindersDefined(v, b, c)
  {
    set g: set<Good> | g <= b && |g| == c :: Value(v, b - g).value
  }

  lemma SubBundleExists(b: set<Good>, c: nat)
    requires c <= |b|
    ensures exists g :: g <= b && |g| == c
  {
    var g := PickK(b, c);
  }

  /**
   * Agent.value_except_best_c_goods (best) and value_except_worst_c_goods (not best):
   * 0 for a bundle of at most c goods; otherwise the min or max of the values of b
   * without c goods. A negative c has no combinations, and an undefined value fails.
   */
  function ExceptC(v: Valuation, b: set<Good>, c: int, best: bool): (r: Result<int>)
    ensures |b| <= c ==> r == Ok(0)
    ensures |b| > c ==> (r.Err? <==> c < 0 || exists g :: g <= b && |g| == c && Value(v, b - g).Err?)
    ensures |b| > c && r.Ok? ==>
      && (exists g :: g <= b && |g| == c && Value(v, b - g) == r)
      && (forall g | g <= b && |g| == c ::
            Value(v, b - g).Ok? && if best then r.value <= Value(v, b - g).value else Value(v, b - g).value <= r.value)
  {
    if |b| <= c then Ok(0)
    else if c < 0 then Err(NegativeCount)
    else if !RemaindersDefined(v, b, c) then Err(ValueFailure(v))
    else
      SubBundleExists(b, c);
      var g0 :| g0 <= b && |g0| == c;
      var some := Value(v, b - g0).value;
      var vals := Remainders(v, b, c);
      assert some in vals;
      assert forall g | g <= b && |g| == c :: Value(v, b - g).value in vals;
      Ok(if best then MinOf(vals, some) else MaxOf(vals, some))
  }

  /** x is the min (best) or max (worst), over the c-good sub-bundles g of b, of the value of b - g. */
  ghost predicate IsExtreme(v: Valuation, b: set<Good>, c: int, best: bool, x: int)
  {
    && (exists g :: g <= b && |g| == c && Value(v, b - g) == Ok(x))
    && (forall g | g <= b && |g| == c ::
          Value(v, b - g).Ok? && if best then x <= Value(v, b - g).value else Value(v, b - g).value <= x)
  }

  /** The generic value is the one extreme value, once it is known. */
  lemma ExceptCFromExtreme(v: Valuation, b: set<Good>, c: int, best: bool, x: int)
    requires 0 <= c < |b| && IsExtreme(v, b, c, best, x)
    ensures ExceptC(v, b, c, best) == Ok(x)
  {
    var out := ExceptC(v, b, c, best);
    var g0 :| g0 <= b && |g0| == c && Value(v, b - g0) == Ok(x);
    assert forall g | g <= b && |g| == c :: !Value(v, b - g).Err?;
    assert out.Ok?;
    var g1 :| g1 <= b && |g1| == c && Value(v, b - g1) == out;
    assert Value(v, b - g1).Ok? && Value(v, b - g0).Ok?;
    if best {
      assert x <= Value(v, b - g1).value && out.value <= Value(v, b - g0).value;
    } else {
      assert Value(v, b - g1).value <= x && Value(v, b - g0).value <= out.value;
    }
  }

  // ---------------------------------------------------------------------------
  // The additive shortcut: sort and drop.

  /** The sort key: minus the weight when the best goods go first, the weight otherwise. */
  function Key(w: map<Good, int>, best: bool, g: Good): int
    requires g in w
  {
    if best then -w[g] else w[g]
  }

  /**
   * The order sorted() leaves the goods in: by increasing key; goods with equal keys
   * keep the ascending order of the iteration, as a stable sort does.
   */
  predicate Before(w: map<Good, int>, best: bool, g: Good, h: Good)
    requires g in w && h in w
  {
    var kg, kh := Key(w, best, g), Key(w, best, h);
    kg < kh || (kg == kh && g < h)
  }

  /** The good that sorted() puts first. */
  function First(w: map<Good, int>, b: set<Good>, best: bool): (g: Good)
    requires b != {} && b <= w.Keys
    ensures g in b && forall h | h in b && h != g :: Before(w, best, g, h)
    decreases |b|
  {
    var x := Least(b);
    if b == {x} then x
    else
      var y := First(w, b - {x}, best);
      assert x < y;
      if Before(w, best, x, y) then
        assert forall h | h in b && h != x :: Before(w, best, x, h) by {
          forall h | h in b && h != x ensures Before(w, best, x, h) {
            if h != y {
              assert h in b - {x};
              BeforeTransitive(w, best, x, y, h);
            }
          }
        }
        x
      else
        assert forall h | h in b && h != y :: Before(w, best, y, h) by {
          forall h | h in b && h != y ensures Before(w, best, y, h) {
            if h != x {
              assert h in b - {x};
            }
          }
        }
        y
  }

  lemma BeforeTransitive(w: map<Good, int>, best: bool, x: Good, y: Good, z: Good)
    requires x in w && y in w && z in w
    requires Before(w, best, x, y) && Before(w, best, y, z)
    ensures Before(w, best, x, z)
  {
  }

  /** sorted(b, key=...): the goods of b, each once, First first. */
  function Ranked(w: map<Good, int>, b: set<Good>, best: bool): (r: seq<Good>)
    requires b <= w.Keys
    ensures |r| == |b| && Elements(r) == b
    decreases |b|
  {
    if b == {} then []
    else
      var g := First(w, b, best);
      var rest := Ranked(w, b - {g}, best);
      assert Elements([g] + rest) == {g} + Elements(rest);
      [g] + rest
  }

  /** Every pair of goods of r, earlier one first, is in the order Before. */
  ghost predicate SortedBy(w: map<Good, int>, best: bool, r: seq<Good>)
  {
    forall i, j | 0 <= i < j < |r| :: r[i] in w && r[j] in w && Before(w, best, r[i], r[j])
  }

  lemma ConsSorted(w: map<Good, int>, best: bool, g: Good, rest: seq<Good>)
    requires g in w && SortedBy(w, best, rest)
    requires forall j | 0 <= j < |rest| :: rest[j] in w && Before(w, best, g, rest[j])
    ensures SortedBy(w, best, [g] + rest)
  {
    var r := [g] + rest;
    forall i, j | 0 <= i < j < |r| ensures r[i] in w && r[j] in w && Before(w, best, r[i], r[j]) {
      assert r[j] == rest[j - 1];
      if i > 0 {
        assert r[i] == rest[i - 1];
      }
    }
  }

  /** The ranking is ordered by Before. */
  lemma {:induction false} RankedSorted(w: map<Good, int>, b: set<Good>, best: bool)
    requires b <= w.Keys
    ensures SortedBy(w, best, Ranked(w, b, best))
    decreases |b|
  {
    if b != {} {
      var g := First(w, b, best);
      var rest := Ranked(w, b - {g}, best);
      RankedSorted(w, b - {g}, best);
      forall j | 0 <= j < |rest| ensures rest[j] in w && Before(w, best, g, rest[j]) {
        assert rest[j] in Elements(rest);
      }
      ConsSorted(w, best, g, rest);
    }
  }

  /** Where the slice xs[c:] of a list of n elements starts (a negative c counts from the end). */
  function SliceStart(n: nat, c: int): (s: nat)
    ensures s <= n
  {
    if c >= 0 then (if c <= n then c else n)
    else if n + c >= 0 then n + c else 0
  }

  /** AdditiveAgent's overrides: the weight of the goods left after the first c of the sorted bundle. */
  function AdditiveExceptC(w: map<Good, int>, b: set<Good>, c: int, best: bool): (r: Result<int>)
    ensures |b| <= c ==> r == Ok(0)
    ensures r.Err? <==> |b| > c && !(b <= w.Keys)
    ensures r.Err? ==> r.error == UnknownGood
    ensures r.Ok? && |b| > c && (forall g | g in w :: w[g] >= 0) ==> b <= w.Keys && 0 <= r.value <= Sum(w, b)
  {
    if |b| <= c then Ok(0)
    else if !(b <= w.Keys) then Err(UnknownGood)
    else
      var r := Ranked(w, b, best);
      var kept := Elements(r[SliceStart(|r|, c)..]);
      assert kept <= b;
      KeptWeight(w, kept, b);
      Ok(Sum(w, kept))
  }

  /** With non-negative weights, the goods kept weigh between 0 and the whole bundle. */
  lemma KeptWeight(w: map<Good, int>, kept: set<Good>, b: set<Good>)
    requires kept <= b <= w.Keys
    ensures (forall g | g in w :: w[g] >= 0) ==> 0 <= Sum(w, kept) <= Sum(w, b)
  {
    if forall g | g in w :: w[g] >= 0 {
      SumMonotone(w, kept, b);
      SumNonNegative(w, kept);
    }
  }

  // ---------------------------------------------------------------------------
  // The binary shortcut.

  /** BinaryAgent's overrides, the same for best and worst: the value minus c. */
  function BinaryExceptC(desired: set<Good>, b: set<Good>, c: int): (r: int)
    ensures c >= 0 ==> r <= BinaryValue(desired, b)
    ensures r < 0 <==> |b| > c && BinaryValue(desired, b) < c
  {
    if |b| <= c then 0 else BinaryValue(desired, b) - c
  }

  // ---------------------------------------------------------------------------
  // Dispatch on the variant.

  /** value_except_best_c_goods of each variant; 0 whenever the bundle has at most c goods. */
  function ValueExceptBestC(v: Valuation, b: set<Good>, c: int): (r: Result<int>)
    ensures |b| <= c ==> r == Ok(0)
  {
    match v
    case Monotone(_) => ExceptC(v, b, c, true)
    case Additive(w) => AdditiveExceptC(w, b, c, true)
    case Binary(desired) => Ok(BinaryExceptC(desired, b, c))
  }

  /** value_except_worst_c_goods of each variant; 0 whenever the bundle has at most c goods. */
  function ValueExceptWorstC(v: Valuation, b: set<Good>, c: int): (r: Result<int>)
    ensures |b| <= c ==> r == Ok(0)
  {
    match v
    case Monotone(_) => ExceptC(v, b, c, false)
    case Additive(w) => AdditiveExceptC(w, b, c, false)
    case Binary(desired) => Ok(BinaryExceptC(desired, b, c))
  }

  // ---------------------------------------------------------------------------
  // Cardinality and sum helpers.

  lemma SubsetCard(a: set<Good>, b: set<Good>)
    requires a <= b
    ensures |a| <= |b| && |b - a| == |b| - |a|
  {
    assert b == a + (b - a);
  }

  lemma SplitCard(a: set<Good>, g: set<Good>)
    ensures |a| == |a * g| + |a - g|
  {
    assert a == (a * g) + (a - g);
  }

  lemma SumSplit(w: map<Good, int>, a: set<Good>, g: set<Good>)
    requires a <= w.Keys
    ensures Sum(w, a) == Sum(w, a * g) + Sum(w, a - g)
  {
    SumUnion(w, a * g, a - g);
    assert (a * g) + (a - g) == a;
  }

  // ---------------------------------------------------------------------------
  // The additive shortcut agrees with the generic definition.

  /** Equally many goods, each at least as heavy as any of the others: at least the same total weight. */
  lemma {:induction false} SumExchange(w: map<Good, int>, x: set<Good>, y: set<Good>)
    requires x <= w.Keys && y <= w.Keys && |x| == |y|
    requires forall a | a in x :: forall b | b in y :: w[a] >= w[b]
    ensures Sum(w, x) >= Sum(w, y)
    decreases |x|
  {
    if x != {} {
      var a := Least(x);
      var b := Least(y);
      SumRemove(w, x, a);
      SumRemove(w, y, b);
      SumExchange(w, x - {a}, y - {b});
    }
  }

  /**
   * Exchanging the goods of t outside g for the goods of g outside t, when every good
   * given up comes Before every good received, can only lose weight (best) or gain it (worst).
   */
  lemma SwapDominates(w: map<Good, int>, t: set<Good>, g: set<Good>, best: bool)
    requires t <= w.Keys && g <= w.Keys && |t| == |g|
    requires forall a | a in t - g :: forall e | e in g - t :: Before(w, best, a, e)
    ensures if best then Sum(w, g) <= Sum(w, t) else Sum(w, t) <= Sum(w, g)
  {
    SumSplit(w, t, g);
    SumSplit(w, g, t);
    SplitCard(t, g);
    SplitCard(g, t);
    assert t * g == g * t;
    if best {
      SumExchange(w, t - g, g - t);
    } else {
      SumExchange(w, g - t, t - g);
    }
  }

  /** Cutting a list of distinct elements at c: two disjoint sets, the first of c elements. */
  lemma DistinctCut<T>(r: seq<T>, c: nat)
    requires Distinct(r) && c <= |r|
    ensures Elements(r[..c]) !! Elements(r[c..])
    ensures Elements(r) == Elements(r[..c]) + Elements(r[c..])
    ensures |Elements(r[..c])| == c
  {
    assert r == r[..c] + r[c..];
    assert Distinct(r[..c]) by {
      forall i, j | 0 <= i < j < c ensures r[..c][i] != r[..c][j] {
        assert r[..c][i] == r[i] && r[..c][j] == r[j];
      }
    }
    DistinctCard(r[..c]);
    forall e | e in Elements(r[..c]) ensures e !in Elements(r[c..]) {
      var i :| 0 <= i < c && r[..c][i] == e;
      forall j | 0 <= j < |r| - c ensures r[c..][j] != e {
        assert r[c..][j] == r[c + j] && r[i] == e;
      }
    }
  }

  lemma RankedDistinct(w: map<Good, int>, b: set<Good>, best: bool)
    requires b <= w.Keys
    ensures Distinct(Ranked(w, b, best)) && Elements(Ranked(w, b, best)) == b
  {
    var r := Ranked(w, b, best);
    RankedSorted(w, b, best);
    forall i, j | 0 <= i < j < |r| ensures r[i] != r[j] {
      assert Before(w, best, r[i], r[j]);
    }
  }

  lemma RankedCross(w: map<Good, int>, b: set<Good>, c: nat, best: bool)
    requires b <= w.Keys && c <= |b|
    ensures var r := Ranked(w, b, best);
      forall a | a in Elements(r[..c]) :: forall e | e in Elements(r[c..]) :: Before(w, best, a, e)
  {
    var r := Ranked(w, b, best);
    RankedSorted(w, b, best);
    forall a | a in Elements(r[..c])
      ensures forall e | e in Elements(r[c..]) :: Before(w, best, a, e)
    {
      var i :| 0 <= i < c && r[..c][i] == a;
      forall e | e in Elements(r[c..])
        ensures Before(w, best, a, e)
      {
        var j :| 0 <= j < |r| - c && r[c..][j] == e;
        assert r[i] == a && r[c + j] == e;
      }
    }
  }

  /** The first c goods of the ranking: c goods of b, each Before every other good of b. */
  lemma RankedPrefix(w: map<Good, int>, b: set<Good>, c: nat, best: bool)
    requires b <= w.Keys && c <= |b|
    ensures var r := Ranked(w, b, best);
      var t := Elements(r[..c]);
      && t <= b && |t| == c
      && Elements(r[c..]) == b - t
      && forall a | a in t :: forall e | e in b - t :: Before(w, best, a, e)
  {
    var r := Ranked(w, b, best);
    RankedDistinct(w, b, best);
    DistinctCut(r, c);
    RankedCross(w, b, c, best);
  }

  /**
   * Removing goods t that each come Before every other good of b leaves the least
   * (best) or the most (worst) weight among all removals of |t| goods.
   */
  lemma TopRemovalOptimal(w: map<Good, int>, b: set<Good>, best: bool, t: set<Good>, g: set<Good>)
    requires b <= w.Keys && t <= b && g <= b && |g| == |t|
    requires forall a | a in t :: forall e | e in b - t :: Before(w, best, a, e)
    ensures if best then Sum(w, b - t) <= Sum(w, b - g) else Sum(w, b - g) <= Sum(w, b - t)
  {
    assert forall a | a in t - g :: forall e | e in g - t :: Before(w, best, a, e) by {
      forall a | a in t - g ensures forall e | e in g - t :: Before(w, best, a, e) {
        assert forall e | e in g - t :: e in b - t;
      }
    }
    SwapDominates(w, t, g, best);
    assert Sum(w, b) == Sum(w, t) + Sum(w, b - t) by {
      SumSplit(w, b, t);
      assert b * t == t;
    }
    assert Sum(w, b) == Sum(w, g) + Sum(w, b - g) by {
      SumSplit(w, b, g);
      assert b * g == g;
    }
  }

  /** An unknown good in the bundle makes some removal, and so the generic value, fail. */
  lemma ExceptCFails(v: Valuation, b: set<Good>, c: int, best: bool, g: set<Good>)
    requires 0 <= c < |b| && g <= b && |g| == c && Value(v, b - g).Err?
    ensures ExceptC(v, b, c, best) == Err(ValueFailure(v))
  {
  }

  lemma AdditiveUnknownGood(w: map<Good, int>, b: set<Good>, c: int, best: bool)
    requires 0 <= c < |b| && !(b <= w.Keys)
    ensures ExceptC(Additive(w), b, c, best) == Err(UnknownGood)
  {
    var x :| x in b && x !in w.Keys;
    SubsetCard({x}, b);
    var g := PickK(b - {x}, c);
    assert x in b - g;
    ExceptCFails(Additive(w), b, c, best, g);
  }

  lemma AdditiveKnownGoods(w: map<Good, int>, b: set<Good>, c: nat, best: bool)
    requires c < |b| && b <= w.Keys
    ensures ExceptC(Additive(w), b, c, best) == Ok(Sum(w, b - Elements(Ranked(w, b, best)[..c])))
  {
    var v := Additive(w);
    var t := Elements(Ranked(w, b, best)[..c]);
    RankedPrefix(w, b, c, best);
    var x := Sum(w, b - t);
    forall g | g <= b && |g| == c
      ensures Value(v, b - g).Ok? && if best then x <= Value(v, b - g).value else Value(v, b - g).value <= x
    {
      TopRemovalOptimal(w, b, best, t, g);
    }
    assert Value(v, b - t) == Ok(x);
    assert IsExtreme(v, b, c, best, x);
    ExceptCFromExtreme(v, b, c, best, x);
  }

  /**
   * For every c >= 0 the additive sort-and-drop equals the generic min / max over
   * c-good sub-bundles; in particular which of several equally heavy goods is dropped
   * does not change the result.
   */
  lemma AdditiveExceptCIsGeneric(w: map<Good, int>, b: set<Good>, c: int, best: bool)
    requires c >= 0
    ensures AdditiveExceptC(w, b, c, best) == ExceptC(Additive(w), b, c, best)
  {
    if |b| > c {
      if !(b <= w.Keys) {
        AdditiveUnknownGood(w, b, c, best);
      } else {
        AdditiveKnownGoods(w, b, c, best);
        RankedPrefix(w, b, c, best);
      }
    }
  }

  /** With non-negative weights, taking goods away never raises an additive value. */
  lemma AdditiveExceptAtMostValue(w: map<Good, int>, b: set<Good>, c: int, best: bool)
    requires forall g | g in w :: w[g] >= 0
    requires AdditiveExceptC(w, b, c, best).Ok? && Value(Additive(w), b).Ok?
    ensures AdditiveExceptC(w, b, c, best).value <= Value(Additive(w), b).value
  {
    if |b| > c {
      var r := Ranked(w, b, best);
      var kept := Elements(r[SliceStart(|r|, c)..]);
      SumMonotone(w, kept, b);
    } else {
      SumNonNegative(w, b);
    }
  }

  // ---------------------------------------------------------------------------
  // The binary shortcut against the generic definition.

  /** Taking g away from b loses at most |g| desired goods and keeps at most |b| - |g| goods. */
  lemma BinaryRemovalBounds(desired: set<Good>, b: set<Good>, g: set<Good>)
    requires g <= b
    ensures |desired * b| - |g| <= BinaryValue(desired, b - g) <= |desired * b|
    ensures BinaryValue(desired, b - g) <= |b| - |g|
  {
    var db := desired * b;
    var left := desired * (b - g);
    assert |left| >= |db| - |g| by {
      assert db - g == left;
      SplitCard(db, g);
      SubsetCard(db * g, g);
    }
    assert |left| <= |db| by {
      SubsetCard(left, db);
    }
    assert |left| <= |b| - |g| by {
      SubsetCard(left, b - g);
      SubsetCard(g, b);
    }
  }

  /** A c-good removal achieving max(0, k - c) desired goods left, k the desired goods in b. */
  lemma BinaryBestWitness(desired: set<Good>, b: set<Good>, c: int) returns (g: set<Good>)
    requires 0 <= c < |b|
    ensures g <= b && |g| == c
    ensures var k := |desired * b|; BinaryValue(desired, b - g) == if k >= c then k - c else 0
  {
    var db := desired * b;
    var k := |db|;
    if k >= c {
      g := PickK(db, c);
      assert |desired * (b - g)| == k - c by {
        assert desired * (b - g) == db - g;
        SubsetCard(g, db);
      }
    } else {
      var u := b - desired;
      assert |u| == |b| - k by {
        SplitCard(b, desired);
        assert b * desired == db;
      }
      var extra := PickK(u, c - k);
      g := db + extra;
      assert |g| == c by {
        assert db !! extra;
      }
      assert desired * (b - g) == {};
    }
  }

  /** A c-good removal achieving min(k, |b| - c) desired goods left, k the desired goods in b. */
  lemma BinaryWorstWitness(desired: set<Good>, b: set<Good>, c: int) returns (g: set<Good>)
    requires 0 <= c < |b|
    ensures g <= b && |g| == c
    ensures var k := |desired * b|; BinaryValue(desired, b - g) == if k <= |b| - c then k else |b| - c
  {
    var db := desired * b;
    var u := b - desired;
    assert |u| == |b| - |db| by {
      SplitCard(b, desired);
      assert b * desired == db;
    }
    if |u| >= c {
      g := PickK(u, c);
      assert desired * (b - g) == db;
    } else {
      var extra := PickK(db, c - |u|);
      g := u + extra;
      assert |g| == c by {
        assert u !! extra;
      }
      assert |desired * (b - g)| == |db| - |extra| by {
        assert desired * (b - g) == db - extra;
        SubsetCard(extra, db);
      }
    }
  }

  /** A bundle is worth its size to a binary agent exactly when every good in it is desired. */
  lemma AllDesired(desired: set<Good>, b: set<Good>)
    ensures |desired * b| == |b| <==> b <= desired
  {
    SplitCard(b, desired);
    assert b * desired == desired * b;
    if |desired * b| == |b| {
      assert |b - desired| == 0;
      forall x | x in b ensures x in desired {
        assert x !in b - desired;
      }
    }
  }

  /** Removing the best c goods generically leaves max(0, k - c) desired goods, k the desired goods in b. */
  lemma BinaryBestGeneric(desired: set<Good>, b: set<Good>, c: int)
    requires 0 <= c < |b|
    ensures var k := |desired * b|;
      ExceptC(Binary(desired), b, c, true) == Ok(if k >= c then k - c else 0)
  {
    var v := Binary(desired);
    var k := |desired * b|;
    var target := if k >= c then k - c else 0;
    var g0 := BinaryBestWitness(desired, b, c);
    assert Value(v, b - g0) == Ok(target);
    forall g | g <= b && |g| == c
      ensures Value(v, b - g).Ok? && target <= Value(v, b - g).value
    {
      BinaryRemovalBounds(desired, b, g);
    }
    assert IsExtreme(v, b, c, true, target);
    ExceptCFromExtreme(v, b, c, true, target);
  }

  /** Removing the worst c goods generically leaves min(k, |b| - c) desired goods, k the desired goods in b. */
  lemma BinaryWorstGeneric(desired: set<Good>, b: set<Good>, c: int)
    requires 0 <= c < |b|
    ensures var k := |desired * b|;
      ExceptC(Binary(desired), b, c, false) == Ok(if k <= |b| - c then k else |b| - c)
  {
    var v := Binary(desired);
    var k := |desired * b|;
    var target := if k <= |b| - c then k else |b| - c;
    var g0 := BinaryWorstWitness(desired, b, c);
    assert Value(v, b - g0) == Ok(target);
    forall g | g <= b && |g| == c
      ensures Value(v, b - g).Ok? && Value(v, b - g).value <= target
    {
      BinaryRemovalBounds(desired, b, g);
    }
    assert IsExtreme(v, b, c, false, target);
    ExceptCFromExtreme(v, b, c, false, target);
  }

  /**
   * The binary override value - c is never above the generic value without the best
   * c goods, and equals it exactly when the bundle holds at least c desired goods;
   * otherwise it is negative.
   */
  lemma BinaryBestOverride(desired: set<Good>, b: set<Good>, c: int)
    requires 0 <= c < |b|
    ensures BinaryExceptC(desired, b, c) <= ExceptC(Binary(desired), b, c, true).value
    ensures BinaryExceptC(desired, b, c) == ExceptC(Binary(desired), b, c, true).value
        <==> |desired * b| >= c
    ensures BinaryExceptC(desired, b, c) < 0 <==> |desired * b| < c
  {
    BinaryBestGeneric(desired, b, c);
  }

  /**
   * The binary override value - c is never above the generic value without the worst
   * c goods, and equals it exactly when c is 0 or every good of the bundle is desired.
   */
  lemma BinaryWorstOverride(desired: set<Good>, b: set<Good>, c: int)
    requires 0 <= c < |b|
    ensures BinaryExceptC(desired, b, c) <= ExceptC(Binary(desired), b, c, false).value
    ensures BinaryExceptC(desired, b, c) == ExceptC(Binary(desired), b, c, false).value
        <==> c == 0 || b <= desired
  {
    BinaryWorstGeneric(desired, b, c);
    var k := |desired * b|;
    var x := ExceptC(Binary(desired), b, c, false).value;
    assert x == if k <= |b| - c then k else |b| - c;
    assert BinaryExceptC(desired, b, c) == k - c && k <= |b|;
    AllDesired(desired, b);
  }

  // ---------------------------------------------------------------------------
  // Best against worst.

  /** Without the best c goods a bundle is worth no more than without the worst c goods. */
  lemma ExceptBestAtMostWorst(v: Valuation, b: set<Good>, c: int)
    requires c >= 0
    requires ValueExceptBestC(v, b, c).Ok? && ValueExceptWorstC(v, b, c).Ok?
    ensures ValueExceptBestC(v, b, c).value <= ValueExceptWorstC(v, b, c).value
  {
    if |b| > c {
      match v
      case Monotone(_) =>
        GenericBestAtMostWorst(v, b, c);
      case Additive(w) =>
        AdditiveExceptCIsGeneric(w, b, c, true);
        AdditiveExceptCIsGeneric(w, b, c, false);
        GenericBestAtMostWorst(v, b, c);
      case Binary(_) =>
    }
  }

  lemma GenericBestAtMostWorst(v: Valuation, b: set<Good>, c: int)
    requires 0 <= c < |b|
    requires ExceptC(v, b, c, true).Ok? && ExceptC(v, b, c, false).Ok?
    ensures ExceptC(v, b, c, true).value <= ExceptC(v, b, c, false).value
  {
    var g := PickK(b, c);
    assert Value(v, b - g).Ok?;
  }

  // ---------------------------------------------------------------------------
  // Doctests.

  lemma SingleGoodSubBundles(x: Good, y: Good)
    requires x != y
    ensures forall g: set<Good> | g <= {x, y} && |g| == 1 :: g == {x} || g == {y}
  {
    forall g: set<Good> | g <= {x, y} && |g| == 1
      ensures g == {x} || g == {y}
    {
      var e :| e in g;
      assert |g - {e}| == 0;
      assert g == {e};
    }
  }

  /** The doctests on MonotoneAgent({x: 1, y: 2, xy: 4}). */
  lemma MonotoneExceptExamples()
    ensures var v := Monotone(map[{} := 0, {'x'} := 1, {'y'} := 2, {'x', 'y'} := 4]);
      && ValueExceptBestC(v, {'x', 'y'}, 1) == Ok(1)
      && ValueExceptBestC(v, {'x', 'y'}, 2) == Ok(0)
      && ValueExceptBestC(v, {'x'}, 1) == Ok(0)
      && ValueExceptBestC(v, {}, 1) == Ok(0)
      && ValueExceptWorstC(v, {'x', 'y'}, 1) == Ok(2)
  {
    var v := Monotone(map[{} := 0, {'x'} := 1, {'y'} := 2, {'x', 'y'} := 4]);
    var b: set<Good> := {'x', 'y'};
    SingleGoodSubBundles('x', 'y');
    assert b - {'x'} == {'y'} && b - {'y'} == {'x'};
    assert Value(v, {'x'}) == Ok(1) && Value(v, {'y'}) == Ok(2);
    assert forall g: set<Good> | g <= b && |g| == 1 :: Value(v, b - g).Ok?;
    var best := ExceptC(v, b, 1, true);
    var worst := ExceptC(v, b, 1, false);
    assert best.Ok? && worst.Ok?;
    assert best.value <= 1 by { assert Value(v, b - {'y'}) == Ok(1); }
    assert worst.value >= 2 by { assert Value(v, b - {'x'}) == Ok(2); }
    assert |{'x'}| == 1;
  }

  /** Any c goods that each come Before the rest of the bundle give the additive shortcut's value. */
  lemma AdditiveExceptByTop(w: map<Good, int>, b: set<Good>, c: nat, best: bool, t: set<Good>)
    requires c < |b| && b <= w.Keys && t <= b && |t| == c
    requires forall a | a in t :: forall e | e in b - t :: Before(w, best, a, e)
    ensures AdditiveExceptC(w, b, c, best) == Ok(Sum(w, b - t))
  {
    var t' := Elements(Ranked(w, b, best)[..c]);
    RankedPrefix(w, b, c, best);
    TopRemovalOptimal(w, b, best, t, t');
    TopRemovalOptimal(w, b, best, t', t);
  }

  lemma ExampleSums(w: map<Good, int>)
    requires w == map['x' := 1, 'y' := 2, 'z' := 4]
    ensures Sum(w, {'x', 'y'}) == 3 && Sum(w, {'x'}) == 1
    ensures Sum(w, {'y', 'z'}) == 6 && Sum(w, {'y'}) == 2
  {
    SumRemove(w, {'x'}, 'x');
    SumRemove(w, {'y'}, 'y');
    SumRemove(w, {'x', 'y'}, 'x');
    assert {'x', 'y'} - {'x'} == {'y'};
    SumRemove(w, {'y', 'z'}, 'z');
    assert {'y', 'z'} - {'z'} == {'y'};
  }

  /** Doctest of AdditiveAgent.value_except_best_c_goods on {x: 1, y: 2, z: 4}: without z, {x, y, z} is worth 3. */
  lemma AdditiveBestOneOfThree()
    ensures ValueExceptBestC(Additive(map['x' := 1, 'y' := 2, 'z' := 4]), {'x', 'y', 'z'}, 1) == Ok(3)
  {
    var w := map['x' := 1, 'y' := 2, 'z' := 4];
    var xyz: set<Good> := {'x', 'y', 'z'};
    assert |{'z'}| == 1 && xyz - {'z'} == {'x', 'y'};
    AdditiveExceptByTop(w, xyz, 1, true, {'z'});
    ExampleSums(w);
  }

  /** Without y and z, {x, y, z} is worth 1. */
  lemma AdditiveBestTwoOfThree()
    ensures ValueExceptBestC(Additive(map['x' := 1, 'y' := 2, 'z' := 4]), {'x', 'y', 'z'}, 2) == Ok(1)
  {
    var w := map['x' := 1, 'y' := 2, 'z' := 4];
    var xyz: set<Good> := {'x', 'y', 'z'};
    assert |{'z', 'y'}| == 2 && xyz - {'z', 'y'} == {'x'};
    AdditiveExceptByTop(w, xyz, 2, true, {'z', 'y'});
    ExampleSums(w);
  }

  /** Without y, {x, y} is worth 1; bundles of at most c goods are worth 0. */
  lemma AdditiveBestOfTwo()
    ensures var a := Additive(map['x' := 1, 'y' := 2, 'z' := 4]);
      && ValueExceptBestC(a, {'x', 'y'}, 1) == Ok(1)
      && ValueExceptBestC(a, {'x', 'y'}, 2) == Ok(0)
      && ValueExceptBestC(a, {'x'}, 1) == Ok(0)
      && ValueExceptBestC(a, {}, 1) == Ok(0)
  {
    var w := map['x' := 1, 'y' := 2, 'z' := 4];
    assert |{'y'}| == 1 && {'x', 'y'} - {'y'} == {'x'};
    AdditiveExceptByTop(w, {'x', 'y'}, 1, true, {'y'});
    ExampleSums(w);
  }

  /** Doctest of AdditiveAgent.value_except_worst_c_goods on {x: 1, y: 2, z: 4}: without x, {x, y, z} is worth 6. */
  lemma AdditiveWorstOneOfThree()
    ensures ValueExceptWorstC(Additive(map['x' := 1, 'y' := 2, 'z' := 4]), {'x', 'y', 'z'}, 1) == Ok(6)
  {
    var w := map['x' := 1, 'y' := 2, 'z' := 4];
    var xyz: set<Good> := {'x', 'y', 'z'};
    assert |{'x'}| == 1 && xyz - {'x'} == {'y', 'z'};
    AdditiveExceptByTop(w, xyz, 1, false, {'x'});
    ExampleSums(w);
  }

  /** Without x, {x, y} is worth 2; bundles of at most c goods are worth 0. */
  lemma AdditiveWorstOfTwo()
    ensures var a := Additive(map['x' := 1, 'y' := 2, 'z' := 4]);
      && ValueExceptWorstC(a, {'x', 'y'}, 1) == Ok(2)
      && ValueExceptWorstC(a, {'x', 'y'}, 2) == Ok(0)
      && ValueExceptWorstC(a, {'x'}, 1) == Ok(0)
      && ValueExceptWorstC(a, {}, 1) == Ok(0)
  {
    var w := map['x' := 1, 'y' := 2, 'z' := 4];
    assert |{'x'}| == 1 && {'x', 'y'} - {'x'} == {'y'};
    AdditiveExceptByTop(w, {'x', 'y'}, 1, false, {'x'});
    ExampleSums(w);
  }
}
