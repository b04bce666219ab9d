/**
 * The fairness tests of an agent (agents.py): envy-freeness and its relaxations
 * EFc, EF1 and EFx, each a loop over the other bundles that stops at the first
 * envied one, and proportionality PROP and PROPc.
 */
module Fairness {
  import opened Outcomes
  import opened Goods
  import opened Valuations
  import opened ExceptGoods

  /** What the agent compares its own value against, for each listed bundle. */
  datatype Measure =
    | Whole              // is_EF: the value of the bundle
    | ExceptBest(c: int)  // is_EFc, is_EF1: its value without its best c goods
    | ExceptWorst(c: int) // is_EFx: its value without its worst c goods

  function Measured(v: Valuation, b: set<Good>, m: Measure): Result<int>
  {
    match m
    case Whole => Value(v, b)
    case ExceptBest(c) => ValueExceptBestC(v, b, c)
    case ExceptWorst(c) => ValueExceptWorstC(v, b, c)
  }

  /**
   * The loop over the listed bundles, front to back, for own value u: the first
   * failure is raised, the first bundle measured above u answers false.
   */
  function Scan(v: Valuation, u: int, bundles: seq<set<Good>>, m: Measure): Result<bool>
    decreases |bundles|
  {
    if bundles == [] then Ok(true)
    else
      match Measured(v, bundles[0], m)
      case Err(e) => Err(e)
      case Ok(x) => if u < x then Ok(false) else Scan(v, u, bundles[1..], m)
  }

  /** The whole test: the own value first, then the loop. */
  function EnvyCheck(v: Valuation, own: set<Good>, bundles: seq<set<Good>>, m: Measure): Result<bool>
  {
    match Value(v, own)
    case Err(e) => Err(e)
    case Ok(u) => Scan(v, u, bundles, m)
  }

  /** The shared loop of is_EF, is_EFc and is_EFx. */
  method NoEnvy(v: Valuation, own: set<Good>, bundles: seq<set<Good>>, m: Measure) returns (r: Result<bool>)
    ensures r == EnvyCheck(v, own, bundles, m)
  {
    var ownValue := Value(v, own);
    if ownValue.Err? {
      return Err(ownValue.error);
    }
    var u := ownValue.value;
    var i := 0;
    while i < |bundles|
      invariant 0 <= i <= |bundles|
      invariant Scan(v, u, bundles, m) == Scan(v, u, bundles[i..], m)
    {
      assert bundles[i..][1..] == bundles[i + 1..];
      var x := Measured(v, bundles[i], m);
      if x.Err? {
        return Err(x.error);
      }
      if u < x.value {
        return Ok(false);
      }
      i := i + 1;
    }
    return Ok(true);
  }

  /** Agent.is_EF. */
  method IsEF(a: Agent, own: set<Good>, bundles: seq<set<Good>>) returns (r: Result<bool>)
    ensures r == EnvyCheck(a.valuation, own, bundles, Whole)
  {
    r := NoEnvy(a.valuation, own, bundles, Whole);
  }

  /** Agent.is_EFc. */
  method IsEFc(a: Agent, own: set<Good>, bundles: seq<set<Good>>, c: int) returns (r: Result<bool>)
    ensures r == EnvyCheck(a.valuation, own, bundles, ExceptBest(c))
  {
    r := NoEnvy(a.valuation, own, bundles, ExceptBest(c));
  }

  /** Agent.is_EF1: EFc with c = 1. */
  method IsEF1(a: Agent, own: set<Good>, bundles: seq<set<Good>>) returns (r: Result<bool>)
    ensures r == EnvyCheck(a.valuation, own, bundles, ExceptBest(1))
  {
    r := IsEFc(a, own, bundles, 1);
  }

  /** Agent.is_EFx. */
  method IsEFx(a: Agent, own: set<Good>, bundles: seq<set<Good>>) returns (r: Result<bool>)
    ensures r == EnvyCheck(a.valuation, own, bundles, ExceptWorst(1))
  {
    r := NoEnvy(a.valuation, own, bundles, ExceptWorst(1));
  }

  // ---------------------------------------------------------------------------
  // What the loop decides.

  /** Every measure defined and at most u: that, and only that, passes the loop. */
  lemma {:induction false} ScanTrue(v: Valuation, u: int, bundles: seq<set<Good>>, m: Measure)
    ensures Scan(v, u, bundles, m) == Ok(true) <==>
      forall i | 0 <= i < |bundles| :: Measured(v, bundles[i], m).Ok? && Measured(v, bundles[i], m).value <= u
    decreases |bundles|
  {
    if bundles != [] {
      ScanTrue(v, u, bundles[1..], m);
      assert forall i | 1 <= i < |bundles| :: bundles[i] == bundles[1..][i - 1];
    }
  }

  /** When every measure is defined, the loop answers whether u is at least each of them. */
  lemma {:induction false} ScanDefined(v: Valuation, u: int, bundles: seq<set<Good>>, m: Measure)
    requires forall i | 0 <= i < |bundles| :: Measured(v, bundles[i], m).Ok?
    ensures Scan(v, u, bundles, m) == Ok(forall i | 0 <= i < |bundles| :: Measured(v, bundles[i], m).value <= u)
    decreases |bundles|
  {
    if bundles != [] {
      ScanDefined(v, u, bundles[1..], m);
      assert forall i | 1 <= i < |bundles| :: bundles[i] == bundles[1..][i - 1];
    }
  }

  /** A failure of the loop is the failure of one of the measures. */
  lemma {:induction false} ScanError(v: Valuation, u: int, bundles: seq<set<Good>>, m: Measure)
    requires Scan(v, u, bundles, m).Err?
    ensures exists i | 0 <= i < |bundles| :: Measured(v, bundles[i], m) == Err(Scan(v, u, bundles, m).error)
    decreases |bundles|
  {
    if Measured(v, bundles[0], m).Ok? {
      ScanError(v, u, bundles[1..], m);
      var i :| 0 <= i < |bundles[1..]| && Measured(v, bundles[1..][i], m) == Err(Scan(v, u, bundles[1..], m).error);
      assert bundles[1..][i] == bundles[i + 1];
    }
  }

  /**
   * EF, EFc and EFx hold exactly when the own bundle has a value u and every listed
   * bundle's measure is defined and at most u.
   */
  lemma EnvyCheckTrue(v: Valuation, own: set<Good>, bundles: seq<set<Good>>, m: Measure)
    ensures EnvyCheck(v, own, bundles, m) == Ok(true) <==>
      Value(v, own).Ok? &&
      forall i | 0 <= i < |bundles| :: Measured(v, bundles[i], m).Ok? && Measured(v, bundles[i], m).value <= Value(v, own).value
  {
    if Value(v, own).Ok? {
      ScanTrue(v, Value(v, own).value, bundles, m);
    }
  }

  /** EFx implies EF1: without its worst good a bundle is worth at least as much as without its best. */
  lemma EFxImpliesEF1(v: Valuation, own: set<Good>, bundles: seq<set<Good>>)
    requires EnvyCheck(v, own, bundles, ExceptWorst(1)) == Ok(true)
    ensures EnvyCheck(v, own, bundles, ExceptBest(1)) == Ok(true)
  {
    EnvyCheckTrue(v, own, bundles, ExceptWorst(1));
    forall i | 0 <= i < |bundles|
      ensures Measured(v, bundles[i], ExceptBest(1)).Ok? &&
        Measured(v, bundles[i], ExceptBest(1)).value <= Value(v, own).value
    {
      ExceptBestDefinedAsWorst(v, bundles[i], 1);
      ExceptBestAtMostWorst(v, bundles[i], 1);
    }
    EnvyCheckTrue(v, own, bundles, ExceptBest(1));
  }

  /** Without the best c goods a value is defined exactly when it is without the worst c goods. */
  lemma ExceptBestDefinedAsWorst(v: Valuation, b: set<Good>, c: int)
    ensures ValueExceptBestC(v, b, c).Ok? <==> ValueExceptWorstC(v, b, c).Ok?
  {
  }

  // ---------------------------------------------------------------------------
  // Proportionality.

  /** Agent.is_PROP: the own value times the number of agents reaches the total value. */
  function IsPROP(a: Agent, own: set<Good>, n: int): (r: Result<bool>)
    ensures r.Err? <==> Value(a.valuation, own).Err?
    ensures r.Err? ==> r.error == ValueFailure(a.valuation)
    ensures r.Ok? && n > 0 ==>
      (r.value <==> Value(a.valuation, own).value as real >= a.totalValue as real / n as real)
  {
    match Value(a.valuation, own)
    case Err(e) => Err(e)
    case Ok(u) => ShareOf(u, n, a.totalValue); Ok(u * n >= a.totalValue)
  }

  /** For n > 0, u * n >= t says exactly that u is at least the share t / n. */
  lemma ShareOf(u: int, n: int, t: int)
    ensures n > 0 ==> (u * n >= t <==> u as real >= t as real / n as real)
  {
    if n > 0 {
      var share := t as real / n as real;
      assert t as real == share * n as real;
      assert (u * n) as real == u as real * n as real;
      if u as real >= share {
        assert u as real * n as real >= share * n as real;
      } else {
        assert u as real * n as real < share * n as real;
      }
    }
  }

  /**
   * Agent.is_PROPc as written: the own value times n against the value of the desired
   * goods without their best n - 1; the parameter c is not used.
   */
  function IsPROPc(a: Agent, own: set<Good>, n: int, c: int): (r: Result<bool>)
    ensures r == IsPROPcCorrected(a, own, n, n - 1)
  {
    match Value(a.valuation, own)
    case Err(e) => Err(e)
    case Ok(u) =>
      match DesiredGoods(a.valuation)
      case Err(e) => Err(e)
      case Ok(desired) =>
        match ValueExceptBestC(a.valuation, desired, n - 1)
        case Err(e) => Err(e)
        case Ok(t) => Ok(u * n >= t)
  }

  /** is_PROPc as its documentation describes it: without the best c desired goods. */
  function IsPROPcCorrected(a: Agent, own: set<Good>, n: int, c: int): (r: Result<bool>)
    ensures a.valuation.Monotone? ==> r.Err?
    ensures r.Ok? && n > 0 ==>
      && Value(a.valuation, own).Ok? && DesiredGoods(a.valuation).Ok?
      && ValueExceptBestC(a.valuation, DesiredGoods(a.valuation).value, c).Ok?
      && var t := ValueExceptBestC(a.valuation, DesiredGoods(a.valuation).value, c).value;
         (r.value <==> Value(a.valuation, own).value as real >= t as real / n as real)
  {
    match Value(a.valuation, own)
    case Err(e) => Err(e)
    case Ok(u) =>
      match DesiredGoods(a.valuation)
      case Err(e) => Err(e)
      case Ok(desired) =>
        match ValueExceptBestC(a.valuation, desired, c)
        case Err(e) => Err(e)
        case Ok(t) => ShareOf(u, n, t); Ok(u * n >= t)
  }

  lemma {:induction false} SumOfZeros(w: map<Good, int>, b: set<Good>)
    requires b <= w.Keys && forall g | g in b :: w[g] == 0
    ensures Sum(w, b) == 0
    decreases |b|
  {
    if b != {} {
      var g := Least(b);
      SumRemove(w, b, g);
      SumOfZeros(w, b - {g});
    }
  }

  /**
   * For an additive agent with non-negative weights, PROPc with c = 0 is PROP: nothing
   * is taken away, and the desired goods carry the whole value.
   */
  lemma PROPcZeroIsPROP(w: map<Good, int>, cardinality: int, own: set<Good>, n: int)
    requires forall g | g in w :: w[g] >= 0
    ensures IsPROPcCorrected(NewAdditiveAgent(w, cardinality), own, n, 0) ==
      IsPROP(NewAdditiveAgent(w, cardinality), own, n)
  {
    var a := NewAdditiveAgent(w, cardinality);
    var desired := DesiredGoods(a.valuation).value;
    assert desired <= w.Keys;
    assert Sum(w, w.Keys) == Sum(w, desired) by {
      SumSplit(w, w.Keys, desired);
      assert w.Keys * desired == desired;
      SumOfZeros(w, w.Keys - desired);
    }
    if |desired| > 0 {
      AdditiveExceptByTop(w, desired, 0, true, {});
      assert desired - {} == desired;
    } else {
      assert desired == {};
    }
  }

  /** The desired goods of {x: 1, y: 2, z: 4} and of {x: 1, y: 2, z: 4, w: 0}: x, y and z. */
  lemma DesiredOfExample(w: map<Good, int>)
    requires w == map['x' := 1, 'y' := 2, 'z' := 4] || w == map['x' := 1, 'y' := 2, 'z' := 4, 'w' := 0]
    ensures DesiredGoods(Additive(w)) == Ok({'x', 'y', 'z'})
  {
    var d := DesiredGoods(Additive(w)).value;
    assert forall g | g in d :: g in {'x', 'y', 'z'};
    assert w['x'] > 0 && w['y'] > 0 && w['z'] > 0;
    assert d == {'x', 'y', 'z'};
  }

  /** {x: 1, y: 2, z: 4} has the total value 7, and {x} is worth 1. */
  lemma ExampleTotal()
    ensures var w := map['x' := 1, 'y' := 2, 'z' := 4];
      && Sum(w, w.Keys) == 7 && Value(Additive(w), {'x'}) == Ok(1)
  {
    var w := map['x' := 1, 'y' := 2, 'z' := 4];
    var xyz: set<Good> := {'x', 'y', 'z'};
    assert w.Keys == xyz;
    ExampleSums(w);
    SumRemove(w, xyz, 'z');
    assert xyz - {'z'} == {'x', 'y'};
  }

  /**
   * The as-written PROPc ignores c: for the additive agent {x: 1, y: 2, z: 4} and three
   * agents, the bundle {x} passes PROPc with c = 0, because it is compared with 1, the
   * value of {x, y, z} without its best two goods.
   */
  lemma PROPcIgnoresC()
    ensures IsPROPc(NewAdditiveAgent(map['x' := 1, 'y' := 2, 'z' := 4], 1), {'x'}, 3, 0) == Ok(true)
  {
    DesiredOfExample(map['x' := 1, 'y' := 2, 'z' := 4]);
    AdditiveBestTwoOfThree();
    ExampleTotal();
  }

  /** With c = 0 the same bundle fails the corrected PROPc, as it fails PROP: 3 * 1 is below the total 7. */
  lemma PROPcZeroRejects()
    ensures var a := NewAdditiveAgent(map['x' := 1, 'y' := 2, 'z' := 4], 1);
      IsPROPcCorrected(a, {'x'}, 3, 0) == Ok(false) && IsPROP(a, {'x'}, 3) == Ok(false)
  {
    ExampleTotal();
    PROPcZeroIsPROP(map['x' := 1, 'y' := 2, 'z' := 4], 1, {'x'}, 3);
  }

  // ---------------------------------------------------------------------------
  // Envy-freeness implies proportionality.

  lemma {:induction false} SumOfAllocation(w: map<Good, int>, bundles: seq<set<Good>>, u: int)
    requires UnionOf(bundles) <= w.Keys && PairwiseDisjoint(bundles)
    requires forall i | 0 <= i < |bundles| :: bundles[i] <= w.Keys && Sum(w, bundles[i]) <= u
    ensures Sum(w, UnionOf(bundles)) <= u * |bundles|
    decreases |bundles|
  {
    if bundles != [] {
      var rest := bundles[1..];
      assert UnionOf(bundles) == bundles[0] + UnionOf(rest);
      RestOfAllocation(w, bundles, u);
      SumOfAllocation(w, rest, u);
      UnionOfDisjoint(bundles);
      SumUnion(w, bundles[0], UnionOf(rest));
      AddBound(Sum(w, bundles[0]), Sum(w, UnionOf(rest)), u, |bundles|);
    }
  }

  /** The bundles after the first are again disjoint and each worth at most u. */
  lemma RestOfAllocation(w: map<Good, int>, bundles: seq<set<Good>>, u: int)
    requires bundles != [] && UnionOf(bundles) <= w.Keys && PairwiseDisjoint(bundles)
    requires forall i | 0 <= i < |bundles| :: bundles[i] <= w.Keys && Sum(w, bundles[i]) <= u
    ensures UnionOf(bundles[1..]) <= w.Keys && PairwiseDisjoint(bundles[1..])
    ensures forall i | 0 <= i < |bundles[1..]| :: bundles[1..][i] <= w.Keys && Sum(w, bundles[1..][i]) <= u
  {
    var rest := bundles[1..];
    assert UnionOf(bundles) == bundles[0] + UnionOf(rest);
    forall i, j | 0 <= i < j < |rest| ensures rest[i] !! rest[j] {
      assert rest[i] == bundles[i + 1] && rest[j] == bundles[j + 1];
    }
    forall i | 0 <= i < |rest| ensures rest[i] <= w.Keys && Sum(w, rest[i]) <= u {
      assert rest[i] == bundles[i + 1];
    }
  }

  /** One more bundle worth at most u raises a bound of u per bundle by u. */
  lemma AddBound(first: int, others: int, u: int, n: nat)
    requires n >= 1
    ensures first <= u && others <= u * (n - 1) ==> first + others <= u * n
  {
    assert u * n == u * (n - 1) + u;
  }

  lemma UnionOfDisjoint(bundles: seq<set<Good>>)
    requires bundles != [] && PairwiseDisjoint(bundles)
    ensures bundles[0] !! UnionOf(bundles[1..])
  {
    forall g | g in UnionOf(bundles[1..])
      ensures g !in bundles[0]
    {
      var j := InUnionOf(bundles[1..], g);
      assert bundles[1..][j] == bundles[j + 1];
    }
  }

  /** A good of the union is in one of the bundles. */
  lemma {:induction false} InUnionOf(bundles: seq<set<Good>>, g: Good) returns (i: nat)
    requires g in UnionOf(bundles)
    ensures i < |bundles| && g in bundles[i]
    decreases |bundles|
  {
    if g in bundles[0] {
      i := 0;
    } else {
      var j := InUnionOf(bundles[1..], g);
      i := j + 1;
    }
  }

  /**
   * For an additive agent with non-negative weights, an allocation of all the goods
   * among n bundles that the agent finds envy-free gives it a proportional share.
   */
  lemma EFImpliesPROP(w: map<Good, int>, cardinality: int, own: set<Good>, bundles: seq<set<Good>>)
    requires forall g | g in w :: w[g] >= 0
    requires Allocates(bundles, w.Keys)
    requires EnvyCheck(Additive(w), own, bundles, Whole) == Ok(true)
    ensures IsPROP(NewAdditiveAgent(w, cardinality), own, |bundles|) == Ok(true)
  {
    var v := Additive(w);
    EnvyCheckTrue(v, own, bundles, Whole);
    var u := Value(v, own).value;
    forall i | 0 <= i < |bundles|
      ensures bundles[i] <= w.Keys && Sum(w, bundles[i]) <= u
    {
      assert Measured(v, bundles[i], Whole).Ok?;
    }
    SumOfAllocation(w, bundles, u);
  }

  // ---------------------------------------------------------------------------
  // Doctests.

  /** The doctests of MonotoneAgent {x: 1, y: 2, xy: 4}: {x} envies {y}, but not once one good is taken away. */
  lemma MonotoneFairnessExamples()
    ensures var v := Monotone(map[{} := 0, {'x'} := 1, {'y'} := 2, {'x', 'y'} := 4]);
      && EnvyCheck(v, {'x'}, [{'y'}], Whole) == Ok(false)
      && EnvyCheck(v, {'x'}, [{'y'}], ExceptBest(1)) == Ok(true)
      && EnvyCheck(v, {'x'}, [{'y'}], ExceptWorst(1)) == Ok(true)
  {
    assert |{'y'}| == 1;
  }

  /** {x: 1, y: 2, z: 4, w: 0} values {y} with 2 and has the total value 7. */
  lemma FourGoodsTotal()
    ensures var w := map['x' := 1, 'y' := 2, 'z' := 4, 'w' := 0];
      && Value(Additive(w), {'y'}) == Ok(2) && Sum(w, w.Keys) == 7
  {
    var w := map['x' := 1, 'y' := 2, 'z' := 4, 'w' := 0];
    AdditiveExamples();
    SumRemove(w, {'y'}, 'y');
    assert w.Keys == {'x', 'y', 'z', 'w'};
    SumRemove(w, w.Keys, 'w');
    assert w.Keys - {'w'} == {'y', 'x', 'z'};
  }

  /** The EF doctest of AdditiveAgent {x: 1, y: 2, z: 4, w: 0}: {y} envies {z}. */
  lemma AdditiveEFExample()
    ensures EnvyCheck(Additive(map['x' := 1, 'y' := 2, 'z' := 4, 'w' := 0]), {'y'}, [{'y'}, {'x'}, {'z'}, {}], Whole) == Ok(false)
  {
    var w := map['x' := 1, 'y' := 2, 'z' := 4, 'w' := 0];
    AdditiveExamples();
    FourGoodsTotal();
    SumRemove(w, {'z'}, 'z');
    assert Value(Additive(w), {'z'}) == Ok(4);
  }

  /** The PROP doctests of AdditiveAgent {x: 1, y: 2, z: 4, w: 0}: {y} is a proportional share for four agents, not for three. */
  lemma AdditivePROPExamples()
    ensures var a := NewAdditiveAgent(map['x' := 1, 'y' := 2, 'z' := 4, 'w' := 0], 1);
      IsPROP(a, {'y'}, 4) == Ok(true) && IsPROP(a, {'y'}, 3) == Ok(false)
  {
    FourGoodsTotal();
  }

  /** {x, y, z} under {x: 1, y: 2, z: 4, w: 0} without its best two goods is worth 1. */
  lemma FourGoodsBestTwo()
    ensures ValueExceptBestC(Additive(map['x' := 1, 'y' := 2, 'z' := 4, 'w' := 0]), {'x', 'y', 'z'}, 2) == Ok(1)
  {
    var w := map['x' := 1, 'y' := 2, 'z' := 4, 'w' := 0];
    var xyz: set<Good> := {'x', 'y', 'z'};
    assert |{'z', 'y'}| == 2 && xyz - {'z', 'y'} == {'x'};
    AdditiveExceptByTop(w, xyz, 2, true, {'z', 'y'});
    AdditiveExamples();
  }

  /** The PROPc doctest of AdditiveAgent {x: 1, y: 2, z: 4, w: 0}: 2 * 3 reaches 1. */
  lemma AdditivePROPcExample()
    ensures IsPROPc(NewAdditiveAgent(map['x' := 1, 'y' := 2, 'z' := 4, 'w' := 0], 1), {'y'}, 3, 1) == Ok(true)
  {
    DesiredOfExample(map['x' := 1, 'y' := 2, 'z' := 4, 'w' := 0]);
    FourGoodsBestTwo();
    FourGoodsTotal();
  }

  /** Under {x: 1, y: 2, z: 4, w: 0}, {x, z} without z is worth 1 and {y, z} without z is worth 2. */
  lemma FourGoodsBestOne()
    ensures var v := Additive(map['x' := 1, 'y' := 2, 'z' := 4, 'w' := 0]);
      ValueExceptBestC(v, {'x', 'z'}, 1) == Ok(1) && ValueExceptBestC(v, {'y', 'z'}, 1) == Ok(2)
  {
    var w := map['x' := 1, 'y' := 2, 'z' := 4, 'w' := 0];
    assert |{'z'}| == 1 && {'x', 'z'} - {'z'} == {'x'} && {'y', 'z'} - {'z'} == {'y'};
    AdditiveExceptByTop(w, {'x', 'z'}, 1, true, {'z'});
    AdditiveExceptByTop(w, {'y', 'z'}, 1, true, {'z'});
    AdditiveExamples();
    FourGoodsTotal();
  }

  /** The EF1 doctests of AdditiveAgent {x: 1, y: 2, z: 4, w: 0}. */
  lemma AdditiveEF1Examples()
    ensures var v := Additive(map['x' := 1, 'y' := 2, 'z' := 4, 'w' := 0]);
      && EnvyCheck(v, {'y'}, [{'x', 'z'}], ExceptBest(1)) == Ok(true)
      && EnvyCheck(v, {'x'}, [{'y', 'z'}], ExceptBest(1)) == Ok(false)
  {
    FourGoodsBestOne();
    AdditiveExamples();
    FourGoodsTotal();
  }

  /** The EFx doctest of AdditiveAgent {x: 1, y: 2, z: 4, w: 0}: {y} is worth 0 without its only good. */
  lemma AdditiveEFxExample()
    ensures EnvyCheck(Additive(map['x' := 1, 'y' := 2, 'z' := 4, 'w' := 0]), {'x'}, [{'y'}], ExceptWorst(1)) == Ok(true)
  {
    AdditiveExamples();
    assert |{'y'}| == 1;
  }

  /** The EF and EF1 doctests of BinaryAgent {x, y, z}; the override may go below 0. */
  lemma BinaryFairnessExamples()
    ensures var v := Binary({'x', 'y', 'z'});
      && EnvyCheck(v, {'x', 'w'}, [{'y', 'z'}], Whole) == Ok(false)
      && EnvyCheck(v, {'x', 'w'}, [{'y', 'z'}], ExceptBest(1)) == Ok(true)
      && EnvyCheck(v, {'v', 'w'}, [{'y', 'z'}], ExceptBest(1)) == Ok(false)
      && EnvyCheck(v, {}, [{'y', 'w'}], ExceptBest(1)) == Ok(true)
      && EnvyCheck(v, {}, [{'y', 'z'}], ExceptBest(1)) == Ok(false)
      && ValueExceptBestC(v, {'v', 'w'}, 1) == Ok(-1)
  {
    var d: set<Good> := {'x', 'y', 'z'};
    assert d * {'x', 'w'} == {'x'};
    assert d * {'y', 'z'} == {'y', 'z'};
    assert d * {'v', 'w'} == {};
    assert d * {'y', 'w'} == {'y'};
    assert |{'y', 'z'}| == 2 && |{'y', 'w'}| == 2 && |{'v', 'w'}| == 2;
  }
}
