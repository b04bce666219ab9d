/**
 * How an agent values bundles (agents.py). An agent stands for one or several
 * agents with the same valuation; there are three variants: an explicit table
 * from bundle to value (monotone), a sum of per-good weights (additive) and the
 * number of desired goods a bundle holds (binary).
 */
module Valuations {
  import opened Outcomes
  import opened Goods

  datatype Valuation =
    | Monotone(table: map<set<Good>, int>)
    | Additive(weights: map<Good, int>)
    | Binary(desired: set<Good>)

  /** An agent: its valuation, its total value and how many agents share it. */
  datatype Agent = Agent(valuation: Valuation, totalValue: int, cardinality: int)

  // ---------------------------------------------------------------------------
  // Sums of weights.

  /** The total weight of a bundle whose goods all have a weight. */
  function Sum(w: map<Good, int>, b: set<Good>): int
    requires b <= w.Keys
    decreases |b|
  {
    if b == {} then 0 else var g := Least(b); w[g] + Sum(w, b - {g})
  }

  /** Any good of the bundle can be taken out first. */
  lemma {:induction false} SumRemove(w: map<Good, int>, b: set<Good>, x: Good)
    requires b <= w.Keys && x in b
    ensures Sum(w, b) == w[x] + Sum(w, b - {x})
    decreases |b|
  {
    var g := Least(b);
    if g != x {
      SumRemove(w, b - {g}, x);
      SumRemove(w, b - {x}, g);
      assert b - {g} - {x} == b - {x} - {g};
    }
  }

  /** The weight of a disjoint union is the sum of the weights. */
  lemma {:induction false} SumUnion(w: map<Good, int>, a: set<Good>, b: set<Good>)
    requires a <= w.Keys && b <= w.Keys && a !! b
    ensures Sum(w, a + b) == Sum(w, a) + Sum(w, b)
    decreases |a|
  {
    if a != {} {
      var g := Least(a);
      SumUnion(w, a - {g}, b);
      SumRemove(w, a + b, g);
      assert (a + b) - {g} == (a - {g}) + b;
      assert Sum(w, a) == w[g] + Sum(w, a - {g});
    } else {
      assert a + b == b;
    }
  }

  /** With non-negative weights, a bigger bundle weighs at least as much. */
  lemma SumMonotone(w: map<Good, int>, a: set<Good>, b: set<Good>)
    requires b <= w.Keys && a <= b
    requires forall g | g in w :: w[g] >= 0
    ensures Sum(w, a) <= Sum(w, b)
  {
    SumUnion(w, a, b - a);
    SumNonNegative(w, b - a);
    assert a + (b - a) == b;
  }

  lemma {:induction false} SumNonNegative(w: map<Good, int>, b: set<Good>)
    requires b <= w.Keys
    requires forall g | g in w :: w[g] >= 0
    ensures Sum(w, b) >= 0
    decreases |b|
  {
    if b != {} {
      SumNonNegative(w, b - {Least(b)});
    }
  }

  // ---------------------------------------------------------------------------
  // Construction.

  lemma {:induction false} MaxExists(vs: set<int>, w: int)
    requires w in vs
    ensures exists m :: m in vs && forall v | v in vs :: v <= m
    decreases |vs|
  {
    if !(forall v | v in vs :: v <= w) {
      var v :| v in vs && v > w;
      MaxExists(vs - {w}, v);
      var m :| m in vs - {w} && forall u | u in vs - {w} :: u <= m;
      forall u | u in vs
        ensures u <= m
      {
        if u != w { assert u in vs - {w}; }
      }
    }
  }

  /** The largest of a finite set of values that holds w. */
  function MaxOf(vs: set<int>, w: int): (m: int)
    requires w in vs
    ensures m in vs && forall v | v in vs :: v <= m
  {
    MaxExists(vs, w);
    var m :| m in vs && forall v | v in vs :: v <= m; m
  }

  lemma {:induction false} MinExists(vs: set<int>, w: int)
    requires w in vs
    ensures exists m :: m in vs && forall v | v in vs :: m <= v
    decreases |vs|
  {
    if !(forall v | v in vs :: w <= v) {
      var v :| v in vs && v < w;
      MinExists(vs - {w}, v);
      var m :| m in vs - {w} && forall u | u in vs - {w} :: m <= u;
      forall u | u in vs
        ensures m <= u
      {
        if u != w { assert u in vs - {w}; }
      }
    }
  }

  /** The smallest of a finite set of values that holds w. */
  function MinOf(vs: set<int>, w: int): (m: int)
    requires w in vs
    ensures m in vs && forall v | v in vs :: m <= v
  {
    MinExists(vs, w);
    var m :| m in vs && forall v | v in vs :: m <= v; m
  }

  /**
   * MonotoneAgent: the total value is the largest value of the supplied table
   * (an empty table has no largest value), and the empty bundle is then set to 0.
   */
  function NewMonotoneAgent(table: map<set<Good>, int>, cardinality: int): (r: Result<Agent>)
    ensures r.Err? <==> table == map[]
    ensures r.Ok? ==>
      (&& r.value.valuation.Monotone?
       && r.value.valuation.table.Keys == table.Keys + {{}}
       && r.value.valuation.table[{}] == 0
       && (forall b | b in table && b != {} :: r.value.valuation.table[b] == table[b])
       && r.value.totalValue in table.Values
       && (forall v | v in table.Values :: v <= r.value.totalValue)
       && r.value.cardinality == cardinality)
  {
    if table == map[] then Err(EmptyMax)
    else
      var some :| some in table;
      assert table[some] in table.Values;
      Ok(Agent(Monotone(table[{} := 0]), MaxOf(table.Values, table[some]), cardinality))
  }

  /** AdditiveAgent: the total value is the sum of all weights. */
  function NewAdditiveAgent(weights: map<Good, int>, cardinality: int): (a: Agent)
    ensures a.valuation == Additive(weights) && a.cardinality == cardinality
    ensures a.totalValue == Sum(weights, weights.Keys)
  {
    Agent(Additive(weights), Sum(weights, weights.Keys), cardinality)
  }

  /** BinaryAgent: the total value is the number of desired goods. */
  function NewBinaryAgent(desired: set<Good>, cardinality: int): (a: Agent)
    ensures a.valuation == Binary(desired) && a.cardinality == cardinality
    ensures a.totalValue == |desired|
  {
    Agent(Binary(desired), |desired|, cardinality)
  }

  // ---------------------------------------------------------------------------
  // Values.

  /** The value of a binary agent: how many desired goods the bundle holds. */
  function BinaryValue(desired: set<Good>, b: set<Good>): (v: nat)
    ensures v <= |b| && v <= |desired|
  {
    assert b == (desired * b) + (b - desired);
    assert desired == (desired * b) + (desired - b);
    |desired * b|
  }

  /** The one way a variant's value can fail. */
  function ValueFailure(v: Valuation): Error
  {
    match v
    case Monotone(_) => UndefinedValuation
    case Additive(_) => UnknownGood
    case Binary(_) => UnknownGood
  }

  /** The agent's value for a bundle: a table entry, a sum of weights, or a count of desired goods. */
  function Value(v: Valuation, b: set<Good>): (r: Result<int>)
    ensures r.Err? ==> r.error == ValueFailure(v)
  {
    match v
    case Monotone(table) => if b in table then Ok(table[b]) else Err(UndefinedValuation)
    case Additive(weights) => if b <= weights.Keys then Ok(Sum(weights, b)) else Err(UnknownGood)
    case Binary(desired) => Ok(BinaryValue(desired, b))
  }

  /** A monotone agent answers exactly the bundles of its table, and the empty bundle with 0. */
  lemma MonotoneValue(table: map<set<Good>, int>, cardinality: int, b: set<Good>)
    requires table != map[]
    ensures var a := NewMonotoneAgent(table, cardinality).value;
      && Value(a.valuation, {}) == Ok(0)
      && (b != {} ==> (Value(a.valuation, b).Ok? <==> b in table))
      && (b != {} && b in table ==> Value(a.valuation, b) == Ok(table[b]))
  {
  }

  /** An additive value is defined on exactly the bundles of weighted goods, and adds up over disjoint bundles. */
  lemma AdditiveValue(weights: map<Good, int>, a: set<Good>, b: set<Good>)
    requires a !! b
    ensures Value(Additive(weights), a + b).Ok? <==> Value(Additive(weights), a).Ok? && Value(Additive(weights), b).Ok?
    ensures Value(Additive(weights), a + b).Ok? ==>
      Value(Additive(weights), a + b).value == Value(Additive(weights), a).value + Value(Additive(weights), b).value
  {
    if a + b <= weights.Keys {
      SumUnion(weights, a, b);
    }
  }

  /** A binary value is at most the bundle's size and at most the total value, and is 0 for the empty bundle. */
  lemma BinaryValueBounds(desired: set<Good>, cardinality: int, b: set<Good>)
    ensures var a := NewBinaryAgent(desired, cardinality);
      && Value(a.valuation, b).Ok?
      && 0 <= Value(a.valuation, b).value <= |b|
      && Value(a.valuation, b).value <= a.totalValue
      && Value(a.valuation, {}) == Ok(0)
  {
  }

  /** The goods a binary agent values with 1: those of the bundle it desires. */
  lemma BinaryValueCounts(desired: set<Good>, b: set<Good>)
    ensures BinaryValue(desired, b) == |b| - |b - desired|
  {
    assert b == (desired * b) + (b - desired);
    assert (desired * b) !! (b - desired);
  }

  /** The desired goods: an additive agent's goods of positive weight, a binary agent's desired set. */
  function DesiredGoods(v: Valuation): (r: Result<set<Good>>)
    ensures v.Monotone? <==> r.Err?
    ensures v.Additive? ==> forall g :: g in r.value <==> g in v.weights && v.weights[g] > 0
    ensures v.Binary? ==> r == Ok(v.desired)
  {
    match v
    case Monotone(_) => Err(UnsupportedOperation)
    case Additive(weights) => Ok(set g | g in weights && weights[g] > 0)
    case Binary(desired) => Ok(desired)
  }

  /** The doctests of MonotoneAgent. */
  lemma MonotoneExamples()
    ensures var r := NewMonotoneAgent(map[{'x'} := 1, {'y'} := 2, {'x', 'y'} := 4], 1);
      && r.Ok?
      && Value(r.value.valuation, {}) == Ok(0)
      && Value(r.value.valuation, {'x'}) == Ok(1)
      && Value(r.value.valuation, {'y', 'x'}) == Ok(4)
  {
    var t := map[{'x'} := 1, {'y'} := 2, {'x', 'y'} := 4];
    assert {'x'} in t;
    assert {'y', 'x'} == {'x', 'y'};
    assert 'x' in {'y', 'x'} && 'x' in {'x'};
  }

  /** The doctests of AdditiveAgent.value. */
  lemma AdditiveExamples()
    ensures var a := Additive(map['x' := 1, 'y' := 2, 'z' := 4, 'w' := 0]);
      && Value(a, {}) == Ok(0) && Value(a, {'w'}) == Ok(0) && Value(a, {'x'}) == Ok(1)
      && Value(a, {'y', 'x'}) == Ok(3) && Value(a, {'y', 'x', 'z'}) == Ok(7)
  {
    var w := map['x' := 1, 'y' := 2, 'z' := 4, 'w' := 0];
    SumRemove(w, {'x'}, 'x');
    SumRemove(w, {'w'}, 'w');
    SumRemove(w, {'x', 'y'}, 'x');
    assert {'x', 'y'} - {'x'} == {'y'};
    SumRemove(w, {'y'}, 'y');
    SumRemove(w, {'x', 'y', 'z'}, 'z');
    assert {'x', 'y', 'z'} - {'z'} == {'x', 'y'};
    assert {'y', 'x'} == {'x', 'y'} && {'y', 'x', 'z'} == {'x', 'y', 'z'};
  }

  /** The doctests of BinaryAgent.value. */
  lemma BinaryExamples()
    ensures var b := Binary({'x', 'y', 'z'});
      && Value(b, {'x', 'w'}) == Ok(1) && Value(b, {'y', 'z'}) == Ok(2) && Value(b, {'w', 'x', 'y'}) == Ok(2)
      && Value(b, {'w'}) == Ok(0) && Value(Binary({}), {'x', 'y', 'z'}) == Ok(0)
  {
    assert {'x', 'y', 'z'} * {'x', 'w'} == {'x'};
    assert {'x', 'y', 'z'} * {'y', 'z'} == {'y', 'z'};
    assert {'x', 'y', 'z'} * {'w', 'x', 'y'} == {'x', 'y'};
    assert {'x', 'y', 'z'} * {'w'} == {};
  }
}
