/**
 * The two-family protocols of monotone_families.py: the line protocol (the
 * round robin with two-family voting weights), Enhanced RWAV (a one-good
 * shortcut taken when enough of a family wants that good, otherwise the round
 * robin) and the two-thirds local search, which moves goods between the two
 * bundles while a move helps more agents than it harms.
 */
module MonotoneFamilies {
  import opened Outcomes
  import opened Goods
  import opened Valuations
  import opened VotingWeights
  import opened Rwav

  // ---------------------------------------------------------------------------
  // The line protocol.

  /** With two families no closed-form curve is ever consulted; any curve will do. */
  const NoCurve: Curve := (r: int, k: int) => 0.0

  /** member_weight of the line protocol: w(r, s), r the desired goods remaining, s what is still owed. */
  function LineMemberWeight(m: Member, owned: set<Good>, remaining: set<Good>): (w: real)
    ensures 0.0 <= w <= 1.0
    ensures m.target <= BinaryValue(m.desired, owned) ==> w == 0.0
  {
    Weight(BinaryValue(m.desired, remaining), m.target - BinaryValue(m.desired, owned))
  }

  /** The line weight is the two-family weight of the round robin, lies in [0, 1], and is 0 for a satisfied or hopeless member. */
  lemma LineMemberWeightAgrees(m: Member, owned: set<Good>, remaining: set<Good>, curve: Curve)
    ensures MemberWeight(m, owned, remaining, 2, curve) == Ok(LineMemberWeight(m, owned, remaining))
    ensures 0.0 <= LineMemberWeight(m, owned, remaining) <= 1.0
    ensures var s := m.target - BinaryValue(m.desired, owned);
      s <= 0 || s > BinaryValue(m.desired, remaining) ==> LineMemberWeight(m, owned, remaining) == 0.0
  {
    MemberWeightTwo(m, owned, remaining, curve);
  }

  /** The member_weight doctest: Alice is worth 0.5 and Bob 0.375. */
  lemma LineMemberWeightExamples()
    ensures LineMemberWeight(Member({'w', 'x'}, 1, 1), {}, {'x', 'y', 'z'}) == 0.5
    ensures LineMemberWeight(Member({'w', 'x', 'y', 'z'}, 1, 2), {}, {'x', 'y', 'z'}) == 0.375
  {
    MemberWeightExamples(NoCurve);
    LineMemberWeightAgrees(Member({'w', 'x'}, 1, 1), {}, {'x', 'y', 'z'}, NoCurve);
    LineMemberWeightAgrees(Member({'w', 'x', 'y', 'z'}, 1, 2), {}, {'x', 'y', 'z'}, NoCurve);
  }

  /** With k = 2 the weights of a family do not depend on the curve. */
  lemma {:induction false} WeightsIgnoreCurve(family: Family, owned: set<Good>, remaining: set<Good>, c1: Curve, c2: Curve)
    ensures MemberWeights(family, owned, remaining, 2, c1) == MemberWeights(family, owned, remaining, 2, c2)
    decreases |family|
  {
    if family != [] {
      WeightsIgnoreCurve(family[..|family| - 1], owned, remaining, c1, c2);
      MemberWeightTwo(family[|family| - 1], owned, remaining, c1);
      MemberWeightTwo(family[|family| - 1], owned, remaining, c2);
    }
  }

  /** choose_good of the line protocol is the two-family choice of the round robin, whatever the curve. */
  lemma LineChooseGood(family: Family, owned: set<Good>, remaining: set<Good>, curve: Curve)
    ensures ChooseGoodSpec(family, owned, remaining, 2, curve) == ChooseGoodSpec(family, owned, remaining, 2, NoCurve)
  {
    WeightsIgnoreCurve(family, owned, remaining, curve, NoCurve);
  }

  /** The choose_good doctest: two members wanting {x, y} and {z, w}, each owed one good; z is chosen. */
  lemma LineChooseGoodExample()
    ensures ChooseGoodSpec([Member({'x', 'y'}, 1, 1), Member({'z', 'w'}, 1, 1)], {}, {'x', 'y', 'z'}, 2, NoCurve) == Ok('z')
  {
    ChooseGoodExample(NoCurve);
  }

  /** allocate_on_a_line: exactly two families, which take turns picking goods. */
  function LineAllocate(families: seq<Family>, goods: set<Good>): Result<seq<set<Good>>>
  {
    if |families| != 2 then Err(NotTwoFamilies)
    else RoundRobinAllocate(families, goods, 2, NoCurve)
  }

  method AllocateOnALine(families: seq<Family>, goods: set<Good>) returns (r: Result<seq<set<Good>>>)
    ensures r == LineAllocate(families, goods)
  {
    if |families| != 2 {
      return Err(NotTwoFamilies);
    }
    r := RoundRobin(families, goods, 2, NoCurve);
  }

  /**
   * The line protocol fails exactly when there are not two families; otherwise its
   * two bundles split the goods, the first family holding as many goods as the
   * second or one more.
   */
  lemma LineSplits(families: seq<Family>, goods: set<Good>)
    ensures LineAllocate(families, goods).Err? <==> |families| != 2
    ensures |families| == 2 ==>
      var b := LineAllocate(families, goods).value;
      |b| == 2 && Allocates(b, goods) && |b[1]| <= |b[0]| <= |b[1]| + 1
  {
    if |families| == 2 {
      RoundRobinAllocateTwo(families, goods, NoCurve);
      RoundRobinSplitsFairly(families, goods, 2, NoCurve);
    }
  }

  /** The allocate_on_a_line doctest: the first family gets {x, z} and the second {w, y}. */
  lemma LineExample()
    ensures LineAllocate([Family1, Family2], {'w', 'x', 'y', 'z'}) == Ok([{'x', 'z'}, {'w', 'y'}])
  {
    AllocateExample(NoCurve);
  }

  // ---------------------------------------------------------------------------
  // Counting the agents of a family.

  /** num_of_members: the agents a family stands for, each member counted with its cardinality. */
  function Size(family: Family): int
  {
    if family == [] then 0 else family[0].cardinality + Size(family[1..])
  }

  /** num_of_members_who_want(g): the agents of the members that desire g. */
  function Wanting(family: Family, g: Good): int
  {
    if family == [] then 0
    else (if g in family[0].desired then family[0].cardinality else 0) + Wanting(family[1..], g)
  }

  /** With non-negative cardinalities, the agents wanting a good are between none and all of the family. */
  lemma {:induction false} WantingAtMostSize(family: Family, g: Good)
    requires forall i | 0 <= i < |family| :: family[i].cardinality >= 0
    ensures 0 <= Wanting(family, g) <= Size(family)
  {
    if family != [] {
      WantingAtMostSize(family[1..], g);
    }
  }

  /**
   * The agents of the members that desire g and hold exactly `level` of their
   * desired goods in the bundle.
   */
  function Poor(family: Family, g: Good, bundle: set<Good>, level: int): int
  {
    if family == [] then 0
    else
      var m := family[0];
      (if g in m.desired && BinaryValue(m.desired, bundle) == level then m.cardinality else 0)
      + Poor(family[1..], g, bundle, level)
  }

  // ---------------------------------------------------------------------------
  // Enhanced RWAV.

  /** What the scan over the goods found: a good that one family wants enough, or none. */
  datatype Trigger = FirstFamily(g: Good) | SecondFamily(g: Good) | NoTrigger

  /** At least the threshold fraction of the family's agents wants g. */
  predicate Meets(family: Family, g: Good, threshold: real)
  {
    Wanting(family, g) as real >= threshold * Size(family) as real
  }

  /** The first good of the order that the first family, or else the second, wants enough. */
  function FirstTrigger(f0: Family, f1: Family, order: seq<Good>, threshold: real): Trigger
  {
    if order == [] then NoTrigger
    else if Meets(f0, order[0], threshold) then FirstFamily(order[0])
    else if Meets(f1, order[0], threshold) then SecondFamily(order[0])
    else FirstTrigger(f0, f1, order[1..], threshold)
  }

  /** No trigger exactly when neither family wants any good of the order enough. */
  lemma {:induction false} NoTriggerIff(f0: Family, f1: Family, order: seq<Good>, threshold: real)
    ensures FirstTrigger(f0, f1, order, threshold).NoTrigger? <==>
      forall i | 0 <= i < |order| :: !Meets(f0, order[i], threshold) && !Meets(f1, order[i], threshold)
  {
    if order != [] {
      NoTriggerIff(f0, f1, order[1..], threshold);
      assert forall i | 1 <= i < |order| :: order[i] == order[1..][i - 1];
    }
  }

  /**
   * A trigger names the good at some position i of the order that no family wants
   * enough before i; the first family is preferred when both want it enough.
   */
  lemma {:induction false} TriggerAt(f0: Family, f1: Family, order: seq<Good>, threshold: real) returns (i: nat)
    requires !FirstTrigger(f0, f1, order, threshold).NoTrigger?
    ensures var t := FirstTrigger(f0, f1, order, threshold);
      && i < |order| && order[i] == t.g
      && (forall j | 0 <= j < i :: !Meets(f0, order[j], threshold) && !Meets(f1, order[j], threshold))
      && (t.FirstFamily? <==> Meets(f0, t.g, threshold))
      && (t.SecondFamily? ==> Meets(f1, t.g, threshold))
  {
    if Meets(f0, order[0], threshold) || Meets(f1, order[0], threshold) {
      i := 0;
    } else {
      var i' := TriggerAt(f0, f1, order[1..], threshold);
      i := i' + 1;
    }
  }

  /**
   * allocate_using_enhanced_RWAV: with two families, the first good (in good order)
   * that one family wants enough goes to that family alone and every other good to
   * the other family; when there is none, the goods are split by the two-family
   * round robin.
   */
  function EnhancedRWAV(families: seq<Family>, goods: set<Good>, threshold: real): Result<seq<set<Good>>>
  {
    if |families| != 2 then Err(NotTwoFamilies)
    else
      match FirstTrigger(families[0], families[1], Ascending(goods), threshold)
      case FirstFamily(g) => Ok([{g}, goods - {g}])
      case SecondFamily(g) => Ok([goods - {g}, {g}])
      case NoTrigger => RoundRobinAllocate(families, goods, 2, NoCurve)
  }

  method AllocateUsingEnhancedRWAV(families: seq<Family>, goods: set<Good>, threshold: real) returns (r: Result<seq<set<Good>>>)
    ensures r == EnhancedRWAV(families, goods, threshold)
  {
    if |families| != 2 {
      return Err(NotTwoFamilies);
    }
    var threshold0 := threshold * Size(families[0]) as real;
    var threshold1 := threshold * Size(families[1]) as real;
    var order := Ascending(goods);
    var i := 0;
    while i < |order|
      invariant 0 <= i <= |order|
      invariant FirstTrigger(families[0], families[1], order, threshold)
             == FirstTrigger(families[0], families[1], order[i..], threshold)
    {
      var g := order[i];
      assert order[i..][1..] == order[i + 1..];
      if Wanting(families[0], g) as real >= threshold0 {
        return Ok([{g}, goods - {g}]);
      } else if Wanting(families[1], g) as real >= threshold1 {
        return Ok([goods - {g}, {g}]);
      }
      i := i + 1;
    }
    r := Allocate(families, goods, NoCurve);
  }

  /**
   * Over all the goods in good order: a trigger names a good of the bundle that its
   * family wants enough, and no trigger means that neither family wants any good
   * enough.
   */
  lemma GoodsTrigger(f0: Family, f1: Family, goods: set<Good>, threshold: real)
    ensures var t := FirstTrigger(f0, f1, Ascending(goods), threshold);
      if t.NoTrigger? then forall g | g in goods :: !Meets(f0, g, threshold) && !Meets(f1, g, threshold)
      else t.g in goods && Meets(if t.FirstFamily? then f0 else f1, t.g, threshold)
  {
    var order := Ascending(goods);
    AscendingSorted(goods);
    if FirstTrigger(f0, f1, order, threshold).NoTrigger? {
      NoTriggerIff(f0, f1, order, threshold);
      assert forall g | g in goods :: exists i | 0 <= i < |order| :: order[i] == g;
    } else {
      var i := TriggerAt(f0, f1, order, threshold);
    }
  }

  lemma UnionOfTwo(a: set<Good>, b: set<Good>)
    ensures UnionOf([a, b]) == a + b
  {
    assert [a, b][1..] == [b] && [b][1..] == [];
    assert UnionOf([b]) == b + UnionOf([]);
  }

  /** One good against all the others splits the goods, on either side. */
  lemma ShortcutSplits(goods: set<Good>, g: Good)
    requires g in goods
    ensures Allocates([{g}, goods - {g}], goods) && Allocates([goods - {g}, {g}], goods)
  {
    UnionOfTwo({g}, goods - {g});
    UnionOfTwo(goods - {g}, {g});
  }

  /** With two families Enhanced RWAV always succeeds and its two bundles split the goods. */
  lemma EnhancedSplits(families: seq<Family>, goods: set<Good>, threshold: real)
    ensures EnhancedRWAV(families, goods, threshold).Err? <==> |families| != 2
    ensures |families| == 2 ==>
      var b := EnhancedRWAV(families, goods, threshold).value;
      |b| == 2 && Allocates(b, goods)
  {
    if |families| == 2 {
      var t := FirstTrigger(families[0], families[1], Ascending(goods), threshold);
      GoodsTrigger(families[0], families[1], goods, threshold);
      if t.NoTrigger? {
        RoundRobinAllocateTwo(families, goods, NoCurve);
        RoundRobinSplitsFairly(families, goods, 2, NoCurve);
      } else {
        ShortcutSplits(goods, t.g);
      }
    }
  }

  const Enhanced1: Family := [Member({'w', 'x'}, 1, 1), Member({'x', 'y'}, 3, 1), Member({'y', 'z'}, 3, 1), Member({'w', 'v'}, 3, 1)]
  const Enhanced2: Family := [Member({'w', 'x'}, 5, 1), Member({'y', 'z'}, 5, 1)]

  /** Of the ten agents of the first doctest family, six want y and at most four want v, w or x; the other family stops at five. */
  lemma EnhancedCounts()
    ensures Size(Enhanced1) == 10 && Size(Enhanced2) == 10
    ensures Wanting(Enhanced1, 'v') == 3 && Wanting(Enhanced1, 'w') == 4
    ensures Wanting(Enhanced1, 'x') == 4 && Wanting(Enhanced1, 'y') == 6
    ensures Wanting(Enhanced2, 'v') == 0 && Wanting(Enhanced2, 'w') == 5
    ensures Wanting(Enhanced2, 'x') == 5 && Wanting(Enhanced2, 'y') == 5
  {
  }

  /** With threshold 0.6 the scan stops at y, for the first family, in either order of the families. */
  lemma EnhancedTrigger()
    ensures FirstTrigger(Enhanced1, Enhanced2, ['v', 'w', 'x', 'y', 'z'], 0.6) == FirstFamily('y')
    ensures FirstTrigger(Enhanced2, Enhanced1, ['v', 'w', 'x', 'y', 'z'], 0.6) == SecondFamily('y')
  {
    EnhancedCounts();
    var order := ['v', 'w', 'x', 'y', 'z'];
    assert order[1..] == ['w', 'x', 'y', 'z'];
    assert order[1..][1..] == ['x', 'y', 'z'];
    assert order[1..][1..][1..] == ['y', 'z'];
  }

  /** The allocate_using_enhanced_RWAV doctest: the family with six of ten agents wanting y gets {y}, whichever side it is on. */
  lemma EnhancedExample()
    ensures EnhancedRWAV([Enhanced1, Enhanced2], {'v', 'w', 'x', 'y', 'z'}, 0.6) == Ok([{'y'}, {'v', 'w', 'x', 'z'}])
    ensures EnhancedRWAV([Enhanced2, Enhanced1], {'v', 'w', 'x', 'y', 'z'}, 0.6) == Ok([{'v', 'w', 'x', 'z'}, {'y'}])
  {
    AscendingOfFive('v', 'w', 'x', 'y', 'z');
    EnhancedTrigger();
    assert {'v', 'w', 'x', 'y', 'z'} - {'y'} == {'v', 'w', 'x', 'z'};
  }

  // ---------------------------------------------------------------------------
  // The two-thirds protocol.

  /** The two bundles, of the first and of the second family. */
  datatype Bundles = Bundles(first: set<Good>, second: set<Good>)

  /** What a sweep leaves: the giver's and the receiver's bundles, and whether any good moved. */
  datatype Sweep = Sweep(giver: set<Good>, receiver: set<Good>, moved: bool)

  /**
   * One sweep over the goods the giver held when it began, in good order: a good
   * moves to the receiver when more of the receiver's agents want it and hold none
   * of their desired goods than of the giver's agents want it and hold exactly one.
   * Each test sees the moves made before it.
   */
  function SweepGoods(giverFamily: Family, receiverFamily: Family, order: seq<Good>, giver: set<Good>, receiver: set<Good>): Sweep
  {
    if order == [] then Sweep(giver, receiver, false)
    else
      var g := order[0];
      if Poor(receiverFamily, g, receiver, 0) > Poor(giverFamily, g, giver, 1) then
        var rest := SweepGoods(giverFamily, receiverFamily, order[1..], giver - {g}, receiver + {g});
        Sweep(rest.giver, rest.receiver, true)
      else SweepGoods(giverFamily, receiverFamily, order[1..], giver, receiver)
  }

  /**
   * A sweep over distinct goods of the giver keeps the bundles disjoint and their
   * union unchanged, and a sweep in which nothing moved changes nothing.
   */
  lemma {:induction false} SweepSplits(giverFamily: Family, receiverFamily: Family, order: seq<Good>, giver: set<Good>, receiver: set<Good>)
    requires Distinct(order) && forall i | 0 <= i < |order| :: order[i] in giver
    requires giver !! receiver
    ensures var s := SweepGoods(giverFamily, receiverFamily, order, giver, receiver);
      && s.giver !! s.receiver && s.giver + s.receiver == giver + receiver
      && (!s.moved ==> s.giver == giver && s.receiver == receiver)
  {
    if order != [] {
      var g := order[0];
      assert forall i | 0 <= i < |order[1..]| :: order[1..][i] == order[i + 1] && order[i + 1] != g;
      if Poor(receiverFamily, g, receiver, 0) > Poor(giverFamily, g, giver, 1) {
        SweepSplits(giverFamily, receiverFamily, order[1..], giver - {g}, receiver + {g});
      } else {
        SweepSplits(giverFamily, receiverFamily, order[1..], giver, receiver);
      }
    }
  }

  /** A sweep over all the goods the giver holds, in good order. */
  function SweepOf(giverFamily: Family, receiverFamily: Family, giver: set<Good>, receiver: set<Good>): Sweep
  {
    SweepGoods(giverFamily, receiverFamily, Ascending(giver), giver, receiver)
  }

  /** A whole sweep keeps the bundles disjoint with the same union, and changes nothing when nothing moved. */
  lemma SweepOfSplits(giverFamily: Family, receiverFamily: Family, giver: set<Good>, receiver: set<Good>)
    requires giver !! receiver
    ensures var s := SweepOf(giverFamily, receiverFamily, giver, receiver);
      && s.giver !! s.receiver && s.giver + s.receiver == giver + receiver
      && (!s.moved ==> s.giver == giver && s.receiver == receiver)
  {
    var order := Ascending(giver);
    AscendingSorted(giver);
    assert Distinct(order) && forall i | 0 <= i < |order| :: order[i] in giver;
    SweepSplits(giverFamily, receiverFamily, order, giver, receiver);
  }

  /** One iteration: the first family sweeps its goods, then the second family sweeps its own. */
  function Round(f0: Family, f1: Family, b: Bundles): (Bundles, bool)
  {
    var s0 := SweepOf(f0, f1, b.first, b.second);
    var s1 := SweepOf(f1, f0, s0.receiver, s0.giver);
    (Bundles(s1.receiver, s1.giver), s0.moved || s1.moved)
  }

  /** An iteration keeps the bundles disjoint with the same union; one in which nothing moved changes nothing. */
  lemma RoundSplits(f0: Family, f1: Family, b: Bundles)
    requires b.first !! b.second
    ensures var next := Round(f0, f1, b).0;
      && next.first !! next.second && next.first + next.second == b.first + b.second
      && (!Round(f0, f1, b).1 ==> next == b)
  {
    var s0 := SweepOf(f0, f1, b.first, b.second);
    var s1 := SweepOf(f1, f0, s0.receiver, s0.giver);
    assert Round(f0, f1, b) == (Bundles(s1.receiver, s1.giver), s0.moved || s1.moved);
    SweepOfSplits(f0, f1, b.first, b.second);
    SweepOfSplits(f1, f0, s0.receiver, s0.giver);
  }

  /** At most n iterations, stopping after the first one in which nothing moved. */
  function Iterate(f0: Family, f1: Family, b: Bundles, n: nat): Bundles
    decreases n
  {
    if n == 0 then b
    else
      var next := Round(f0, f1, b);
      if !next.1 then next.0 else Iterate(f0, f1, next.0, n - 1)
  }

  /** Iterating keeps the bundles disjoint with the same union. */
  lemma {:induction false} IterateSplits(f0: Family, f1: Family, b: Bundles, n: nat)
    requires b.first !! b.second
    ensures var r := Iterate(f0, f1, b, n);
      r.first !! r.second && r.first + r.second == b.first + b.second
    decreases n
  {
    if n > 0 {
      var next, moved := IterateUnfold(f0, f1, b, n);
      if moved {
        IterateSplits(f0, f1, next, n - 1);
      }
    }
  }

  /** One iteration, named: the bundles it leaves still split the same goods, and the rest of the iteration continues from them. */
  lemma IterateUnfold(f0: Family, f1: Family, b: Bundles, n: nat) returns (next: Bundles, moved: bool)
    requires n > 0 && b.first !! b.second
    ensures next.first !! next.second && next.first + next.second == b.first + b.second
    ensures Iterate(f0, f1, b, n) == if moved then Iterate(f0, f1, next, n - 1) else next
  {
    next, moved := Round(f0, f1, b).0, Round(f0, f1, b).1;
    RoundSplits(f0, f1, b);
  }

  /** Bundles in which an iteration moves nothing are final, however many iterations remain. */
  lemma IterateStable(f0: Family, f1: Family, b: Bundles, n: nat)
    requires b.first !! b.second
    requires !Round(f0, f1, b).1
    ensures Iterate(f0, f1, b, n) == b
  {
    RoundSplits(f0, f1, b);
  }

  /** Twice the agents of both families, and no iteration at all when that is not positive. */
  function Iterations(f0: Family, f1: Family): nat
  {
    var n := 2 * (Size(f0) + Size(f1));
    if n < 0 then 0 else n
  }

  /**
   * allocate_twothirds: with two families, start from the second family holding
   * every good and iterate the two sweeps.
   */
  function TwoThirds(families: seq<Family>, goods: set<Good>): Result<seq<set<Good>>>
  {
    if |families| != 2 then Err(NotTwoFamilies)
    else
      var b := Iterate(families[0], families[1], Bundles({}, goods), Iterations(families[0], families[1]));
      Ok([b.first, b.second])
  }

  /** The inner loop of allocate_twothirds over a snapshot of the giver's goods, in good order. */
  method SweepBundle(giverFamily: Family, receiverFamily: Family, giver: set<Good>, receiver: set<Good>) returns (s: Sweep)
    ensures s == SweepOf(giverFamily, receiverFamily, giver, receiver)
  {
    var order := Ascending(giver);
    var gives, gets := giver, receiver;
    var change := false;
    var i := 0;
    while i < |order|
      invariant 0 <= i <= |order|
      invariant var rest := SweepGoods(giverFamily, receiverFamily, order[i..], gives, gets);
        SweepGoods(giverFamily, receiverFamily, order, giver, receiver) == Sweep(rest.giver, rest.receiver, change || rest.moved)
    {
      var g := order[i];
      assert order[i..][1..] == order[i + 1..];
      var poorReceivers := Poor(receiverFamily, g, gets, 0);
      var poorGivers := Poor(giverFamily, g, gives, 1);
      if poorReceivers > poorGivers {
        gives := gives - {g};
        gets := gets + {g};
        change := true;
      }
      i := i + 1;
    }
    s := Sweep(gives, gets, change);
  }

  method AllocateTwoThirds(families: seq<Family>, goods: set<Good>) returns (r: Result<seq<set<Good>>>)
    ensures r == TwoThirds(families, goods)
  {
    if |families| != 2 {
      return Err(NotTwoFamilies);
    }
    var f0, f1 := families[0], families[1];
    var bundles := Bundles({}, goods);
    var iterations := Iterations(f0, f1);
    var iteration := 0;
    while iteration < iterations
      invariant 0 <= iteration <= iterations
      invariant Iterate(f0, f1, Bundles({}, goods), iterations) == Iterate(f0, f1, bundles, iterations - iteration)
    {
      var s0 := SweepBundle(f0, f1, bundles.first, bundles.second);
      var s1 := SweepBundle(f1, f0, s0.receiver, s0.giver);
      bundles := Bundles(s1.receiver, s1.giver);
      if !(s0.moved || s1.moved) {
        return Ok([bundles.first, bundles.second]);
      }
      iteration := iteration + 1;
    }
    r := Ok([bundles.first, bundles.second]);
  }

  /** With two families the two-thirds protocol succeeds and its two bundles split the goods. */
  lemma TwoThirdsSplits(families: seq<Family>, goods: set<Good>)
    ensures TwoThirds(families, goods).Err? <==> |families| != 2
    ensures |families| == 2 ==>
      var b := TwoThirds(families, goods).value;
      |b| == 2 && Allocates(b, goods)
  {
    if |families| == 2 {
      IterateSplits(families[0], families[1], Bundles({}, goods), Iterations(families[0], families[1]));
      var b := TwoThirds(families, goods).value;
      assert UnionOf(b) == b[0] + b[1] by {
        assert UnionOf(b[1..]) == b[1] + UnionOf(b[2..]);
      }
    }
  }

  /** The family of the allocate_twothirds doctest: one agent wanting {w, x} and one wanting {y, z}. */
  const Pairs: Family := [Member({'w', 'x'}, 1, 1), Member({'y', 'z'}, 1, 1)]

  /** The poor agents the sweeps of the doctest count. */
  lemma PairsPoor()
    ensures Poor(Pairs, 'w', {}, 0) == 1 && Poor(Pairs, 'w', {'w', 'x', 'y', 'z'}, 1) == 0
    ensures Poor(Pairs, 'x', {'w'}, 0) == 0 && Poor(Pairs, 'x', {'x', 'y', 'z'}, 1) == 1
    ensures Poor(Pairs, 'y', {'w'}, 0) == 1 && Poor(Pairs, 'y', {'x', 'y', 'z'}, 1) == 0
    ensures Poor(Pairs, 'z', {'w', 'y'}, 0) == 0 && Poor(Pairs, 'z', {'x', 'z'}, 1) == 1
    ensures Poor(Pairs, 'w', {'x', 'z'}, 0) == 0 && Poor(Pairs, 'y', {'x', 'z'}, 0) == 0
    ensures Poor(Pairs, 'x', {'w', 'y'}, 0) == 0 && Poor(Pairs, 'z', {'w', 'y'}, 0) == 0
  {
    assert {'w', 'x'} * {'w', 'x', 'y', 'z'} == {'w', 'x'} && {'y', 'z'} * {'w'} == {};
    assert {'w', 'x'} * {'x', 'y', 'z'} == {'x'} && {'y', 'z'} * {'x', 'y', 'z'} == {'y', 'z'};
    assert {'w', 'x'} * {'w'} == {'w'} && {'y', 'z'} * {'w', 'y'} == {'y'};
    assert {'y', 'z'} * {'x', 'z'} == {'z'} && {'w', 'x'} * {'x', 'z'} == {'x'};
    assert {'w', 'x'} * {'w', 'y'} == {'w'};
  }

  /** The second half of the second family's first sweep: y moves, z stays. */
  lemma PairsFirstSweepEnd()
    ensures SweepGoods(Pairs, Pairs, ['y', 'z'], {'x', 'y', 'z'}, {'w'}) == Sweep({'x', 'z'}, {'w', 'y'}, true)
  {
    PairsPoor();
    assert ['y', 'z'][1..] == ['z'] && ['z'][1..] == [];
    assert {'x', 'y', 'z'} - {'y'} == {'x', 'z'} && {'w'} + {'y'} == {'w', 'y'};
    assert SweepGoods(Pairs, Pairs, ['z'], {'x', 'z'}, {'w', 'y'}) == Sweep({'x', 'z'}, {'w', 'y'}, false);
  }

  /** The second family's first sweep hands w and then y to the first family. */
  lemma PairsFirstSweep()
    ensures SweepGoods(Pairs, Pairs, ['w', 'x', 'y', 'z'], {'w', 'x', 'y', 'z'}, {}) == Sweep({'x', 'z'}, {'w', 'y'}, true)
  {
    PairsPoor();
    PairsFirstSweepEnd();
    assert ['w', 'x', 'y', 'z'][1..] == ['x', 'y', 'z'] && ['x', 'y', 'z'][1..] == ['y', 'z'];
    assert {'w', 'x', 'y', 'z'} - {'w'} == {'x', 'y', 'z'} && {} + {'w'} == {'w'};
    assert SweepGoods(Pairs, Pairs, ['x', 'y', 'z'], {'x', 'y', 'z'}, {'w'}) == Sweep({'x', 'z'}, {'w', 'y'}, true);
  }

  /** Once the first family holds {w, y} and the second {x, z}, neither sweep moves a good. */
  lemma PairsStableSweeps()
    ensures SweepGoods(Pairs, Pairs, ['w', 'y'], {'w', 'y'}, {'x', 'z'}) == Sweep({'w', 'y'}, {'x', 'z'}, false)
    ensures SweepGoods(Pairs, Pairs, ['x', 'z'], {'x', 'z'}, {'w', 'y'}) == Sweep({'x', 'z'}, {'w', 'y'}, false)
  {
    PairsPoor();
    assert ['w', 'y'][1..] == ['y'] && ['x', 'z'][1..] == ['z'];
    assert ['y'][1..] == [] && ['z'][1..] == [];
  }

  /** The two iterations of the doctest: the first moves w and y, the second nothing. */
  lemma PairsRounds()
    ensures Round(Pairs, Pairs, Bundles({}, {'w', 'x', 'y', 'z'})) == (Bundles({'w', 'y'}, {'x', 'z'}), true)
    ensures Round(Pairs, Pairs, Bundles({'w', 'y'}, {'x', 'z'})) == (Bundles({'w', 'y'}, {'x', 'z'}), false)
  {
    assert Ascending({}) == [];
    AscendingOfFour('w', 'x', 'y', 'z');
    AscendingOfTwo('w', 'y');
    AscendingOfTwo('x', 'z');
    PairsFirstSweep();
    PairsStableSweeps();
    assert SweepOf(Pairs, Pairs, {}, {'w', 'x', 'y', 'z'}) == Sweep({}, {'w', 'x', 'y', 'z'}, false);
  }

  /**
   * The allocate_twothirds doctest: two identical families of two agents, wanting
   * {w, x} and {y, z}, end with two goods each, {w, y} and {x, z}.
   */
  lemma TwoThirdsExample()
    ensures TwoThirds([Pairs, Pairs], {'w', 'x', 'y', 'z'}) == Ok([{'w', 'y'}, {'x', 'z'}])
  {
    PairsIterations();
    PairsIterate();
  }

  /** Two agents in each family: eight iterations at most. */
  lemma PairsIterations()
    ensures Iterations(Pairs, Pairs) == 8
  {
    assert Size(Pairs) == 2;
  }

  /** Eight iterations from the second family holding everything end at {w, y} and {x, z}. */
  lemma PairsIterate()
    ensures Iterate(Pairs, Pairs, Bundles({}, {'w', 'x', 'y', 'z'}), 8) == Bundles({'w', 'y'}, {'x', 'z'})
  {
    PairsRounds();
    IterateTwice(Pairs, Pairs, Bundles({}, {'w', 'x', 'y', 'z'}), Bundles({'w', 'y'}, {'x', 'z'}), 8);
  }

  /** An iteration that moves goods followed by one that moves none ends the protocol. */
  lemma IterateTwice(f0: Family, f1: Family, b: Bundles, next: Bundles, n: nat)
    requires n >= 2 && next.first !! next.second
    requires Round(f0, f1, b) == (next, true) && !Round(f0, f1, next).1
    ensures Iterate(f0, f1, b, n) == next
  {
    IterateStable(f0, f1, next, n - 1);
  }
}
