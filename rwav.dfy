/**
 * Round-robin with weighted approval voting (rwav_protocol.py). Families take
 * turns; in its turn a family picks the remaining good with the largest total
 * voting weight, where each member votes for its desired goods with the weight
 * of the balance recurrence times the number of agents it stands for.
 */
module Rwav {
  import opened Outcomes
  import opened Goods
  import opened Valuations
  import opened VotingWeights

  /**
   * A member of a family: a binary agent (its desired goods and how many agents
   * share them) together with the value it is entitled to reach.
   */
  datatype Member = Member(desired: set<Good>, cardinality: int, target: int)

  type Family = seq<Member>

  /** member_weight: w(r, s) with r the member's desired goods still remaining and s what it still lacks. */
  function MemberWeight(m: Member, owned: set<Good>, remaining: set<Good>, k: int, curve: Curve): (w: Result<real>)
    ensures k == 2 ==> w.Ok? && 0.0 <= w.value <= 1.0
  {
    WeightK(BinaryValue(m.desired, remaining), m.target - BinaryValue(m.desired, owned), k, curve)
  }

  /**
   * With two families a member's weight never fails, lies in [0, 1], and is 0 once
   * the member has reached its target or once too few of its goods remain.
   */
  lemma MemberWeightTwo(m: Member, owned: set<Good>, remaining: set<Good>, curve: Curve)
    ensures var r := BinaryValue(m.desired, remaining);
      var s := m.target - BinaryValue(m.desired, owned);
      && MemberWeight(m, owned, remaining, 2, curve) == Ok(Weight(r, s))
      && 0.0 <= Weight(r, s) <= 1.0
      && (s <= 0 || s > r ==> Weight(r, s) == 0.0)
  {
    var r := BinaryValue(m.desired, remaining);
    var s := m.target - BinaryValue(m.desired, owned);
    BalanceKTwo(r, s, curve);
    WeightBounds(r, s);
  }

  /** The weights of all members, in order; the first member whose weight fails fails them all. */
  function MemberWeights(family: Family, owned: set<Good>, remaining: set<Good>, k: int, curve: Curve): (r: Result<seq<real>>)
    ensures r.Ok? ==> |r.value| == |family|
    decreases |family|
  {
    if family == [] then Ok([])
    else
      match MemberWeights(family[..|family| - 1], owned, remaining, k, curve)
      case Err(e) => Err(e)
      case Ok(ws) =>
        match MemberWeight(family[|family| - 1], owned, remaining, k, curve)
        case Err(e) => Err(e)
        case Ok(w) => Ok(ws + [w])
  }

  /** A member's vote: its weight times the number of agents it stands for. */
  function Vote(m: Member, w: real): real
  {
    w * m.cardinality as real
  }

  /** The votes for g: the weight times the cardinality of every member who desires g. */
  function Total(family: Family, ws: seq<real>, g: Good): real
    requires |ws| == |family|
    decreases |family|
  {
    if family == [] then 0.0
    else
      var n := |family| - 1;
      Total(family[..n], ws[..n], g) + if g in family[n].desired then Vote(family[n], ws[n]) else 0.0
  }

  /** The value of a defaultdict(int): 0 for a good never voted for. */
  function Get(totals: map<Good, real>, g: Good): real
  {
    if g in totals then totals[g] else 0.0
  }

  /** The remaining good of the largest score; among equal scores the least good. */
  function Best(remaining: set<Good>, score: map<Good, real>): (g: Good)
    requires remaining != {}
    ensures g in remaining
    ensures forall h | h in remaining :: Get(score, h) < Get(score, g) || (Get(score, h) == Get(score, g) && g <= h)
    decreases |remaining|
  {
    var x := Least(remaining);
    if remaining == {x} then x
    else
      var y := Best(remaining - {x}, score);
      if Get(score, x) >= Get(score, y) then x else y
  }

  /** Only one good is the largest with the least-good tie-break. */
  lemma BestUnique(remaining: set<Good>, score: map<Good, real>, g: Good)
    requires g in remaining
    requires forall h | h in remaining :: Get(score, h) < Get(score, g) || (Get(score, h) == Get(score, g) && g <= h)
    ensures Best(remaining, score) == g
  {
    var b := Best(remaining, score);
    assert Get(score, b) < Get(score, g) || (Get(score, b) == Get(score, g) && g <= b);
  }

  /** Scores that agree on the remaining goods pick the same good. */
  lemma BestAgrees(remaining: set<Good>, s1: map<Good, real>, s2: map<Good, real>)
    requires remaining != {}
    requires forall g | g in remaining :: Get(s1, g) == Get(s2, g)
    ensures Best(remaining, s1) == Best(remaining, s2)
  {
    BestUnique(remaining, s2, Best(remaining, s1));
  }

  /** The votes for the remaining goods. */
  function Tally(family: Family, ws: seq<real>, remaining: set<Good>): map<Good, real>
    requires |ws| == |family|
  {
    map g | g in remaining :: Total(family, ws, g)
  }

  /** choose_good: the good of most votes, or the first failing weight, or no good at all. */
  function ChooseGoodSpec(family: Family, owned: set<Good>, remaining: set<Good>, k: int, curve: Curve): (r: Result<Good>)
    ensures r.Ok? ==> r.value in remaining
  {
    match MemberWeights(family, owned, remaining, k, curve)
    case Err(e) => Err(e)
    case Ok(ws) => if remaining == {} then Err(EmptyMax) else Ok(Best(remaining, Tally(family, ws, remaining)))
  }

  /**
   * The chosen good has the most votes among the remaining goods, ties going to the
   * least good; the choice fails exactly when a member's weight fails or nothing remains.
   */
  lemma ChooseGoodChoice(family: Family, owned: set<Good>, remaining: set<Good>, k: int, curve: Curve)
    ensures var r := ChooseGoodSpec(family, owned, remaining, k, curve);
      && (r.Err? <==> MemberWeights(family, owned, remaining, k, curve).Err? || remaining == {})
      && (r.Ok? ==>
            var ws := MemberWeights(family, owned, remaining, k, curve).value;
            forall h | h in remaining ::
              Total(family, ws, h) < Total(family, ws, r.value) ||
              (Total(family, ws, h) == Total(family, ws, r.value) && r.value <= h))
  {
    var r := ChooseGoodSpec(family, owned, remaining, k, curve);
    if r.Ok? {
      var ws := MemberWeights(family, owned, remaining, k, curve).value;
      var t := Tally(family, ws, remaining);
      assert forall h | h in remaining :: Get(t, h) == Total(family, ws, h);
    }
  }

  /** The loop of choose_good: add every member's weighted vote to each of its goods, then pick the best. */
  method ChooseGood(family: Family, owned: set<Good>, remaining: set<Good>, k: int, curve: Curve) returns (r: Result<Good>)
    ensures r == ChooseGoodSpec(family, owned, remaining, k, curve)
  {
    var totals := Votes(family, owned, remaining, k, curve);
    if totals.Err? {
      return Err(totals.error);
    }
    if remaining == {} {
      return Err(EmptyMax);
    }
    var ws := MemberWeights(family, owned, remaining, k, curve).value;
    BestAgrees(remaining, totals.value, Tally(family, ws, remaining));
    return Ok(Best(remaining, totals.value));
  }

  /** The votes of all members for every good, or the first failing weight. */
  method Votes(family: Family, owned: set<Good>, remaining: set<Good>, k: int, curve: Curve) returns (r: Result<map<Good, real>>)
    ensures match MemberWeights(family, owned, remaining, k, curve)
      case Err(e) => r == Err(e)
      case Ok(ws) => r.Ok? && forall g :: Get(r.value, g) == Total(family, ws, g)
  {
    var totals: map<Good, real> := map[];
    ghost var ws: seq<real> := [];
    var i := 0;
    while i < |family|
      invariant 0 <= i <= |family|
      invariant Voted(family[..i], owned, remaining, k, curve, ws, totals)
    {
      var m := family[i];
      var w := MemberWeight(m, owned, remaining, k, curve);
      if w.Err? {
        VotesFail(family, owned, remaining, k, curve, i, ws);
        return Err(w.error);
      }
      var vote := Vote(m, w.value);
      var next := AddVotes(totals, m.desired, vote);
      VotesStep(family, owned, remaining, k, curve, i, ws, totals, next, w.value, vote);
      totals, ws := next, ws + [w.value];
      i := i + 1;
    }
    assert family[..i] == family;
    return Ok(totals);
  }

  /** The weights of the members so far are ws, and every good has in the map the votes they cast for it. */
  ghost predicate Voted(family: Family, owned: set<Good>, remaining: set<Good>, k: int, curve: Curve, ws: seq<real>, totals: map<Good, real>)
  {
    && MemberWeights(family, owned, remaining, k, curve) == Ok(ws)
    && forall g :: Get(totals, g) == Total(family, ws, g)
  }

  /** One member more whose weight does not fail: its weighted vote is added to each of its desired goods. */
  lemma VotesStep(family: Family, owned: set<Good>, remaining: set<Good>, k: int, curve: Curve, i: nat,
                  ws: seq<real>, totals: map<Good, real>, next: map<Good, real>, w: real, vote: real)
    requires i < |family| && Voted(family[..i], owned, remaining, k, curve, ws, totals)
    requires MemberWeight(family[i], owned, remaining, k, curve) == Ok(w) && vote == Vote(family[i], w)
    requires forall g :: Get(next, g) == Get(totals, g) + (if g in family[i].desired then vote else 0.0)
    ensures Voted(family[..i + 1], owned, remaining, k, curve, ws + [w], next)
  {
    WeightsStep(family, owned, remaining, k, curve, i, ws, w);
    TotalStep(family, ws, w, i);
  }

  /** The weights of one member more: those before it, then its own. */
  lemma WeightsStep(family: Family, owned: set<Good>, remaining: set<Good>, k: int, curve: Curve, i: nat, ws: seq<real>, w: real)
    requires i < |family| && MemberWeights(family[..i], owned, remaining, k, curve) == Ok(ws)
    requires MemberWeight(family[i], owned, remaining, k, curve) == Ok(w)
    ensures MemberWeights(family[..i + 1], owned, remaining, k, curve) == Ok(ws + [w])
  {
    assert family[..i + 1][..i] == family[..i] && family[..i + 1][i] == family[i];
  }

  /** The votes for each good of one member more: its weighted vote is added when it desires the good. */
  lemma TotalStep(family: Family, ws: seq<real>, w: real, i: nat)
    requires i < |family| && |ws| == i
    ensures forall g ::
      (Total(family[..i + 1], ws + [w], g) ==
       Total(family[..i], ws, g) + (if g in family[i].desired then Vote(family[i], w) else 0.0))
  {
    assert family[..i + 1][..i] == family[..i] && family[..i + 1][i] == family[i];
    assert (ws + [w])[..i] == ws;
  }

  /** A member whose weight fails, after members whose weights do not, fails the whole family. */
  lemma VotesFail(family: Family, owned: set<Good>, remaining: set<Good>, k: int, curve: Curve, i: nat, ws: seq<real>)
    requires i < |family| && MemberWeights(family[..i], owned, remaining, k, curve) == Ok(ws)
    requires MemberWeight(family[i], owned, remaining, k, curve).Err?
    ensures MemberWeights(family, owned, remaining, k, curve) == Err(MemberWeight(family[i], owned, remaining, k, curve).error)
  {
    assert family[..i + 1][..i] == family[..i] && family[..i + 1][i] == family[i];
    MemberWeightsFail(family, owned, remaining, k, curve, i + 1);
  }

  /** The inner loop of choose_good: one member's vote goes to each of its desired goods. */
  method AddVotes(totals: map<Good, real>, desired: set<Good>, vote: real) returns (r: map<Good, real>)
    ensures forall g :: Get(r, g) == Get(totals, g) + (if g in desired then vote else 0.0)
  {
    r := totals;
    var todo := desired;
    while todo != {}
      invariant todo <= desired
      invariant forall g :: Get(r, g) == Get(totals, g) + (if g in desired - todo then vote else 0.0)
      decreases |todo|
    {
      var g :| g in todo;
      r := r[g := Get(r, g) + vote];
      todo := todo - {g};
    }
  }

  /** Once the weights of a prefix fail, the weights of the whole family fail the same way. */
  lemma {:induction false} MemberWeightsFail(family: Family, owned: set<Good>, remaining: set<Good>, k: int, curve: Curve, i: nat)
    requires i <= |family| && MemberWeights(family[..i], owned, remaining, k, curve).Err?
    ensures MemberWeights(family, owned, remaining, k, curve) == MemberWeights(family[..i], owned, remaining, k, curve)
    decreases |family| - i
  {
    if i < |family| {
      assert family[..i + 1][..i] == family[..i];
      MemberWeightsFail(family, owned, remaining, k, curve, i + 1);
    } else {
      assert family[..i] == family;
    }
  }

  // ---------------------------------------------------------------------------
  // The round robin.

  /** The rest of the round robin from some turn: family f picks next. */
  function RoundRobinRun(families: seq<Family>, k: int, curve: Curve, bundles: seq<set<Good>>, remaining: set<Good>, f: nat): Result<seq<set<Good>>>
    requires |bundles| == |families| && f < |families|
    decreases |remaining|
  {
    if remaining == {} then Ok(bundles)
    else
      match ChooseGoodSpec(families[f], bundles[f], remaining, k, curve)
      case Err(e) => Err(e)
      case Ok(g) => RoundRobinRun(families, k, curve, bundles[f := bundles[f] + {g}], remaining - {g}, (f + 1) % |families|)
  }

  /** The whole round robin: everybody starts empty-handed and family 0 picks first. */
  function RoundRobinAllocate(families: seq<Family>, goods: set<Good>, k: int, curve: Curve): Result<seq<set<Good>>>
  {
    if families == [] then (if goods == {} then Ok([]) else Err(NoFamilies))
    else RoundRobinRun(families, k, curve, seq(|families|, _ => {}), goods, 0)
  }

  /** The turn loop shared by rwav_protocol.allocate and allocate_on_a_line. */
  method RoundRobin(families: seq<Family>, goods: set<Good>, k: int, curve: Curve) returns (r: Result<seq<set<Good>>>)
    ensures r == RoundRobinAllocate(families, goods, k, curve)
  {
    if families == [] {
      if goods == {} {
        return Ok([]);
      }
      return Err(NoFamilies);
    }
    var n := |families|;
    var remaining := goods;
    var bundles: seq<set<Good>> := seq(n, _ => {});
    var familyIndex: nat := 0;
    while |remaining| > 0
      invariant |bundles| == n && familyIndex < n
      invariant RoundRobinAllocate(families, goods, k, curve) == RoundRobinRun(families, k, curve, bundles, remaining, familyIndex)
      decreases |remaining|
    {
      var g := ChooseGood(families[familyIndex], bundles[familyIndex], remaining, k, curve);
      if g.Err? {
        return Err(g.error);
      }
      bundles := bundles[familyIndex := bundles[familyIndex] + {g.value}];
      remaining := remaining - {g.value};
      familyIndex := (familyIndex + 1) % n;
    }
    return Ok(bundles);
  }

  /** rwav_protocol.allocate: the round robin with the number of families as k; the targets come with the members. */
  method Allocate(families: seq<Family>, goods: set<Good>, curve: Curve) returns (r: Result<seq<set<Good>>>)
    ensures r == RoundRobinAllocate(families, goods, |families|, curve)
  {
    r := RoundRobin(families, goods, |families|, curve);
  }

  // ---------------------------------------------------------------------------
  // What the round robin guarantees.

  /**
   * Family f picks next; the families before f have had one turn more than the
   * others. A good moves from the remaining goods into bundle f, and f moves on.
   */
  ghost predicate TurnsSoFar(bundles: seq<set<Good>>, f: nat, c: nat)
  {
    forall j | 0 <= j < |bundles| :: |bundles[j]| == c + if j < f then 1 else 0
  }

  /** One turn keeps the goods split and the turn counts in step. */
  lemma RoundRobinStep(bundles: seq<set<Good>>, remaining: set<Good>, f: nat, c: nat, g: Good, goods: set<Good>)
    requires f < |bundles| && g in remaining
    requires Allocates(bundles + [remaining], goods) && TurnsSoFar(bundles, f, c)
    ensures var next := bundles[f := bundles[f] + {g}];
      && Allocates(next + [remaining - {g}], goods)
      && (f + 1) % |bundles| == (if f + 1 == |bundles| then 0 else f + 1)
      && TurnsSoFar(next, (f + 1) % |bundles|, if f + 1 == |bundles| then c + 1 else c)
  {
    MoveGood(bundles, remaining, f, g, goods);
    assert g !in bundles[f] by {
      InUnionOf(bundles + [remaining], f, |bundles|, g);
    }
  }

  /**
   * From any state in which the bundles and the remaining goods split the goods,
   * the round robin ends with bundles that split the goods, the families before
   * some f' having one good more than the others.
   */
  lemma {:induction false} RoundRobinRunInvariant(families: seq<Family>, k: int, curve: Curve, bundles: seq<set<Good>>,
                                                  remaining: set<Good>, f: nat, goods: set<Good>, c: nat)
      returns (f': nat, c': nat)
    requires |bundles| == |families| && f < |families|
    requires Allocates(bundles + [remaining], goods) && TurnsSoFar(bundles, f, c)
    requires RoundRobinRun(families, k, curve, bundles, remaining, f).Ok?
    ensures var result := RoundRobinRun(families, k, curve, bundles, remaining, f).value;
      && |result| == |families| && Allocates(result, goods) && TurnsSoFar(result, f', c')
    decreases |remaining|
  {
    if remaining == {} {
      AllocatesDropEmpty(bundles, goods);
      f', c' := f, c;
    } else {
      var g := ChooseGoodSpec(families[f], bundles[f], remaining, k, curve).value;
      RoundRobinStep(bundles, remaining, f, c, g, goods);
      f', c' := RoundRobinRunInvariant(families, k, curve, bundles[f := bundles[f] + {g}], remaining - {g},
                                       (f + 1) % |families|, goods, if f + 1 == |families| then c + 1 else c);
    }
  }

  /** Two different bundles of a split share no good. */
  lemma InUnionOf(bundles: seq<set<Good>>, i: nat, j: nat, g: Good)
    requires PairwiseDisjoint(bundles) && i < |bundles| && j < |bundles| && i != j && g in bundles[j]
    ensures g !in bundles[i]
  {
    if i < j {
      assert bundles[i] !! bundles[j];
    } else {
      assert bundles[j] !! bundles[i];
    }
  }

  /** Moving a remaining good into bundle f keeps the goods split. */
  lemma MoveGood(bundles: seq<set<Good>>, remaining: set<Good>, f: nat, g: Good, goods: set<Good>)
    requires f < |bundles| && g in remaining
    requires Allocates(bundles + [remaining], goods)
    ensures Allocates(bundles[f := bundles[f] + {g}] + [remaining - {g}], goods)
  {
    var before := bundles + [remaining];
    var after := bundles[f := bundles[f] + {g}] + [remaining - {g}];
    assert |after| == |before|;
    forall i, j | 0 <= i < j < |after| ensures after[i] !! after[j] {
      assert before[i] !! before[j];
      if i == f {
        if j < |bundles| {
          InUnionOf(before, j, |bundles|, g);
        }
      } else if j == f {
        InUnionOf(before, i, |bundles|, g);
      }
    }
    UnionOfMove(before, f, |bundles|, g);
    assert after == before[f := before[f] + {g}][|bundles| := remaining - {g}];
  }

  /** Moving g from block j into block i leaves the union unchanged. */
  lemma {:induction false} UnionOfMove(bundles: seq<set<Good>>, i: nat, j: nat, g: Good)
    requires i < |bundles| && j < |bundles| && i != j && g in bundles[j]
    ensures UnionOf(bundles[i := bundles[i] + {g}][j := bundles[j] - {g}]) == UnionOf(bundles)
  {
    var after := bundles[i := bundles[i] + {g}][j := bundles[j] - {g}];
    forall x ensures x in UnionOf(after) <==> x in UnionOf(bundles) {
      InUnionOfIff(bundles, x);
      InUnionOfIff(after, x);
      if x in UnionOf(bundles) && x != g {
        var l :| 0 <= l < |bundles| && x in bundles[l];
        assert x in after[l];
      }
      if x == g {
        assert g in after[i];
      }
    }
  }

  /** A good is in the union exactly when it is in one of the blocks. */
  lemma {:induction false} InUnionOfIff(bundles: seq<set<Good>>, x: Good)
    ensures x in UnionOf(bundles) <==> exists l | 0 <= l < |bundles| :: x in bundles[l]
    decreases |bundles|
  {
    if bundles != [] {
      InUnionOfIff(bundles[1..], x);
      if x in UnionOf(bundles[1..]) {
        var l :| 0 <= l < |bundles[1..]| && x in bundles[1..][l];
        assert x in bundles[l + 1];
      }
      if exists l | 0 <= l < |bundles| :: x in bundles[l] {
        var l :| 0 <= l < |bundles| && x in bundles[l];
        if l > 0 {
          assert x in bundles[1..][l - 1];
        }
      }
    }
  }

  /** An empty last block can be dropped from a split. */
  lemma AllocatesDropEmpty(bundles: seq<set<Good>>, goods: set<Good>)
    requires Allocates(bundles + [{}], goods)
    ensures Allocates(bundles, goods)
  {
    var all := bundles + [{}];
    forall x ensures x in UnionOf(bundles) <==> x in UnionOf(all) {
      InUnionOfIff(bundles, x);
      InUnionOfIff(all, x);
      if x in UnionOf(all) {
        var l :| 0 <= l < |all| && x in all[l];
        assert l < |bundles| && x in bundles[l];
      }
      if x in UnionOf(bundles) {
        var l :| 0 <= l < |bundles| && x in bundles[l];
        assert x in all[l];
      }
    }
    forall i, j | 0 <= i < j < |bundles| ensures bundles[i] !! bundles[j] {
      assert all[i] !! all[j];
    }
  }

  /**
   * rwav_protocol.allocate and the line protocol: when the round robin succeeds, the
   * bundles split the goods, one bundle per family; since family 0 picks first, an
   * earlier family never has fewer goods than a later one, and at most one more.
   */
  lemma RoundRobinSplitsFairly(families: seq<Family>, goods: set<Good>, k: int, curve: Curve)
    requires RoundRobinAllocate(families, goods, k, curve).Ok?
    ensures var result := RoundRobinAllocate(families, goods, k, curve).value;
      && |result| == |families| && Allocates(result, goods)
      && forall i, j | 0 <= i <= j < |result| :: |result[j]| <= |result[i]| <= |result[j]| + 1
  {
    if families != [] {
      var n := |families|;
      var empty: seq<set<Good>> := seq(n, _ => {});
      StartSplits(empty, goods);
      var f', c' := RoundRobinRunInvariant(families, k, curve, empty, goods, 0, goods, 0);
    } else {
      assert UnionOf([]) == {};
    }
  }

  /** Empty bundles and all goods remaining split the goods. */
  lemma StartSplits(empty: seq<set<Good>>, goods: set<Good>)
    requires forall j | 0 <= j < |empty| :: empty[j] == {}
    ensures Allocates(empty + [goods], goods)
  {
    var all := empty + [goods];
    forall i, j | 0 <= i < j < |all| ensures all[i] !! all[j] {
      assert all[i] == {};
    }
    forall x ensures x in UnionOf(all) <==> x in goods {
      InUnionOfIff(all, x);
      if x in goods {
        assert x in all[|empty|];
      }
    }
  }

  // ---------------------------------------------------------------------------
  // The doctests of rwav_protocol.py (two families, every target 1 or 2 given).

  /** The two-family weights the doctests meet. */
  lemma WeightsUsed()
    ensures Weight(1, 1) == 0.5 && Weight(2, 1) == 0.25 && Weight(3, 2) == 0.375
  {
    BalanceExamples();
    assert Balance(2, 1) == 0.75;
  }

  /** member_weight: Alice still sees one of her two goods and is owed one; Bob sees three and is owed two. */
  lemma MemberWeightExamples(curve: Curve)
    ensures MemberWeight(Member({'w', 'x'}, 1, 1), {}, {'x', 'y', 'z'}, 2, curve) == Ok(0.5)
    ensures MemberWeight(Member({'w', 'x', 'y', 'z'}, 1, 2), {}, {'x', 'y', 'z'}, 2, curve) == Ok(0.375)
  {
    assert BinaryValue({'w', 'x'}, {'x', 'y', 'z'}) == 1 by {
      assert {'w', 'x'} * {'x', 'y', 'z'} == {'x'};
    }
    assert BinaryValue({'w', 'x', 'y', 'z'}, {'x', 'y', 'z'}) == 3 by {
      assert {'w', 'x', 'y', 'z'} * {'x', 'y', 'z'} == {'x', 'y', 'z'};
    }
    MemberWeightTwo(Member({'w', 'x'}, 1, 1), {}, {'x', 'y', 'z'}, curve);
    MemberWeightTwo(Member({'w', 'x', 'y', 'z'}, 1, 2), {}, {'x', 'y', 'z'}, curve);
    WeightsUsed();
  }
  /** A good whose total vote beats every other remaining good (ties to the least good) is the one chosen. */
  lemma ChosenBy(family: Family, owned: set<Good>, remaining: set<Good>, k: int, curve: Curve, ws: seq<real>, g: Good)
    requires MemberWeights(family, owned, remaining, k, curve) == Ok(ws) && g in remaining
    requires forall h | h in remaining ::
      Total(family, ws, h) < Total(family, ws, g) || (Total(family, ws, h) == Total(family, ws, g) && g <= h)
    ensures ChooseGoodSpec(family, owned, remaining, k, curve) == Ok(g)
  {
    BestUnique(remaining, Tally(family, ws, remaining), g);
  }

  /** ChosenBy for four remaining goods, the last of which strictly wins. */
  lemma ChosenAmongFour(family: Family, owned: set<Good>, k: int, curve: Curve, ws: seq<real>, a: Good, b: Good, c: Good, g: Good)
    requires MemberWeights(family, owned, {a, b, c, g}, k, curve) == Ok(ws)
    requires Total(family, ws, a) < Total(family, ws, g)
    requires Total(family, ws, b) < Total(family, ws, g)
    requires Total(family, ws, c) < Total(family, ws, g)
    ensures ChooseGoodSpec(family, owned, {a, b, c, g}, k, curve) == Ok(g)
  {
    ChosenBy(family, owned, {a, b, c, g}, k, curve, ws, g);
  }

  /** ChosenBy for three remaining goods, the last of which strictly wins. */
  lemma ChosenAmongThree(family: Family, owned: set<Good>, k: int, curve: Curve, ws: seq<real>, a: Good, b: Good, g: Good)
    requires MemberWeights(family, owned, {a, b, g}, k, curve) == Ok(ws)
    requires Total(family, ws, a) < Total(family, ws, g)
    requires Total(family, ws, b) < Total(family, ws, g)
    ensures ChooseGoodSpec(family, owned, {a, b, g}, k, curve) == Ok(g)
  {
    ChosenBy(family, owned, {a, b, g}, k, curve, ws, g);
  }

  /** ChosenBy for two remaining goods, the last of which strictly wins. */
  lemma ChosenAmongTwo(family: Family, owned: set<Good>, k: int, curve: Curve, ws: seq<real>, a: Good, g: Good)
    requires MemberWeights(family, owned, {a, g}, k, curve) == Ok(ws)
    requires Total(family, ws, a) < Total(family, ws, g)
    ensures ChooseGoodSpec(family, owned, {a, g}, k, curve) == Ok(g)
  {
    ChosenBy(family, owned, {a, g}, k, curve, ws, g);
  }

  /** The weights of a family of two members, each given by the two-family recurrence. */
  lemma WeightsOfTwo(family: Family, owned: set<Good>, remaining: set<Good>, curve: Curve, w0: real, w1: real)
    requires |family| == 2
    requires MemberWeight(family[0], owned, remaining, 2, curve) == Ok(w0)
    requires MemberWeight(family[1], owned, remaining, 2, curve) == Ok(w1)
    ensures MemberWeights(family, owned, remaining, 2, curve) == Ok([w0, w1])
  {
    assert family[..1][..0] == [] && family[..1][0] == family[0];
    assert MemberWeights(family[..1], owned, remaining, 2, curve) == Ok([] + [w0]);
    assert [] + [w0] + [w1] == [w0, w1];
  }

  /** The votes for a good from a family of two members. */
  lemma TotalOfTwo(family: Family, ws: seq<real>, g: Good)
    requires |family| == 2 && |ws| == 2
    ensures Total(family, ws, g) ==
      (if g in family[0].desired then Vote(family[0], ws[0]) else 0.0) +
      (if g in family[1].desired then Vote(family[1], ws[1]) else 0.0)
  {
    assert family[..1][..0] == [] && ws[..1][..0] == [];
    assert family[..1][0] == family[0] && ws[..1][0] == ws[0];
    assert Total(family[..1], ws[..1], g) == 0.0 + (if g in family[0].desired then Vote(family[0], ws[0]) else 0.0);
  }

  /** The weights in the choose_good doctest: a quarter for the first member, a half for the second. */
  lemma ChooseGoodExampleWeights(curve: Curve)
    ensures MemberWeights([Member({'x', 'y'}, 1, 1), Member({'z', 'w'}, 1, 1)], {}, {'x', 'y', 'z'}, 2, curve) == Ok([0.25, 0.5])
  {
    var family := [Member({'x', 'y'}, 1, 1), Member({'z', 'w'}, 1, 1)];
    var remaining := {'x', 'y', 'z'};
    assert BinaryValue({'x', 'y'}, remaining) == 2 by {
      assert {'x', 'y'} * remaining == {'x', 'y'};
    }
    assert BinaryValue({'z', 'w'}, remaining) == 1 by {
      assert {'z', 'w'} * remaining == {'z'};
    }
    MemberWeightTwo(family[0], {}, remaining, curve);
    MemberWeightTwo(family[1], {}, remaining, curve);
    WeightsUsed();
    WeightsOfTwo(family, {}, remaining, curve, 0.25, 0.5);
  }

  /** choose_good: the member wanting z and w is owed one of one remaining good, so z gets the largest vote. */
  lemma ChooseGoodExample(curve: Curve)
    ensures ChooseGoodSpec([Member({'x', 'y'}, 1, 1), Member({'z', 'w'}, 1, 1)], {}, {'x', 'y', 'z'}, 2, curve) == Ok('z')
  {
    var family := [Member({'x', 'y'}, 1, 1), Member({'z', 'w'}, 1, 1)];
    var ws := [0.25, 0.5];
    ChooseGoodExampleWeights(curve);
    TotalOfTwo(family, ws, 'x');
    TotalOfTwo(family, ws, 'y');
    TotalOfTwo(family, ws, 'z');
    ChosenAmongThree(family, {}, 2, curve, ws, 'x', 'y', 'z');
  }

  /** The votes for a good from a family of four members. */
  lemma TotalOfFour(family: Family, ws: seq<real>, g: Good)
    requires |family| == 4 && |ws| == 4
    ensures Total(family, ws, g) ==
      (if g in family[0].desired then Vote(family[0], ws[0]) else 0.0) +
      (if g in family[1].desired then Vote(family[1], ws[1]) else 0.0) +
      (if g in family[2].desired then Vote(family[2], ws[2]) else 0.0) +
      (if g in family[3].desired then Vote(family[3], ws[3]) else 0.0)
  {
    assert family[..3][..2] == family[..2] && ws[..3][..2] == ws[..2];
    assert family[..3][2] == family[2] && ws[..3][2] == ws[2];
    TotalOfTwo(family[..2], ws[..2], g);
  }

  /** The weights of a family of four members. */
  lemma WeightsOfFour(family: Family, owned: set<Good>, remaining: set<Good>, curve: Curve, ws: seq<real>)
    requires |family| == 4 && |ws| == 4
    requires forall i | 0 <= i < 4 :: MemberWeight(family[i], owned, remaining, 2, curve) == Ok(ws[i])
    ensures MemberWeights(family, owned, remaining, 2, curve) == Ok(ws)
  {
    WeightsOfTwo(family[..2], owned, remaining, curve, ws[0], ws[1]);
    assert family[..3][..2] == family[..2] && family[..3][2] == family[2];
    assert MemberWeights(family[..3], owned, remaining, 2, curve) == Ok([ws[0], ws[1]] + [ws[2]]);
    assert [ws[0], ws[1]] + [ws[2]] + [ws[3]] == ws;
  }

  /** With two families no member's weight fails, so neither does any choice of a remaining good. */
  lemma {:induction false} WeightsTwoSucceed(family: Family, owned: set<Good>, remaining: set<Good>, curve: Curve)
    ensures MemberWeights(family, owned, remaining, 2, curve).Ok?
    decreases |family|
  {
    if family != [] {
      WeightsTwoSucceed(family[..|family| - 1], owned, remaining, curve);
      MemberWeightTwo(family[|family| - 1], owned, remaining, curve);
    }
  }

  /** With k = 2 (the line protocol) the round robin never fails while some family exists. */
  lemma {:induction false} RoundRobinTwoSucceeds(families: seq<Family>, curve: Curve, bundles: seq<set<Good>>, remaining: set<Good>, f: nat)
    requires |bundles| == |families| && f < |families|
    ensures RoundRobinRun(families, 2, curve, bundles, remaining, f).Ok?
    decreases |remaining|
  {
    if remaining != {} {
      WeightsTwoSucceed(families[f], bundles[f], remaining, curve);
      var g := ChooseGoodSpec(families[f], bundles[f], remaining, 2, curve).value;
      RoundRobinTwoSucceeds(families, curve, bundles[f := bundles[f] + {g}], remaining - {g}, (f + 1) % |families|);
    }
  }

  /** With k = 2 the whole round robin succeeds whenever some family exists. */
  lemma RoundRobinAllocateTwo(families: seq<Family>, goods: set<Good>, curve: Curve)
    requires families != []
    ensures RoundRobinAllocate(families, goods, 2, curve).Ok?
  {
    var empty: seq<set<Good>> := seq(|families|, _ => {});
    RoundRobinTwoSucceeds(families, curve, empty, goods, 0);
  }

  const Family1: Family := [Member({'w', 'x'}, 1, 1), Member({'x', 'y'}, 2, 1), Member({'y', 'z'}, 3, 1), Member({'z', 'w'}, 4, 1)]
  const Family2: Family := [Member({'w', 'z'}, 2, 1), Member({'z', 'y'}, 3, 1)]

  /** The weights in turn 1 of the allocate doctest: every member of family 1 is owed one of two remaining goods. */
  lemma AllocateTurnOneWeights(curve: Curve) returns (ws: seq<real>)
    ensures MemberWeights(Family1, {}, {'w', 'x', 'y', 'z'}, 2, curve) == Ok(ws)
    ensures ws == [0.25, 0.25, 0.25, 0.25]
  {
    var remaining := {'w', 'x', 'y', 'z'};
    ws := [0.25, 0.25, 0.25, 0.25];
    WeightsUsed();
    forall i | 0 <= i < 4 ensures MemberWeight(Family1[i], {}, remaining, 2, curve) == Ok(ws[i]) {
      assert Family1[i].desired * remaining == Family1[i].desired;
      assert |Family1[i].desired| == 2;
      MemberWeightTwo(Family1[i], {}, remaining, curve);
    }
    WeightsOfFour(Family1, {}, remaining, curve, ws);
  }

  /** Turn 1 of the allocate doctest: w gets 1.25 votes, x 0.75, y 1.25 and z 1.75, the most. */
  lemma AllocateTurnOne(curve: Curve)
    ensures ChooseGoodSpec(Family1, {}, {'w', 'x', 'y', 'z'}, 2, curve) == Ok('z')
  {
    var ws := AllocateTurnOneWeights(curve);
    TotalOfFour(Family1, ws, 'w');
    TotalOfFour(Family1, ws, 'x');
    TotalOfFour(Family1, ws, 'y');
    TotalOfFour(Family1, ws, 'z');
    ChosenAmongFour(Family1, {}, 2, curve, ws, 'w', 'x', 'y', 'z');
  }

  /** The weights in turn 2: each member of family 2 sees one of its goods and is owed one. */
  lemma AllocateTurnTwoWeights(curve: Curve)
    ensures MemberWeights(Family2, {}, {'w', 'x', 'y'}, 2, curve) == Ok([0.5, 0.5])
  {
    var remaining := {'w', 'x', 'y'};
    assert BinaryValue({'w', 'z'}, remaining) == 1 by {
      assert {'w', 'z'} * remaining == {'w'};
    }
    assert BinaryValue({'z', 'y'}, remaining) == 1 by {
      assert {'z', 'y'} * remaining == {'y'};
    }
    MemberWeightTwo(Family2[0], {}, remaining, curve);
    MemberWeightTwo(Family2[1], {}, remaining, curve);
    WeightsUsed();
    WeightsOfTwo(Family2, {}, remaining, curve, 0.5, 0.5);
  }

  /** Turn 2: y has the most votes. */
  lemma AllocateTurnTwo(curve: Curve)
    ensures ChooseGoodSpec(Family2, {}, {'w', 'x', 'y'}, 2, curve) == Ok('y')
  {
    var ws := [0.5, 0.5];
    AllocateTurnTwoWeights(curve);
    TotalOfTwo(Family2, ws, 'w');
    TotalOfTwo(Family2, ws, 'x');
    TotalOfTwo(Family2, ws, 'y');
    ChosenAmongThree(Family2, {}, 2, curve, ws, 'w', 'x', 'y');
  }

  /** The weights in turn 3: family 1 owns z, so the members wanting z are satisfied and weigh nothing. */
  lemma AllocateTurnThreeWeights(curve: Curve)
    ensures MemberWeights(Family1, {'z'}, {'w', 'x'}, 2, curve) == Ok([0.25, 0.5, 0.0, 0.0])
  {
    var remaining := {'w', 'x'};
    var ws := [0.25, 0.5, 0.0, 0.0];
    assert BinaryValue({'w', 'x'}, remaining) == 2 && BinaryValue({'w', 'x'}, {'z'}) == 0 by {
      assert {'w', 'x'} * remaining == {'w', 'x'} && {'w', 'x'} * {'z'} == {};
    }
    assert BinaryValue({'x', 'y'}, remaining) == 1 && BinaryValue({'x', 'y'}, {'z'}) == 0 by {
      assert {'x', 'y'} * remaining == {'x'} && {'x', 'y'} * {'z'} == {};
    }
    assert BinaryValue({'y', 'z'}, {'z'}) == 1 by {
      assert {'y', 'z'} * {'z'} == {'z'};
    }
    assert BinaryValue({'z', 'w'}, {'z'}) == 1 by {
      assert {'z', 'w'} * {'z'} == {'z'};
    }
    WeightsUsed();
    forall i | 0 <= i < 4 ensures MemberWeight(Family1[i], {'z'}, remaining, 2, curve) == Ok(ws[i]) {
      MemberWeightTwo(Family1[i], {'z'}, remaining, curve);
    }
    WeightsOfFour(Family1, {'z'}, remaining, curve, ws);
  }

  /** Turn 3: x has the most votes. */
  lemma AllocateTurnThree(curve: Curve)
    ensures ChooseGoodSpec(Family1, {'z'}, {'w', 'x'}, 2, curve) == Ok('x')
  {
    var ws := [0.25, 0.5, 0.0, 0.0];
    AllocateTurnThreeWeights(curve);
    TotalOfFour(Family1, ws, 'w');
    TotalOfFour(Family1, ws, 'x');
    ChosenAmongTwo(Family1, {'z'}, 2, curve, ws, 'w', 'x');
  }

  /** Turn 4: only w remains, and family 2 takes it. */
  lemma AllocateTurnFour(curve: Curve)
    ensures ChooseGoodSpec(Family2, {'y'}, {'w'}, 2, curve) == Ok('w')
  {
    WeightsTwoSucceed(Family2, {'y'}, {'w'}, curve);
  }

  /**
   * Four turns of a round robin between two families: when the choices are a, b, c
   * and d in that order, family 0 ends with a and c, family 1 with b and d.
   */
  lemma RoundRobinOfFour(f0: Family, f1: Family, k: int, curve: Curve, a: Good, b: Good, c: Good, d: Good)
    requires a != b && a != c && a != d && b != c && b != d && c != d
    requires ChooseGoodSpec(f0, {}, {a, b, c, d}, k, curve) == Ok(a)
    requires ChooseGoodSpec(f1, {}, {b, c, d}, k, curve) == Ok(b)
    requires ChooseGoodSpec(f0, {a}, {c, d}, k, curve) == Ok(c)
    requires ChooseGoodSpec(f1, {b}, {d}, k, curve) == Ok(d)
    ensures RoundRobinAllocate([f0, f1], {a, b, c, d}, k, curve) == Ok([{a, c}, {b, d}])
  {
    var empty: seq<set<Good>> := seq(2, _ => {});
    assert empty == [{}, {}];
    PickedInTurn(a, b, c, d);
    TurnOfFirst(f0, f1, k, curve, {}, {}, {a, b, c, d}, a);
    TurnOfSecond(f0, f1, k, curve, {a}, {}, {b, c, d}, b);
    TurnOfFirst(f0, f1, k, curve, {a}, {b}, {c, d}, c);
    TurnOfSecond(f0, f1, k, curve, {a, c}, {b}, {d}, d);
  }

  /** The remaining goods and the bundles after each of four turns. */
  lemma PickedInTurn(a: Good, b: Good, c: Good, d: Good)
    requires a != b && a != c && a != d && b != c && b != d && c != d
    ensures {a, b, c, d} - {a} == {b, c, d} && {} + {a} == {a}
    ensures {b, c, d} - {b} == {c, d} && {} + {b} == {b}
    ensures {c, d} - {c} == {d} && {a} + {c} == {a, c}
    ensures {d} - {d} == {} && {b} + {d} == {b, d}
  {
  }

  /** Family 0's turn in a round robin between two families. */
  lemma TurnOfFirst(f0: Family, f1: Family, k: int, curve: Curve, b0: set<Good>, b1: set<Good>, remaining: set<Good>, g: Good)
    requires remaining != {} && ChooseGoodSpec(f0, b0, remaining, k, curve) == Ok(g)
    ensures RoundRobinRun([f0, f1], k, curve, [b0, b1], remaining, 0) == RoundRobinRun([f0, f1], k, curve, [b0 + {g}, b1], remaining - {g}, 1)
  {
    assert [b0, b1][0 := b0 + {g}] == [b0 + {g}, b1];
  }

  /** Family 1's turn in a round robin between two families. */
  lemma TurnOfSecond(f0: Family, f1: Family, k: int, curve: Curve, b0: set<Good>, b1: set<Good>, remaining: set<Good>, g: Good)
    requires remaining != {} && ChooseGoodSpec(f1, b1, remaining, k, curve) == Ok(g)
    ensures RoundRobinRun([f0, f1], k, curve, [b0, b1], remaining, 1) == RoundRobinRun([f0, f1], k, curve, [b0, b1 + {g}], remaining - {g}, 0)
  {
    assert [b0, b1][1 := b1 + {g}] == [b0, b1 + {g}];
  }

  /**
   * rwav_protocol.allocate: family 1 picks z, family 2 picks y, family 1 picks x and
   * family 2 picks w, so family 1 ends with x and z, family 2 with w and y.
   */
  lemma AllocateExample(curve: Curve)
    ensures RoundRobinAllocate([Family1, Family2], {'w', 'x', 'y', 'z'}, 2, curve) == Ok([{'x', 'z'}, {'w', 'y'}])
  {
    AllocateTurnOne(curve);
    AllocateTurnTwo(curve);
    AllocateTurnThree(curve);
    AllocateTurnFour(curve);
    AllocateOrder();
    RoundRobinOfFour(Family1, Family2, 2, curve, 'z', 'y', 'x', 'w');
  }

  /** The sets of the allocate doctest written in the order the goods are picked. */
  lemma AllocateOrder()
    ensures {'z', 'y', 'x', 'w'} == {'w', 'x', 'y', 'z'} && {'y', 'x', 'w'} == {'w', 'x', 'y'} && {'x', 'w'} == {'w', 'x'}
    ensures {'z', 'x'} == {'x', 'z'} && {'y', 'w'} == {'w', 'y'}
  {
  }
}
