/**
 * The 1-out-of-c maximin share (agents.py): the best value an agent can make sure
 * of by splitting a bundle into c parts and receiving the worst one. The generic
 * computation scores every partition of the bundle; the binary agent overrides it
 * with the closed form floor(total value / c).
 */
module Maximin {
  import opened Outcomes
  import opened Goods
  import opened Enumeration = Partitions
  import opened Valuations
  import opened Powers

  /**
   * The partitions of a bundle, its goods taken in ascending order; the empty
   * bundle has the one partition with one empty block.
   */
  function BundlePartitions(b: set<Good>): (ps: seq<seq<seq<Good>>>)
    ensures ps != [] && NoEmptyPartition(ps) && |ps[0]| == 1
  {
    if b == {} then [[[]]]
    else
      var xs := Ascending(b);
      AscendingSorted(b);
      var ps := Partitions(xs);
      forall k | 0 <= k < |ps| ensures ps[k] != [] {
        assert ps[k] in ps;
        assert multiset(Flatten(ps[k])) == multiset(xs);
        assert xs[0] in multiset(xs);
      }
      FirstPartitionWhole(xs);
      Partitions(xs)
  }

  /** Every partition has a block: partitions of an empty bundle included. */
  predicate NoEmptyPartition(ps: seq<seq<seq<Good>>>)
  {
    forall k | 0 <= k < |ps| :: ps[k] != []
  }

  /** The first partition the enumeration yields is the whole list as one block. */
  lemma {:induction false} FirstPartitionWhole<T>(xs: seq<T>)
    requires |xs| >= 1
    ensures |Partitions(xs)| >= 1 && Partitions(xs)[0] == [xs]
    decreases |xs|
  {
    if |xs| > 1 {
      FirstPartitionWhole(xs[1..]);
      var smaller := Partitions(xs[1..]);
      assert Extensions(xs[0], smaller[0])[0] == InsertAt(xs[0], [xs[1..]], 0);
      assert [xs[0]] + xs[1..] == xs;
    }
  }

  /** The least value of the blocks of a partition; the first undefined value fails it. */
  function MinValue(v: Valuation, p: seq<seq<Good>>): (r: Result<int>)
    requires p != []
    ensures r.Err? <==> exists i | 0 <= i < |p| :: Value(v, Elements(p[i])).Err?
    ensures r.Err? ==> r.error == ValueFailure(v)
    ensures r.Ok? ==>
      && (forall i | 0 <= i < |p| :: Value(v, Elements(p[i])).Ok? && r.value <= Value(v, Elements(p[i])).value)
      && exists i | 0 <= i < |p| :: Value(v, Elements(p[i])) == r
    decreases |p|
  {
    var first := Value(v, Elements(p[0]));
    if first.Err? then first
    else if |p| == 1 then first
    else
      var rest := MinValue(v, p[1..]);
      assert forall i | 1 <= i < |p| :: p[i] == p[1..][i - 1];
      if rest.Err? then
        rest
      else
        Ok(if first.value <= rest.value then first.value else rest.value)
  }

  /** The score of a partition with at most c blocks: 0 with fewer than c, else its least block value. */
  function PartScore(v: Valuation, p: seq<seq<Good>>, c: int): Result<int>
    requires p != [] && |p| <= c
  {
    if |p| < c then Ok(0) else MinValue(v, p)
  }

  /** The scores of the partitions with at most c blocks, in order; the first failure is raised. */
  function Scores(v: Valuation, ps: seq<seq<seq<Good>>>, c: int): Result<seq<int>>
    requires NoEmptyPartition(ps)
    decreases |ps|
  {
    if ps == [] then Ok([])
    else
      if |ps[0]| > c then Scores(v, ps[1..], c)
      else
        match PartScore(v, ps[0], c)
        case Err(e) => Err(e)
        case Ok(x) => Prefixed([x], Scores(v, ps[1..], c))
  }

  /** The scores already collected, in front of those still to come. */
  function Prefixed(values: seq<int>, r: Result<seq<int>>): Result<seq<int>>
  {
    match r
    case Err(e) => Err(e)
    case Ok(s) => Ok(values + s)
  }

  /** The largest element of a non-empty list. */
  function SeqMax(s: seq<int>): (m: int)
    requires s != []
    ensures m in s && forall x | x in s :: x <= m
  {
    if |s| == 1 then s[0]
    else
      var rest := SeqMax(s[1..]);
      assert forall x | x in s :: x == s[0] || x in s[1..];
      if s[0] >= rest then s[0] else rest
  }

  /** The largest score over a list of partitions; with no partition of at most c blocks there is none. */
  function ShareOver(v: Valuation, ps: seq<seq<seq<Good>>>, c: int): Result<int>
    requires NoEmptyPartition(ps)
  {
    match Scores(v, ps, c)
    case Err(e) => Err(e)
    case Ok(s) => if s == [] then Err(EmptyMax) else Ok(SeqMax(s))
  }

  /** value_1_of_c_MMS, maximising over every partition of the bundle: the 1-out-of-c maximin share. */
  function MaximinShare(v: Valuation, b: set<Good>, c: int): Result<int>
  {
    ShareOver(v, BundlePartitions(b), c)
  }

  /** The loop of value_1_of_c_MMS: collect the scores, then take their maximum. */
  method ValueOneOfCMMS(v: Valuation, b: set<Good>, c: int) returns (r: Result<int>)
    ensures r == MaximinShare(v, b, c)
  {
    var ps := BundlePartitions(b);
    var values: seq<int> := [];
    var i := 0;
    SuffixBlocks(ps, 0);
    assert ps[0..] == ps;
    PrefixedNothing(Scores(v, ps, c));
    while i < |ps|
      invariant 0 <= i <= |ps|
      invariant NoEmptyPartition(ps[i..])
      invariant Scores(v, ps, c) == Prefixed(values, Scores(v, ps[i..], c))
    {
      ScoresStep(v, ps, c, i);
      var p := ps[i];
      if |p| <= c {
        var score := PartScore(v, p, c);
        if score.Err? {
          return Err(score.error);
        }
        PrefixedAppend(values, score.value, Scores(v, ps[i + 1..], c));
        values := values + [score.value];
      }
      i := i + 1;
    }
    assert ps[i..] == [] && values + [] == values;
    if values == [] {
      return Err(EmptyMax);
    }
    return Ok(SeqMax(values));
  }

  lemma SuffixBlocks(ps: seq<seq<seq<Good>>>, i: nat)
    requires NoEmptyPartition(ps)
    requires i <= |ps|
    ensures NoEmptyPartition(ps[i..])
  {
  }

  /** One step of the scores: skip the first partition, raise its failure, or put its score in front. */
  lemma ScoresStep(v: Valuation, ps: seq<seq<seq<Good>>>, c: int, i: nat)
    requires NoEmptyPartition(ps)
    requires i < |ps|
    ensures NoEmptyPartition(ps[i..]) && NoEmptyPartition(ps[i + 1..])
    ensures ps[i] != []
    ensures Scores(v, ps[i..], c) ==
      if |ps[i]| > c then Scores(v, ps[i + 1..], c)
      else match PartScore(v, ps[i], c)
        case Err(e) => Err(e)
        case Ok(x) => Prefixed([x], Scores(v, ps[i + 1..], c))
  {
    SuffixBlocks(ps, i);
    SuffixBlocks(ps, i + 1);
    assert ps[i..][1..] == ps[i + 1..] && ps[i..][0] == ps[i];
  }

  lemma PrefixedNothing(r: Result<seq<int>>)
    ensures Prefixed([], r) == r
  {
    if r.Ok? {
      assert [] + r.value == r.value;
    }
  }

  lemma PrefixedAppend(values: seq<int>, x: int, r: Result<seq<int>>)
    ensures Prefixed(values, Prefixed([x], r)) == Prefixed(values + [x], r)
  {
    if r.Ok? {
      assert values + ([x] + r.value) == (values + [x]) + r.value;
    }
  }

  // ---------------------------------------------------------------------------
  // What the scores are.

  /** The scores are those of the partitions with at most c blocks; a failure is the failure of one of them. */
  lemma {:induction false} ScoresMeaning(v: Valuation, ps: seq<seq<seq<Good>>>, c: int)
    requires NoEmptyPartition(ps)
    ensures Scores(v, ps, c).Err? <==> exists p | p in ps && |p| <= c :: PartScore(v, p, c).Err?
    ensures Scores(v, ps, c).Err? ==> Scores(v, ps, c).error == ValueFailure(v)
    ensures Scores(v, ps, c).Ok? ==>
      && (forall p | p in ps && |p| <= c :: PartScore(v, p, c).Ok? && PartScore(v, p, c).value in Scores(v, ps, c).value)
      && (forall x | x in Scores(v, ps, c).value :: exists p | p in ps && |p| <= c :: PartScore(v, p, c) == Ok(x))
    decreases |ps|
  {
    if ps != [] {
      ScoresMeaning(v, ps[1..], c);
      assert forall p | p in ps :: p == ps[0] || p in ps[1..];
    }
  }

  /** No partition has fewer than one block, and the single-block one has exactly one. */
  lemma KeptExists(b: set<Good>, c: int)
    ensures (exists p | p in BundlePartitions(b) :: |p| <= c) <==> c >= 1
  {
    var ps := BundlePartitions(b);
    if c >= 1 {
      if b != {} {
        FirstPartitionWhole(Ascending(b));
      }
      assert |ps[0]| == 1;
    }
  }

  /**
   * Over any list of partitions that starts with a single block, the share is the
   * largest score of a partition of at most c blocks: it is at least every such
   * score and is one of them. It fails with an empty maximum exactly when c < 1,
   * and otherwise exactly when some such partition has an undefined score.
   */
  lemma ShareOverMeaning(v: Valuation, ps: seq<seq<seq<Good>>>, c: int)
    requires NoEmptyPartition(ps) && ps != [] && |ps[0]| == 1
    ensures var r := ShareOver(v, ps, c);
      && (r == Err(EmptyMax) <==> c < 1)
      && (r.Err? && c >= 1 ==> r.error == ValueFailure(v))
      && (r.Err? <==> c < 1 || exists p | p in ps && |p| <= c :: PartScore(v, p, c).Err?)
      && (r.Ok? ==>
            && (forall p | p in ps && |p| <= c :: PartScore(v, p, c).Ok? && PartScore(v, p, c).value <= r.value)
            && exists p | p in ps && |p| <= c :: PartScore(v, p, c) == r)
  {
    ScoresMeaning(v, ps, c);
    if c >= 1 {
      assert ps[0] in ps && |ps[0]| <= c;
    } else {
      forall p | p in ps
        ensures |p| > c
      {
        var k :| 0 <= k < |ps| && ps[k] == p;
      }
    }
    var s := Scores(v, ps, c);
    if s.Ok? && s.value != [] {
      var m := SeqMax(s.value);
      var p :| p in ps && |p| <= c && PartScore(v, p, c) == Ok(m);
    }
    assert ValueFailure(v) != EmptyMax;
  }

  /**
   * The maximin share is the largest score of a partition of the bundle into at
   * most c blocks: it is at least every such score and is one of them. It fails
   * with an empty maximum exactly when c < 1, and otherwise exactly when some such
   * partition has an undefined score.
   */
  lemma MaximinShareMeaning(v: Valuation, b: set<Good>, c: int)
    ensures var ps := BundlePartitions(b); var r := MaximinShare(v, b, c);
      && (r == Err(EmptyMax) <==> c < 1)
      && (r.Err? && c >= 1 ==> r.error == ValueFailure(v))
      && (r.Err? <==> c < 1 || exists p | p in ps && |p| <= c :: PartScore(v, p, c).Err?)
      && (r.Ok? ==>
            && (forall p | p in ps && |p| <= c :: PartScore(v, p, c).Ok? && PartScore(v, p, c).value <= r.value)
            && exists p | p in ps && |p| <= c :: PartScore(v, p, c) == r)
  {
    ShareOverMeaning(v, BundlePartitions(b), c);
  }

  // ---------------------------------------------------------------------------
  // The enumeration covers every set partition of the bundle.

  /** p splits the bundle b: non-empty blocks that together list every good of b exactly once. */
  predicate SplitsBundle(p: seq<seq<Good>>, b: set<Good>)
  {
    && (forall i | 0 <= i < |p| :: p[i] != [])
    && multiset(Flatten(p)) == multiset(b)
  }

  /** Every partition of a non-empty bundle that the enumeration yields splits the bundle. */
  lemma BundlePartitionsSound(b: set<Good>, p: seq<seq<Good>>)
    requires b != {} && p in BundlePartitions(b)
    ensures SplitsBundle(p, b)
  {
    AscendingMultiset(b);
  }

  /** Every split of a non-empty bundle is yielded, up to the order of blocks and of goods in them. */
  lemma BundlePartitionsComplete(b: set<Good>, p: seq<seq<Good>>)
    requires b != {} && SplitsBundle(p, b)
    ensures exists q | q in BundlePartitions(b) :: Blocks(q) == Blocks(p)
  {
    AscendingMultiset(b);
    AscendingSorted(b);
    PartitionsComplete(Ascending(b), p);
  }

  /** A block of p has a block of q with the same goods when p and q have the same blocks. */
  lemma MatchingBlock(p: seq<seq<Good>>, q: seq<seq<Good>>, i: nat) returns (j: nat)
    requires Blocks(p) == Blocks(q) && i < |p|
    ensures j < |q| && Elements(q[j]) == Elements(p[i])
  {
    BlocksHas(p, i);
    j := BlocksMember(q, multiset(p[i]));
    assert forall g :: g in q[j] <==> g in multiset(p[i]);
  }

  /** Two partitions with the same blocks have the same least block value. */
  lemma SameBlocksSameMin(v: Valuation, p: seq<seq<Good>>, q: seq<seq<Good>>)
    requires p != [] && q != [] && Blocks(p) == Blocks(q)
    ensures MinValue(v, p) == MinValue(v, q)
  {
    SameBlocksMinOk(v, p, q);
    SameBlocksMinOk(v, q, p);
    if MinValue(v, p).Ok? {
      MinAtMostMatched(v, p, q);
      MinAtMostMatched(v, q, p);
    }
  }

  /** The least block value of q is at most that of p when they have the same blocks. */
  lemma MinAtMostMatched(v: Valuation, p: seq<seq<Good>>, q: seq<seq<Good>>)
    requires p != [] && q != [] && Blocks(p) == Blocks(q)
    requires MinValue(v, p).Ok? && MinValue(v, q).Ok?
    ensures MinValue(v, q).value <= MinValue(v, p).value
  {
    var i :| 0 <= i < |p| && Value(v, Elements(p[i])) == MinValue(v, p);
    var j := MatchingBlock(p, q, i);
  }

  /** If the least block value of p is defined, so is that of q, when they have the same blocks. */
  lemma SameBlocksMinOk(v: Valuation, p: seq<seq<Good>>, q: seq<seq<Good>>)
    requires p != [] && q != [] && Blocks(p) == Blocks(q)
    ensures MinValue(v, p).Ok? ==> MinValue(v, q).Ok?
  {
    if MinValue(v, p).Ok? {
      forall j | 0 <= j < |q| ensures Value(v, Elements(q[j])).Ok? {
        var i := MatchingBlock(q, p, j);
      }
    }
  }

  /** Partitions with the same blocks have as many blocks, and the same score. */
  lemma SameBlocksSameScore(v: Valuation, p: seq<seq<Good>>, q: seq<seq<Good>>, c: int)
    requires p != [] && |p| <= c && Blocks(p) == Blocks(q)
    ensures |q| == |p| && q != [] && PartScore(v, p, c) == PartScore(v, q, c)
  {
    BlocksSize(p);
    BlocksSize(q);
    SameBlocksSameMin(v, p, q);
  }

  /**
   * The maximin share is at least the score of every split of the bundle into at
   * most c parts, and fails whenever one of those scores fails.
   */
  lemma MaximinShareCoversEvery(v: Valuation, b: set<Good>, c: int, p: seq<seq<Good>>)
    requires b != {} && SplitsBundle(p, b) && p != [] && |p| <= c
    ensures MaximinShare(v, b, c).Ok? ==>
      PartScore(v, p, c).Ok? && PartScore(v, p, c).value <= MaximinShare(v, b, c).value
    ensures PartScore(v, p, c).Err? ==> MaximinShare(v, b, c).Err?
  {
    BundlePartitionsComplete(b, p);
    var q :| q in BundlePartitions(b) && Blocks(q) == Blocks(p);
    SameBlocksSameScore(v, p, q, c);
    MaximinShareMeaning(v, b, c);
  }

  /** Every partition of a non-empty bundle has one block per good at most, and its blocks hold exactly the bundle's goods. */
  lemma PartitionOfBundle(b: set<Good>, p: seq<seq<Good>>)
    requires p in BundlePartitions(b)
    ensures |p| <= if b == {} then 1 else |b|
    ensures |p| == 1 ==> Elements(p[0]) == b
  {
    if b != {} {
      var xs := Ascending(b);
      AscendingSorted(b);
      BlocksAtMostLength(p, xs);
      if |p| == 1 {
        assert Flatten(p) == p[0] + Flatten(p[1..]);
        assert p[1..] == [];
        assert multiset(p[0]) == multiset(xs);
        forall g ensures g in p[0] <==> g in xs {
          assert g in p[0] <==> g in multiset(p[0]);
          assert g in xs <==> g in multiset(xs);
        }
      }
    }
  }

  /** Splitting into one part guarantees the whole bundle: the 1-out-of-1 share is the value. */
  lemma MaximinShareOfOne(v: Valuation, b: set<Good>)
    ensures MaximinShare(v, b, 1) == Value(v, b)
  {
    var ps := BundlePartitions(b);
    MaximinShareMeaning(v, b, 1);
    forall p | p in ps && |p| <= 1
      ensures PartScore(v, p, 1) == Value(v, b)
    {
      PartitionOfBundle(b, p);
      assert Value(v, Elements(p[0])) == Value(v, b);
      if MinValue(v, p).Ok? {
        var i :| 0 <= i < |p| && Value(v, Elements(p[i])) == MinValue(v, p);
      }
    }
  }

  /** With more parts than goods every partition scores 0, so the share is 0. */
  lemma MaximinShareBeyondSize(v: Valuation, b: set<Good>, c: int)
    requires c > |b| && c > 1
    ensures MaximinShare(v, b, c) == Ok(0)
  {
    var ps := BundlePartitions(b);
    MaximinShareMeaning(v, b, c);
    forall p | p in ps && |p| <= c
      ensures PartScore(v, p, c) == Ok(0)
    {
      PartitionOfBundle(b, p);
    }
  }

  // ---------------------------------------------------------------------------
  // The enumeration as written. value_1_of_c_MMS calls more_itertools.partitions,
  // which cuts the iteration of the bundle into runs of consecutive goods: one
  // split for each set of cut positions among 1, ..., n - 1, the sets taken in
  // powerset order. These are 2^(n-1) of the Bell(n) partitions.

  /** range(lo, hi). */
  function Range(lo: int, hi: int): (r: seq<int>)
    ensures |r| == if lo < hi then hi - lo else 0
    decreases hi - lo
  {
    if lo >= hi then [] else [lo] + Range(lo + 1, hi)
  }

  /** xs[i:j] for positions within the list, as a Python slice: empty unless i < j. */
  function Slice<T>(xs: seq<T>, i: int, j: int): seq<T>
  {
    if 0 <= i <= j <= |xs| then xs[i..j] else []
  }

  /** The runs xs[from:cuts[0]], xs[cuts[0]:cuts[1]], ..., xs[cuts[last]:]. */
  function Runs<T>(xs: seq<T>, from: int, cuts: seq<int>): (p: seq<seq<T>>)
    ensures |p| == |cuts| + 1
    decreases |cuts|
  {
    if cuts == [] then [Slice(xs, from, |xs|)]
    else [Slice(xs, from, cuts[0])] + Runs(xs, cuts[0], cuts[1..])
  }

  /** more_itertools.partitions: the runs for every set of cut positions, in powerset order. */
  function ConsecutiveSplits<T>(xs: seq<T>): seq<seq<seq<T>>>
  {
    var cuts := Powerset(Range(1, |xs|));
    seq(|cuts|, k requires 0 <= k < |cuts| => Runs(xs, 0, cuts[k]))
  }

  /** The consecutive splits of a bundle, its goods taken in ascending order. */
  function BundleSplits(b: set<Good>): (ps: seq<seq<seq<Good>>>)
    ensures ps != [] && NoEmptyPartition(ps) && |ps[0]| == 1
  {
    var xs := Ascending(b);
    CombinationsUpToStartsEmpty(Range(1, |xs|), |Range(1, |xs|)|);
    ConsecutiveSplits(xs)
  }

  /** value_1_of_c_MMS as written: the largest score over the consecutive splits only. */
  function MaximinShareAsWritten(v: Valuation, b: set<Good>, c: int): Result<int>
  {
    ShareOver(v, BundleSplits(b), c)
  }

  /** Cut positions in strictly increasing order, the first at least lo, all below hi. */
  predicate CutsFrom(cuts: seq<int>, lo: int, hi: int)
    decreases |cuts|
  {
    cuts == [] || (lo <= cuts[0] < hi && CutsFrom(cuts[1..], cuts[0] + 1, hi))
  }

  /** A subsequence of range(lo, hi) is a set of cut positions between lo and hi. */
  lemma {:induction false} SubsequenceOfRange(t: seq<int>, lo: int, hi: int)
    requires IsSubsequence(t, Range(lo, hi))
    ensures CutsFrom(t, lo, hi)
    decreases hi - lo
  {
    if t != [] {
      var r := Range(lo, hi);
      assert r != [];
      assert r[0] == lo && r[1..] == Range(lo + 1, hi);
      if t[0] == r[0] && IsSubsequence(t[1..], r[1..]) {
        SubsequenceOfRange(t[1..], lo + 1, hi);
      } else {
        SubsequenceOfRange(t, lo + 1, hi);
      }
    }
  }

  /** The runs between strictly increasing cuts are non-empty and concatenate to the rest of the list. */
  lemma {:induction false} RunsConsecutive<T>(xs: seq<T>, from: int, cuts: seq<int>)
    requires 0 <= from < |xs| && CutsFrom(cuts, from + 1, |xs|)
    ensures var p := Runs(xs, from, cuts);
      Flatten(p) == xs[from..] && forall i | 0 <= i < |p| :: p[i] != []
    decreases |cuts|
  {
    var p := Runs(xs, from, cuts);
    if cuts == [] {
      assert Slice(xs, from, |xs|) == xs[from..];
      assert p == [xs[from..]] && p[1..] == [];
    } else {
      var rest := Runs(xs, cuts[0], cuts[1..]);
      RunsConsecutive(xs, cuts[0], cuts[1..]);
      assert p == [xs[from..cuts[0]]] + rest;
      assert p[1..] == rest;
      assert xs[from..] == xs[from..cuts[0]] + xs[cuts[0]..];
      assert forall i | 1 <= i < |p| :: p[i] == rest[i - 1];
    }
  }

  /**
   * A non-empty list has 2^(n-1) consecutive splits, and each keeps the elements
   * in their order and cuts them into non-empty runs.
   */
  lemma SplitsAreRuns<T>(xs: seq<T>)
    requires xs != []
    ensures |ConsecutiveSplits(xs)| == Pow2(|xs| - 1)
    ensures forall p | p in ConsecutiveSplits(xs) ::
      Flatten(p) == xs && forall i | 0 <= i < |p| :: p[i] != []
  {
    var range := Range(1, |xs|);
    var cuts := Powerset(range);
    PowersetCount(range);
    PowersetMembers(range);
    forall p | p in ConsecutiveSplits(xs)
      ensures Flatten(p) == xs && forall i | 0 <= i < |p| :: p[i] != []
    {
      var k :| 0 <= k < |cuts| && p == Runs(xs, 0, cuts[k]);
      assert cuts[k] in cuts;
      SubsequenceOfRange(cuts[k], 1, |xs|);
      RunsConsecutive(xs, 0, cuts[k]);
      assert xs[0..] == xs;
    }
  }

  /** Every consecutive split of a bundle is one of its partitions. */
  lemma SplitsArePartitions(b: set<Good>)
    ensures forall p | p in BundleSplits(b) :: p in BundlePartitions(b)
  {
    var xs := Ascending(b);
    AscendingSorted(b);
    if b == {} {
      var e: seq<int> := [];
      assert Range(1, 0) == e;
      assert Powerset(e) == [] + Combinations(e, 0) == [e];
      assert Runs(xs, 0, e) == [[]];
      assert BundleSplits(b) == [[[]]];
    } else {
      SplitsAreRuns(xs);
      forall p | p in BundleSplits(b)
        ensures p in BundlePartitions(b)
      {
        ConsecutiveRunsArePartitions(xs, p);
      }
    }
  }

  /**
   * The share as written is defined whenever the maximin share is, and never
   * exceeds it: each split it scores is a partition the maximin share scores too.
   */
  lemma AsWrittenAtMostShare(v: Valuation, b: set<Good>, c: int)
    requires MaximinShare(v, b, c).Ok?
    ensures MaximinShareAsWritten(v, b, c).Ok?
    ensures MaximinShareAsWritten(v, b, c).value <= MaximinShare(v, b, c).value
  {
    var ps, qs := BundlePartitions(b), BundleSplits(b);
    ShareOverMeaning(v, ps, c);
    ShareOverMeaning(v, qs, c);
    SplitsArePartitions(b);
    var r := MaximinShareAsWritten(v, b, c);
    if r.Ok? {
      var q :| q in qs && |q| <= c && PartScore(v, q, c) == r;
      assert q in ps;
    }
  }

  // ---------------------------------------------------------------------------
  // The binary override and is_1_of_c_MMS.

  /**
   * math.floor(a / c) for integers, exactly: Dafny's division rounds so that the
   * remainder is never negative, which is the floor for c > 0 and one above it for
   * c < 0 when c does not divide a.
   */
  function FloorDiv(a: int, c: int): (m: int)
    requires c != 0
    ensures c > 0 ==> c * m <= a < c * (m + 1)
    ensures c < 0 ==> c * (m + 1) < a <= c * m
  {
    if c > 0 || a % c == 0 then a / c else a / c - 1
  }

  /** BinaryAgent.value_1_of_c_MMS: floor(total value / c), undefined for c = 0. */
  function BinaryMaximinShare(totalValue: int, c: int): (r: Result<int>)
    ensures r.Ok? <==> c != 0
    ensures r.Ok? && c > 0 ==> c * r.value <= totalValue < c * (r.value + 1)
  {
    if c == 0 then Err(DivisionByZero) else Ok(FloorDiv(totalValue, c))
  }

  /**
   * is_1_of_c_MMS: the own value against approximationFactor times the maximin
   * share. It calls the share with c in place of the bundle, which only the binary
   * agent's override accepts; every other agent fails.
   */
  function IsOneOfCMMS(a: Agent, own: set<Good>, c: int, approximationFactor: real): (r: Result<bool>)
    ensures r.Ok? <==> a.valuation.Binary? && c != 0
  {
    match Value(a.valuation, own)
    case Err(e) => Err(e)
    case Ok(u) =>
      if !a.valuation.Binary? then Err(UnsupportedOperation)
      else
        match BinaryMaximinShare(a.totalValue, c)
        case Err(e) => Err(e)
        case Ok(m) => Ok(u as real >= approximationFactor * m as real)
  }

  /**
   * For a binary agent with c > 0 and factor 1, the own bundle passes exactly when
   * c shares one good larger than its value would exceed the total value.
   */
  lemma IsOneOfCMMSBinary(desired: set<Good>, cardinality: int, own: set<Good>, c: int)
    requires c > 0
    ensures IsOneOfCMMS(NewBinaryAgent(desired, cardinality), own, c, 1.0) ==
      Ok(|desired| < c * (BinaryValue(desired, own) + 1))
  {
    var m := BinaryMaximinShare(|desired|, c).value;
    var u := BinaryValue(desired, own);
    assert c * m <= |desired| < c * (m + 1);
    assert (u as real >= m as real) <==> u >= m;
    if u >= m {
      assert c * (u + 1) >= c * (m + 1) by { MultiplyAtLeast(c, u + 1, m + 1); }
    } else {
      assert c * (u + 1) <= c * m by { MultiplyAtLeast(c, m, u + 1); }
    }
  }

  lemma MultiplyAtLeast(c: int, x: int, y: int)
    requires c > 0 && x >= y
    ensures c * x >= c * y
  {
    assert c * x - c * y == c * (x - y);
  }

  // ---------------------------------------------------------------------------
  // Doctests.

  /** The partitions of {x, y}: the whole bundle, then x and y apart. */
  lemma PartitionsOfXY()
    ensures BundlePartitions({'x', 'y'}) == [[['x', 'y']], [['x'], ['y']]]
  {
    AscendingOfTwo('x', 'y');
    PartitionsOfTwo('x', 'y');
  }

  /** The block values of MonotoneAgent {x: 1, y: 2, xy: 4} on the partitions of {x, y}. */
  lemma MonotoneBlockValues()
    ensures var v := Monotone(map[{} := 0, {'x'} := 1, {'y'} := 2, {'x', 'y'} := 4]);
      && MinValue(v, [['x', 'y']]) == Ok(4)
      && MinValue(v, [['x'], ['y']]) == Ok(1)
  {
    assert Elements(['x', 'y']) == {'x', 'y'};
    assert Elements(['x']) == {'x'} && Elements(['y']) == {'y'};
    assert [['x'], ['y']][1..] == [['y']];
  }

  /** The scores of the partitions of {x, y} under MonotoneAgent {x: 1, y: 2, xy: 4}, for c = 1, 2, 3. */
  lemma MonotoneScores(c: int)
    requires 1 <= c <= 3
    ensures var v := Monotone(map[{} := 0, {'x'} := 1, {'y'} := 2, {'x', 'y'} := 4]);
      Scores(v, [[['x', 'y']], [['x'], ['y']]], c) == Ok(if c == 1 then [4] else if c == 2 then [0, 1] else [0, 0])
  {
    var v := Monotone(map[{} := 0, {'x'} := 1, {'y'} := 2, {'x', 'y'} := 4]);
    var ps: seq<seq<seq<Good>>> := [[['x', 'y']], [['x'], ['y']]];
    MonotoneBlockValues();
    assert ps[1..] == [[['x'], ['y']]] && ps[1..][1..] == [];
    var tail := Scores(v, ps[1..], c);
    assert Scores(v, ps[1..][1..], c) == Ok([]);
    assert [1] + [] == [1] && [0] + [] == [0] && [4] + [] == [4] && [0] + [1] == [0, 1] && [0] + [0] == [0, 0];
    assert tail == Ok(if c == 1 then [] else if c == 2 then [1] else [0]);
    assert PartScore(v, ps[0], c) == Ok(if c == 1 then 4 else 0);
  }

  /** The doctests of value_1_of_c_MMS for MonotoneAgent {x: 1, y: 2, xy: 4} and the bundle {x, y}. */
  lemma MonotoneMaximinExamples()
    ensures var v := Monotone(map[{} := 0, {'x'} := 1, {'y'} := 2, {'x', 'y'} := 4]);
      && MaximinShare(v, {'x', 'y'}, 1) == Ok(4)
      && MaximinShare(v, {'x', 'y'}, 2) == Ok(1)
      && MaximinShare(v, {'x', 'y'}, 3) == Ok(0)
  {
    PartitionsOfXY();
    MonotoneScores(1);
    MonotoneScores(2);
    MonotoneScores(3);
    assert SeqMax([0, 1]) == 1 && SeqMax([0, 0]) == 0 && SeqMax([4]) == 4;
  }

  // ---------------------------------------------------------------------------
  // The consecutive splits can miss the best partition: additive weights x: 1,
  // y: 3, z: 1 and two parts.

  lemma CutsOfThree()
    ensures Powerset([1, 2]) == [[], [1], [2], [1, 2]]
  {
    var s := [1, 2];
    CombinationsOfTwo(1, 2);
    assert Combinations(s, 0) == [[]];
    assert CombinationsUpTo(s, 0) == [] + [[]];
    assert CombinationsUpTo(s, 1) == [[]] + [[1], [2]];
    assert CombinationsUpTo(s, 2) == [[], [1], [2]] + [[1, 2]];
  }

  /** The runs of a three-element list cut nowhere and after its first element. */
  lemma RunsOfThreeLeft<T>(a: T, b: T, c: T)
    ensures Runs([a, b, c], 0, []) == [[a, b, c]]
    ensures Runs([a, b, c], 0, [1]) == [[a], [b, c]]
  {
    var xs := [a, b, c];
    assert xs[0..3] == xs && xs[0..1] == [a] && xs[1..3] == [b, c];
    assert [1][1..] == [];
  }

  /** The runs of a three-element list cut after its second element, and after both. */
  lemma RunsOfThreeRight<T>(a: T, b: T, c: T)
    ensures Runs([a, b, c], 0, [2]) == [[a, b], [c]]
    ensures Runs([a, b, c], 0, [1, 2]) == [[a], [b], [c]]
  {
    var xs := [a, b, c];
    assert xs[0..2] == [a, b] && xs[2..3] == [c] && xs[0..1] == [a] && xs[1..2] == [b];
    assert [1, 2][1..] == [2] && [2][1..] == [];
    assert Runs(xs, 2, []) == [[c]];
    assert Runs(xs, 1, [2]) == [[b], [c]];
  }

  /** The consecutive splits of {x, y, z}: cut nowhere, after x, after y, after both. */
  lemma SplitsOfXYZ()
    ensures BundleSplits({'x', 'y', 'z'}) ==
      [[['x', 'y', 'z']], [['x'], ['y', 'z']], [['x', 'y'], ['z']], [['x'], ['y'], ['z']]]
  {
    AscendingOfThree('x', 'y', 'z');
    assert Range(3, 3) == [] && Range(2, 3) == [2] && Range(1, 3) == [1, 2];
    CutsOfThree();
    RunsOfThreeLeft('x', 'y', 'z');
    RunsOfThreeRight('x', 'y', 'z');
  }

  /** The weights of the example: y outweighs x and z together. */
  const ExampleWeights: map<Good, int> := map['x' := 1, 'y' := 3, 'z' := 1]

  lemma ExampleSingletons()
    ensures Sum(ExampleWeights, {'x'}) == 1 && Sum(ExampleWeights, {'y'}) == 3 && Sum(ExampleWeights, {'z'}) == 1
  {
    SumRemove(ExampleWeights, {'x'}, 'x');
    SumRemove(ExampleWeights, {'y'}, 'y');
    SumRemove(ExampleWeights, {'z'}, 'z');
    assert {'x'} - {'x'} == {} && {'y'} - {'y'} == {} && {'z'} - {'z'} == {};
  }

  lemma ExamplePairs()
    ensures Sum(ExampleWeights, {'y', 'z'}) == 4 && Sum(ExampleWeights, {'x', 'y'}) == 4
    ensures Sum(ExampleWeights, {'x', 'z'}) == 2
  {
    ExampleSingletons();
    SumRemove(ExampleWeights, {'y', 'z'}, 'y');
    SumRemove(ExampleWeights, {'x', 'y'}, 'x');
    SumRemove(ExampleWeights, {'x', 'z'}, 'x');
    assert {'y', 'z'} - {'y'} == {'z'} && {'x', 'y'} - {'x'} == {'y'} && {'x', 'z'} - {'x'} == {'z'};
  }

  /** The least block value of a two-block partition, from the two block sums. */
  lemma MinValueOfTwo(a: seq<Good>, b: seq<Good>, m: int, n: int)
    requires Elements(a) <= ExampleWeights.Keys && Elements(b) <= ExampleWeights.Keys
    requires Sum(ExampleWeights, Elements(a)) == m && Sum(ExampleWeights, Elements(b)) == n
    ensures MinValue(Additive(ExampleWeights), [a, b]) == Ok(if m <= n then m else n)
  {
    assert [a, b][1..] == [b];
  }

  /** The least block values of the two-block partitions of {x, y, z}. */
  lemma ExampleBlockValues()
    ensures var v := Additive(ExampleWeights);
      && MinValue(v, [['x'], ['y', 'z']]) == Ok(1)
      && MinValue(v, [['x', 'y'], ['z']]) == Ok(1)
      && MinValue(v, [['y'], ['x', 'z']]) == Ok(2)
  {
    assert Elements(['x']) == {'x'} && Elements(['y']) == {'y'} && Elements(['z']) == {'z'};
    assert Elements(['y', 'z']) == {'y', 'z'} && Elements(['x', 'y']) == {'x', 'y'} && Elements(['x', 'z']) == {'x', 'z'};
    ExampleSingletons();
    ExamplePairs();
    MinValueOfTwo(['x'], ['y', 'z'], 1, 4);
    MinValueOfTwo(['x', 'y'], ['z'], 4, 1);
    MinValueOfTwo(['y'], ['x', 'z'], 3, 2);
  }

  /** A partition of at most c blocks puts its score in front of the scores of the rest. */
  lemma ScoresKept(v: Valuation, p: seq<seq<Good>>, rest: seq<seq<seq<Good>>>, c: int, x: int, tail: seq<int>)
    requires p != [] && |p| <= c && NoEmptyPartition(rest)
    requires PartScore(v, p, c) == Ok(x) && Scores(v, rest, c) == Ok(tail)
    ensures NoEmptyPartition([p] + rest)
    ensures Scores(v, [p] + rest, c) == Ok([x] + tail)
  {
    assert ([p] + rest)[0] == p && ([p] + rest)[1..] == rest;
    assert forall k | 1 <= k < |[p] + rest| :: ([p] + rest)[k] == rest[k - 1];
  }

  /** A partition of more than c blocks is skipped. */
  lemma ScoresSkipped(v: Valuation, p: seq<seq<Good>>, rest: seq<seq<seq<Good>>>, c: int)
    requires p != [] && |p| > c && NoEmptyPartition(rest)
    ensures NoEmptyPartition([p] + rest)
    ensures Scores(v, [p] + rest, c) == Scores(v, rest, c)
  {
    assert ([p] + rest)[0] == p && ([p] + rest)[1..] == rest;
    assert forall k | 1 <= k < |[p] + rest| :: ([p] + rest)[k] == rest[k - 1];
  }

  /** The scores of four partitions, the last one skipped. */
  lemma ScoresOfFour(v: Valuation, a: seq<seq<Good>>, b: seq<seq<Good>>, d: seq<seq<Good>>, skipped: seq<seq<Good>>,
                     c: int, x: int, y: int, z: int)
    requires a != [] && b != [] && d != [] && |a| <= c && |b| <= c && |d| <= c && |skipped| > c
    requires PartScore(v, a, c) == Ok(x) && PartScore(v, b, c) == Ok(y) && PartScore(v, d, c) == Ok(z)
    ensures NoEmptyPartition([a, b, d, skipped])
    ensures Scores(v, [a, b, d, skipped], c) == Ok([x, y, z])
  {
    var e: seq<seq<seq<Good>>> := [];
    ScoresSkipped(v, skipped, e, c);
    assert [skipped] + e == [skipped];
    ScoresKept(v, d, [skipped], c, z, []);
    assert [d] + [skipped] == [d, skipped] && [z] + [] == [z];
    ScoresKept(v, b, [d, skipped], c, y, [z]);
    assert [b] + [d, skipped] == [b, d, skipped];
    assert [y] + [z] == [y, z];
    ScoresKept(v, a, [b, d, skipped], c, x, [y, z]);
    assert [a] + [b, d, skipped] == [a, b, d, skipped] && [x] + [y, z] == [x, y, z];
  }

  /** The scores of five partitions, the last one skipped. */
  lemma ScoresOfFive(v: Valuation, a: seq<seq<Good>>, b: seq<seq<Good>>, d: seq<seq<Good>>, f: seq<seq<Good>>,
                     skipped: seq<seq<Good>>, c: int, x: int, y: int, z: int, t: int)
    requires a != [] && b != [] && d != [] && f != [] && |a| <= c && |b| <= c && |d| <= c && |f| <= c && |skipped| > c
    requires PartScore(v, a, c) == Ok(x) && PartScore(v, b, c) == Ok(y) && PartScore(v, d, c) == Ok(z)
    requires PartScore(v, f, c) == Ok(t)
    ensures NoEmptyPartition([a, b, d, f, skipped])
    ensures Scores(v, [a, b, d, f, skipped], c) == Ok([x, y, z, t])
  {
    ScoresOfFour(v, b, d, f, skipped, c, y, z, t);
    ScoresKept(v, a, [b, d, f, skipped], c, x, [y, z, t]);
    assert [a] + [b, d, f, skipped] == [a, b, d, f, skipped] && [x] + [y, z, t] == [x, y, z, t];
  }

  /** Two parts of {x, y, z} as written: the whole bundle scores 0, the cuts after x and after y score 1. */
  lemma AsWrittenScores()
    ensures Scores(Additive(ExampleWeights), BundleSplits({'x', 'y', 'z'}), 2) == Ok([0, 1, 1])
  {
    ExampleBlockValues();
    ScoresOfFour(Additive(ExampleWeights), [['x', 'y', 'z']], [['x'], ['y', 'z']], [['x', 'y'], ['z']],
                 [['x'], ['y'], ['z']], 2, 0, 1, 1);
    SplitsOfXYZ();
  }

  /** Two parts of {x, y, z} over all partitions: y on its own scores 2 as well. */
  lemma AllPartitionScores()
    ensures Scores(Additive(ExampleWeights), BundlePartitions({'x', 'y', 'z'}), 2) == Ok([0, 1, 1, 2])
  {
    ExampleBlockValues();
    ScoresOfFive(Additive(ExampleWeights), [['x', 'y', 'z']], [['x'], ['y', 'z']], [['x', 'y'], ['z']],
                 [['y'], ['x', 'z']], [['x'], ['y'], ['z']], 2, 0, 1, 1, 2);
    AllPartitionsOfXYZ();
  }

  lemma AllPartitionsOfXYZ()
    ensures BundlePartitions({'x', 'y', 'z'}) ==
      [[['x', 'y', 'z']], [['x'], ['y', 'z']], [['x', 'y'], ['z']], [['y'], ['x', 'z']], [['x'], ['y'], ['z']]]
  {
    AscendingOfThree('x', 'y', 'z');
    PartitionsOfThree('x', 'y', 'z');
  }

  /**
   * As written, the 1-out-of-2 share of {x, y, z} under weights x: 1, y: 3, z: 1 is
   * 1, though the partition {y} | {x, z} guarantees 2: in the order x, y, z the
   * good y always shares a run with x or with z.
   */
  lemma AsWrittenUnderReports()
    ensures var v := Additive(ExampleWeights);
      && MaximinShareAsWritten(v, {'x', 'y', 'z'}, 2) == Ok(1)
      && [['y'], ['x', 'z']] in BundlePartitions({'x', 'y', 'z'})
      && [['y'], ['x', 'z']] !in BundleSplits({'x', 'y', 'z'})
      && PartScore(v, [['y'], ['x', 'z']], 2) == Ok(2)
  {
    AsWrittenShareOfExample();
    YApartIsPartition();
    YApartIsNoSplit();
    ExampleBlockValues();
  }

  /** As written, the largest of the scores 0, 1, 1 is 1. */
  lemma AsWrittenShareOfExample()
    ensures MaximinShareAsWritten(Additive(ExampleWeights), {'x', 'y', 'z'}, 2) == Ok(1)
  {
    AsWrittenScores();
    assert SeqMax([0, 1, 1]) == 1;
  }

  /** y on its own, x and z together, is a partition of {x, y, z}. */
  lemma YApartIsPartition()
    ensures [['y'], ['x', 'z']] in BundlePartitions({'x', 'y', 'z'})
  {
    AllPartitionsOfXYZ();
    var ps := BundlePartitions({'x', 'y', 'z'});
    assert ps[3] == [['y'], ['x', 'z']];
  }

  /** It is not a consecutive split of x, y, z. */
  lemma YApartIsNoSplit()
    ensures [['y'], ['x', 'z']] !in BundleSplits({'x', 'y', 'z'})
  {
    SplitsOfXYZ();
  }

  /** Over all partitions, the 1-out-of-2 share of the same bundle is 2. */
  lemma MaximinShareOfExample()
    ensures var v := Additive(ExampleWeights);
      MaximinShare(v, {'x', 'y', 'z'}, 2) == Ok(2)
  {
    AllPartitionScores();
    assert SeqMax([0, 1, 1, 2]) == 2;
  }

  /** The is_1_of_c_MMS doctests of BinaryAgent {x, y, z}: the share of 2 is 1. */
  lemma BinaryMaximinExamples()
    ensures var a := NewBinaryAgent({'x', 'y', 'z'}, 1);
      && BinaryMaximinShare(a.totalValue, 2) == Ok(1)
      && IsOneOfCMMS(a, {'x', 'w'}, 2, 1.0) == Ok(true)
      && IsOneOfCMMS(a, {'w'}, 2, 1.0) == Ok(false)
  {
    var d: set<Good> := {'x', 'y', 'z'};
    assert |d| == 3;
    assert d * {'x', 'w'} == {'x'};
    assert d * {'w'} == {};
  }
}
