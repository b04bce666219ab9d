/**
 * Enumeration of set partitions (partitions.py). A partition of a list is a
 * list of non-empty blocks whose concatenation holds every element of the
 * list exactly once. The partitions of [first] + rest are made from each
 * partition of rest by inserting first in front of one of its blocks, or by
 * putting first in a block of its own in front.
 */
module Partitions {
  import opened Powers

  /** The concatenation of the blocks of a partition. */
  function Flatten<T>(p: seq<seq<T>>): seq<T>
  {
    if p == [] then [] else p[0] + Flatten(p[1..])
  }

  /** p splits xs into non-empty blocks that use every element of xs exactly once. */
  ghost predicate IsPartitionOf<T>(p: seq<seq<T>>, xs: seq<T>)
  {
    && (forall i | 0 <= i < |p| :: p[i] != [])
    && multiset(Flatten(p)) == multiset(xs)
  }

  /** p with first put in front of its n-th block. */
  function InsertAt<T>(first: T, p: seq<seq<T>>, n: nat): (q: seq<seq<T>>)
    requires n < |p|
    ensures |q| == |p|
  {
    p[..n] + [[first] + p[n]] + p[n + 1..]
  }

  /** One partition per block of p, with first inserted into that block. */
  function Inserts<T>(first: T, p: seq<seq<T>>): (qs: seq<seq<seq<T>>>)
    ensures |qs| == |p|
    ensures forall i | 0 <= i < |qs| :: |qs[i]| == |p|
  {
    seq(|p|, n requires 0 <= n < |p| => InsertAt(first, p, n))
  }

  /** The partitions made from p: first in each block in turn, then first on its own. */
  function Extensions<T>(first: T, p: seq<seq<T>>): seq<seq<seq<T>>>
  {
    Inserts(first, p) + [[[first]] + p]
  }

  function Expand<T>(first: T, smaller: seq<seq<seq<T>>>): seq<seq<seq<T>>>
  {
    if smaller == [] then [] else Extensions(first, smaller[0]) + Expand(first, smaller[1..])
  }

  /** All partitions of a non-empty list, in the order partitions.py yields them. */
  function Partitions<T>(xs: seq<T>): (ps: seq<seq<seq<T>>>)
    requires |xs| >= 1
    ensures forall p | p in ps :: IsPartitionOf(p, xs)
    decreases |xs|
  {
    if |xs| == 1 then
      assert Flatten([xs]) == xs;
      [[xs]]
    else
      var smaller := Partitions(xs[1..]);
      ExpandSound(xs[0], xs[1..], smaller);
      assert [xs[0]] + xs[1..] == xs;
      Expand(xs[0], smaller)
  }

  lemma {:induction false} FlattenAppend<T>(a: seq<seq<T>>, b: seq<seq<T>>)
    ensures Flatten(a + b) == Flatten(a) + Flatten(b)
  {
    if a == [] {
      assert a + b == b;
    } else {
      assert (a + b)[0] == a[0];
      assert (a + b)[1..] == a[1..] + b;
      FlattenAppend(a[1..], b);
      calc {
        Flatten(a + b);
        a[0] + Flatten(a[1..] + b);
        a[0] + (Flatten(a[1..]) + Flatten(b));
        (a[0] + Flatten(a[1..])) + Flatten(b);
      }
    }
  }

  lemma FlattenAround<T>(left: seq<seq<T>>, x: seq<T>, right: seq<seq<T>>)
    ensures Flatten(left + [x] + right) == Flatten(left) + x + Flatten(right)
  {
    FlattenAppend(left + [x], right);
    FlattenAppend(left, [x]);
    assert Flatten([x]) == x + Flatten([]);
  }

  lemma InsertAtFlatten<T>(first: T, p: seq<seq<T>>, n: nat)
    requires n < |p|
    ensures multiset(Flatten(InsertAt(first, p, n))) == multiset{first} + multiset(Flatten(p))
  {
    var fl, fr := InsertAtAround(first, p, n);
    MultisetOfInsert(fl, first, p[n], fr);
  }

  /** The flattened partition around the n-th block, before and after first goes in. */
  lemma InsertAtAround<T>(first: T, p: seq<seq<T>>, n: nat) returns (fl: seq<T>, fr: seq<T>)
    requires n < |p|
    ensures Flatten(InsertAt(first, p, n)) == fl + ([first] + p[n]) + fr
    ensures Flatten(p) == fl + p[n] + fr
  {
    var left, right := p[..n], p[n + 1..];
    assert p == left + [p[n]] + right;
    FlattenAround(left, p[n], right);
    FlattenAround(left, [first] + p[n], right);
    fl, fr := Flatten(left), Flatten(right);
  }

  lemma MultisetOfInsert<T>(fl: seq<T>, first: T, x: seq<T>, fr: seq<T>)
    ensures multiset(fl + ([first] + x) + fr) == multiset{first} + multiset(fl + x + fr)
  {
    calc {
      multiset(fl + ([first] + x) + fr);
      multiset(fl) + multiset([first] + x) + multiset(fr);
      multiset(fl) + (multiset{first} + multiset(x)) + multiset(fr);
      multiset{first} + (multiset(fl) + multiset(x) + multiset(fr));
      multiset{first} + multiset(fl + x + fr);
    }
  }

  /** Putting first into the n-th block of a partition of rest partitions [first] + rest. */
  lemma InsertAtSound<T>(first: T, rest: seq<T>, p: seq<seq<T>>, n: nat)
    requires IsPartitionOf(p, rest) && n < |p|
    ensures IsPartitionOf(InsertAt(first, p, n), [first] + rest)
  {
    var q := InsertAt(first, p, n);
    InsertAtFlatten(first, p, n);
    forall i | 0 <= i < |q| ensures q[i] != [] {
      if i != n { assert q[i] == p[i]; }
    }
  }

  /** A block of its own for first, in front of a partition of rest, partitions [first] + rest. */
  lemma FreshBlockSound<T>(first: T, rest: seq<T>, p: seq<seq<T>>)
    requires IsPartitionOf(p, rest)
    ensures IsPartitionOf([[first]] + p, [first] + rest)
  {
    FlattenAppend([[first]], p);
    assert Flatten([[first]]) == [first];
  }

  lemma ExtensionsSound<T>(first: T, rest: seq<T>, p: seq<seq<T>>)
    requires IsPartitionOf(p, rest)
    ensures forall q | q in Extensions(first, p) :: IsPartitionOf(q, [first] + rest)
  {
    forall q | q in Extensions(first, p)
      ensures IsPartitionOf(q, [first] + rest)
    {
      if q in Inserts(first, p) {
        var n :| 0 <= n < |p| && q == InsertAt(first, p, n);
        InsertAtSound(first, rest, p, n);
      } else {
        FreshBlockSound(first, rest, p);
      }
    }
  }

  lemma {:induction false} ExpandSound<T>(first: T, rest: seq<T>, smaller: seq<seq<seq<T>>>)
    requires forall p | p in smaller :: IsPartitionOf(p, rest)
    ensures forall q | q in Expand(first, smaller) :: IsPartitionOf(q, [first] + rest)
  {
    if smaller != [] {
      ExtensionsSound(first, rest, smaller[0]);
      ExpandSound(first, rest, smaller[1..]);
    }
  }

  /** Expansion keeps every extension of every smaller partition. */
  lemma {:induction false} ExpandHas<T>(first: T, smaller: seq<seq<seq<T>>>, p: seq<seq<T>>, q: seq<seq<T>>)
    requires p in smaller && q in Extensions(first, p)
    ensures q in Expand(first, smaller)
  {
    assert smaller == [smaller[0]] + smaller[1..];
    if p != smaller[0] {
      ExpandHas(first, smaller[1..], p, q);
    }
  }

  /** Non-empty blocks whose concatenation is empty: there are none. */
  lemma FlattenNothing<T>(p: seq<seq<T>>)
    requires Flatten(p) == [] && forall i | 0 <= i < |p| :: p[i] != []
    ensures p == []
  {
  }

  /**
   * Every split of a list into non-empty runs of consecutive elements, in their
   * order, is one of the partitions the enumeration yields.
   */
  lemma {:induction false} ConsecutiveRunsArePartitions<T>(xs: seq<T>, p: seq<seq<T>>)
    requires |xs| >= 1 && Flatten(p) == xs
    requires forall i | 0 <= i < |p| :: p[i] != []
    ensures p in Partitions(xs)
    decreases |xs|
  {
    assert p != [];
    var x, head, tail := xs[0], p[0], p[1..];
    assert xs == head + Flatten(tail);
    assert forall i | 0 <= i < |tail| :: tail[i] == p[i + 1];
    if |xs| == 1 {
      assert Flatten(tail) == [];
      FlattenNothing(tail);
      assert head == xs;
      assert p == [head] + tail == [xs];
      assert Partitions(xs) == [[xs]];
    } else if |head| == 1 {
      assert Flatten(tail) == xs[1..];
      ConsecutiveRunsArePartitions(xs[1..], tail);
      assert head == [x] && p == [head] + tail;
      assert p in Extensions(x, tail);
      ExpandHas(x, Partitions(xs[1..]), tail, p);
    } else {
      var q := [head[1..]] + tail;
      assert q[1..] == tail;
      assert Flatten(q) == head[1..] + Flatten(tail) == xs[1..];
      ConsecutiveRunsArePartitions(xs[1..], q);
      assert [x] + head[1..] == head;
      assert InsertAt(x, q, 0) == p;
      assert Inserts(x, q)[0] == p;
      ExpandHas(x, Partitions(xs[1..]), q, p);
    }
  }

  // ---------------------------------------------------------------------------
  // Completeness: every partition of the list is yielded, up to the order of
  // the blocks and of the elements inside each block.

  /** The blocks of p as a multiset of multisets: p up to the order of its blocks and of their elements. */
  function Blocks<T>(p: seq<seq<T>>): multiset<multiset<T>>
  {
    if p == [] then multiset{} else multiset{multiset(p[0])} + Blocks(p[1..])
  }

  lemma {:induction false} BlocksAppend<T>(a: seq<seq<T>>, b: seq<seq<T>>)
    ensures Blocks(a + b) == Blocks(a) + Blocks(b)
  {
    if a == [] {
      assert a + b == b;
    } else {
      assert (a + b)[0] == a[0];
      assert (a + b)[1..] == a[1..] + b;
      BlocksAppend(a[1..], b);
    }
  }

  lemma BlocksAround<T>(left: seq<seq<T>>, x: seq<T>, right: seq<seq<T>>)
    ensures Blocks(left + [x] + right) == Blocks(left) + multiset{multiset(x)} + Blocks(right)
  {
    BlocksAppend(left + [x], right);
    BlocksAppend(left, [x]);
    assert Blocks([x]) == multiset{multiset(x)} + Blocks([]);
  }

  /** The multiset view holds every block. */
  lemma {:induction false} BlocksHas<T>(p: seq<seq<T>>, i: nat)
    requires i < |p|
    ensures multiset(p[i]) in Blocks(p)
  {
    if i > 0 {
      BlocksHas(p[1..], i - 1);
    }
  }

  /** The multiset view has one member per block. */
  lemma {:induction false} BlocksSize<T>(p: seq<seq<T>>)
    ensures |Blocks(p)| == |p|
  {
    if p != [] {
      BlocksSize(p[1..]);
    }
  }

  /** Every block of the multiset view is the view of one block of p. */
  lemma {:induction false} BlocksMember<T>(p: seq<seq<T>>, b: multiset<T>) returns (n: nat)
    requires b in Blocks(p)
    ensures n < |p| && multiset(p[n]) == b
  {
    if multiset(p[0]) == b {
      n := 0;
    } else {
      var k := BlocksMember(p[1..], b);
      n := k + 1;
    }
  }

  /** An element of the concatenation lies in one of the blocks. */
  lemma {:induction false} FlattenMember<T>(p: seq<seq<T>>, x: T) returns (m: nat)
    requires x in Flatten(p)
    ensures m < |p| && x in p[m]
  {
    if x in p[0] {
      m := 0;
    } else {
      var k := FlattenMember(p[1..], x);
      m := k + 1;
    }
  }

  /** p with one occurrence of x taken out of its m-th block, the block dropped once empty. */
  function Without<T>(p: seq<seq<T>>, m: nat, k: nat): seq<seq<T>>
    requires m < |p| && k < |p[m]|
  {
    var rest := p[m][..k] + p[m][k + 1..];
    if rest == [] then p[..m] + p[m + 1..] else p[..m] + [rest] + p[m + 1..]
  }

  /** Taking the first element out of its block leaves a partition of the rest of the list. */
  lemma WithoutPartitions<T>(xs: seq<T>, p: seq<seq<T>>, m: nat, k: nat)
    requires |xs| >= 1 && IsPartitionOf(p, xs)
    requires m < |p| && k < |p[m]| && p[m][k] == xs[0]
    ensures IsPartitionOf(Without(p, m, k), xs[1..])
  {
    WithoutFlatten(p, m, k);
    WithoutNonEmpty(p, m, k);
    assert xs == [xs[0]] + xs[1..];
    assert multiset(xs) == multiset{xs[0]} + multiset(xs[1..]);
    Cancel(multiset{xs[0]}, multiset(Flatten(Without(p, m, k))), multiset(xs[1..]));
  }

  /** The same multiset added to both sides can be taken away again. */
  lemma Cancel<T>(c: multiset<T>, a: multiset<T>, b: multiset<T>)
    requires c + a == c + b
    ensures a == b
  {
    forall y ensures a[y] == b[y] {
      assert (c + a)[y] == (c + b)[y];
    }
  }

  /** Taking an element out of a block takes it out of the concatenation. */
  lemma WithoutFlatten<T>(p: seq<seq<T>>, m: nat, k: nat)
    requires m < |p| && k < |p[m]|
    ensures multiset(Flatten(p)) == multiset{p[m][k]} + multiset(Flatten(Without(p, m, k)))
  {
    var left, right := p[..m], p[m + 1..];
    var rest := p[m][..k] + p[m][k + 1..];
    RemoveOne(p[m], k);
    assert p == left + [p[m]] + right;
    FlattenAround(left, p[m], right);
    if rest == [] {
      FlattenAppend(left, right);
    } else {
      FlattenAround(left, rest, right);
    }
  }

  /** The block without its k-th element. */
  lemma RemoveOne<T>(b: seq<T>, k: nat)
    requires k < |b|
    ensures multiset(b) == multiset{b[k]} + multiset(b[..k] + b[k + 1..])
  {
    assert b == b[..k] + [b[k]] + b[k + 1..];
  }

  lemma WithoutNonEmpty<T>(p: seq<seq<T>>, m: nat, k: nat)
    requires m < |p| && k < |p[m]|
    requires forall i | 0 <= i < |p| :: p[i] != []
    ensures forall i | 0 <= i < |Without(p, m, k)| :: Without(p, m, k)[i] != []
  {
    var q := Without(p, m, k);
    var rest := p[m][..k] + p[m][k + 1..];
    forall i | 0 <= i < |q| ensures q[i] != [] {
      if i < m {
        assert q[i] == p[i];
      } else if rest == [] {
        assert q[i] == p[i + 1];
      } else if i > m {
        assert q[i] == p[i];
      }
    }
  }

  /** The block views before and after taking the element out. */
  lemma WithoutBlocks<T>(p: seq<seq<T>>, m: nat, k: nat)
    requires m < |p| && k < |p[m]|
    ensures var rest := p[m][..k] + p[m][k + 1..];
      && Blocks(p) == Blocks(p[..m]) + multiset{multiset(p[m])} + Blocks(p[m + 1..])
      && Blocks(Without(p, m, k)) ==
           Blocks(p[..m]) + (if rest == [] then multiset{} else multiset{multiset(rest)}) + Blocks(p[m + 1..])
  {
    var left, right := p[..m], p[m + 1..];
    var rest := p[m][..k] + p[m][k + 1..];
    assert p == left + [p[m]] + right;
    BlocksAround(left, p[m], right);
    if rest == [] {
      BlocksAppend(left, right);
    } else {
      BlocksAround(left, rest, right);
    }
  }

  /**
   * Every partition of a non-empty list is yielded by the enumeration, up to the
   * order of the blocks and of the elements in them.
   */
  lemma {:induction false} PartitionsComplete<T>(xs: seq<T>, p: seq<seq<T>>)
    requires |xs| >= 1 && IsPartitionOf(p, xs)
    ensures exists q | q in Partitions(xs) :: Blocks(q) == Blocks(p)
    decreases |xs|
  {
    if |xs| == 1 {
      OnlyPartitionOfOne(xs, p);
      assert [xs] in Partitions(xs);
    } else {
      var x := xs[0];
      assert x in multiset(Flatten(p));
      var m := FlattenMember(p, x);
      var k :| 0 <= k < |p[m]| && p[m][k] == x;
      WithoutPartitions(xs, p, m, k);
      PartitionsComplete(xs[1..], Without(p, m, k));
      var q' :| q' in Partitions(xs[1..]) && Blocks(q') == Blocks(Without(p, m, k));
      var q := CompleteStep(x, p, m, k, q');
      ExpandHas(x, Partitions(xs[1..]), q', q);
    }
  }

  /** One step of completeness: x goes back where it was taken from. */
  lemma CompleteStep<T>(x: T, p: seq<seq<T>>, m: nat, k: nat, q': seq<seq<T>>) returns (q: seq<seq<T>>)
    requires m < |p| && k < |p[m]| && p[m][k] == x
    requires Blocks(q') == Blocks(Without(p, m, k))
    ensures q in Extensions(x, q') && Blocks(q) == Blocks(p)
  {
    var rest := p[m][..k] + p[m][k + 1..];
    WithoutBlocks(p, m, k);
    RemoveOne(p[m], k);
    q := ExtendLike(x, q', rest);
    if rest == [] {
      assert multiset(p[m]) == multiset{x};
      Dropped(Blocks(q), Blocks(q'), Blocks(p[..m]), Blocks(p[m + 1..]), multiset(p[m]));
    } else {
      Shrunk(Blocks(q), Blocks(q'), Blocks(p[..m]), Blocks(p[m + 1..]), multiset(rest), multiset(p[m]));
    }
  }

  /** The block views when x was a block of its own. */
  lemma Dropped<U>(bq: multiset<U>, bq': multiset<U>, left: multiset<U>, right: multiset<U>, b: U)
    requires bq == multiset{b} + bq' && bq' == left + multiset{} + right
    ensures bq == left + multiset{b} + right
  {
  }

  /** The block views when x was taken out of a larger block: the smaller block is traded for the larger. */
  lemma Shrunk<U>(bq: multiset<U>, bq': multiset<U>, left: multiset<U>, right: multiset<U>, smaller: U, larger: U)
    requires bq' == left + multiset{smaller} + right
    requires bq + multiset{smaller} == bq' + multiset{larger}
    ensures bq == left + multiset{larger} + right
  {
    forall y ensures bq[y] == (left + multiset{larger} + right)[y] {
      assert (bq + multiset{smaller})[y] == (bq' + multiset{larger})[y];
    }
  }

  /** A one-element list has only the one-block partition. */
  lemma OnlyPartitionOfOne<T>(xs: seq<T>, p: seq<seq<T>>)
    requires |xs| == 1 && IsPartitionOf(p, xs)
    ensures p == [xs]
  {
    BlocksAtMostLength(p, xs);
    FlattenLength(p);
    assert |multiset(Flatten(p))| == 1;
    assert p != [];
    assert p == [p[0]];
    assert Flatten(p) == p[0] + Flatten([]);
    assert multiset(p[0]) == multiset(xs);
    assert |p[0]| == 1;
    assert p[0] == [p[0][0]] && xs == [xs[0]];
    assert p[0][0] in multiset(xs);
    assert p[0][0] in xs;
  }

  /**
   * The extension of q' whose blocks are those of q' with the block rest grown by
   * x, or with a block [x] added when rest is empty.
   */
  lemma ExtendLike<T>(x: T, q': seq<seq<T>>, rest: seq<T>) returns (q: seq<seq<T>>)
    requires rest == [] || multiset(rest) in Blocks(q')
    ensures q in Extensions(x, q')
    ensures rest == [] ==> Blocks(q) == multiset{multiset{x}} + Blocks(q')
    ensures rest != [] ==> Blocks(q) + multiset{multiset(rest)} == Blocks(q') + multiset{multiset{x} + multiset(rest)}
  {
    if rest == [] {
      q := [[x]] + q';
      BlocksAppend([[x]], q');
      assert Blocks([[x]]) == multiset{multiset([x])} + Blocks([]);
    } else {
      var n := BlocksMember(q', multiset(rest));
      q := InsertAt(x, q', n);
      assert Inserts(x, q')[n] == q;
      InsertAtBlocks(x, q', n);
    }
  }

  /** Inserting x into the n-th block trades that block for the grown one. */
  lemma InsertAtBlocks<T>(x: T, q': seq<seq<T>>, n: nat)
    requires n < |q'|
    ensures Blocks(InsertAt(x, q', n)) + multiset{multiset(q'[n])} == Blocks(q') + multiset{multiset{x} + multiset(q'[n])}
  {
    var left, right := q'[..n], q'[n + 1..];
    SplitAt(q', n);
    BlocksAround(left, q'[n], right);
    BlocksAround(left, [x] + q'[n], right);
    assert multiset([x] + q'[n]) == multiset{x} + multiset(q'[n]);
    Trade(Blocks(InsertAt(x, q', n)), Blocks(q'), Blocks(left), Blocks(right),
      multiset(q'[n]), multiset{x} + multiset(q'[n]));
  }

  /** A list is the part before its n-th element, that element, and the part after. */
  lemma SplitAt<T>(s: seq<T>, n: nat)
    requires n < |s|
    ensures s == s[..n] + [s[n]] + s[n + 1..]
  {
  }

  /** Two multisets that differ in one member: adding each one's member to the other evens them out. */
  lemma Trade<U>(a: multiset<U>, b: multiset<U>, left: multiset<U>, right: multiset<U>, smaller: U, larger: U)
    requires a == left + multiset{larger} + right && b == left + multiset{smaller} + right
    ensures a + multiset{smaller} == b + multiset{larger}
  {
  }

  // ---------------------------------------------------------------------------
  // Counting: the number of partitions of an n-element list is the Bell number.

  /** Stirling numbers of the second kind: the partitions of n elements into k blocks. */
  function Stirling(n: nat, k: nat): nat
  {
    if n == 0 then (if k == 0 then 1 else 0)
    else k * Stirling(n - 1, k) + (if k == 0 then 0 else Stirling(n - 1, k - 1))
  }

  /** The k-blocked partitions summed over k = 0..m. */
  function StirlingSum(n: nat, m: nat): nat
  {
    Stirling(n, m) + (if m == 0 then 0 else StirlingSum(n, m - 1))
  }

  /** The Bell number: the set partitions of n elements. */
  function Bell(n: nat): nat
  {
    StirlingSum(n, n)
  }

  /** How many of the listed partitions have exactly k blocks. */
  function CountBlocks<T>(ps: seq<seq<seq<T>>>, k: nat): nat
  {
    if ps == [] then 0 else (if |ps[0]| == k then 1 else 0) + CountBlocks(ps[1..], k)
  }

  lemma {:induction false} CountBlocksAppend<T>(a: seq<seq<seq<T>>>, b: seq<seq<seq<T>>>, k: nat)
    ensures CountBlocks(a + b, k) == CountBlocks(a, k) + CountBlocks(b, k)
  {
    if a == [] {
      assert a + b == b;
    } else {
      assert (a + b)[0] == a[0];
      assert (a + b)[1..] == a[1..] + b;
      CountBlocksAppend(a[1..], b, k);
    }
  }

  lemma {:induction false} CountBlocksUniform<T>(qs: seq<seq<seq<T>>>, m: nat, k: nat)
    requires forall i | 0 <= i < |qs| :: |qs[i]| == m
    ensures CountBlocks(qs, k) == if m == k then |qs| else 0
  {
    if qs != [] {
      CountBlocksUniform(qs[1..], m, k);
    }
  }

  lemma ExtensionsCount<T>(first: T, p: seq<seq<T>>, k: nat)
    ensures CountBlocks(Extensions(first, p), k)
         == (if |p| == k then k else 0) + (if |p| + 1 == k then 1 else 0)
  {
    CountBlocksAppend(Inserts(first, p), [[[first]] + p], k);
    CountBlocksUniform(Inserts(first, p), |p|, k);
  }

  lemma {:induction false} ExpandCount<T>(first: T, smaller: seq<seq<seq<T>>>, k: nat)
    ensures CountBlocks(Expand(first, smaller), k)
         == k * CountBlocks(smaller, k) + (if k == 0 then 0 else CountBlocks(smaller, k - 1))
  {
    if smaller != [] {
      var p, rest := smaller[0], smaller[1..];
      assert Expand(first, smaller) == Extensions(first, p) + Expand(first, rest);
      CountBlocksAppend(Extensions(first, p), Expand(first, rest), k);
      ExtensionsCount(first, p, k);
      ExpandCount(first, rest, k);
      assert CountBlocks(smaller, k) == (if |p| == k then 1 else 0) + CountBlocks(rest, k);
      var below, restBelow := 0, 0;
      if k > 0 {
        below, restBelow := CountBlocks(smaller, k - 1), CountBlocks(rest, k - 1);
        assert below == (if |p| == k - 1 then 1 else 0) + restBelow;
      }
      ExpandCountArith(k, |p|, CountBlocks(Expand(first, smaller), k), CountBlocks(Extensions(first, p), k),
        CountBlocks(Expand(first, rest), k), CountBlocks(smaller, k), below, CountBlocks(rest, k), restBelow);
    }
  }

  /** The arithmetic of ExpandCount's step, once every count is named. */
  lemma ExpandCountArith(k: nat, m: nat, total: int, ext: int, exp: int, whole: int, below: int, rest: int, restBelow: int)
    ensures && total == ext + exp
            && ext == (if m == k then k else 0) + (if m + 1 == k then 1 else 0)
            && exp == k * rest + (if k == 0 then 0 else restBelow)
            && whole == (if m == k then 1 else 0) + rest
            && (k > 0 ==> below == (if m + 1 == k then 1 else 0) + restBelow)
            ==> total == k * whole + (if k == 0 then 0 else below)
  {
    if m == k {
      assert k * (1 + rest) == k + k * rest;
    }
  }

  /** Of the partitions of an n-element list, Stirling(n, k) have k blocks. */
  lemma {:induction false} PartitionsWithKBlocks<T>(xs: seq<T>, k: nat)
    requires |xs| >= 1
    ensures CountBlocks(Partitions(xs), k) == Stirling(|xs|, k)
    decreases |xs|
  {
    if |xs| == 1 {
      assert Stirling(1, k) == if k == 1 then 1 else 0;
    } else {
      ExpandCount(xs[0], Partitions(xs[1..]), k);
      PartitionsWithKBlocks(xs[1..], k);
      if k > 0 {
        PartitionsWithKBlocks(xs[1..], k - 1);
      }
    }
  }

  /** The partitions with at most m blocks, counted block number by block number. */
  function CountUpTo<T>(ps: seq<seq<seq<T>>>, m: nat): nat
  {
    CountBlocks(ps, m) + (if m == 0 then 0 else CountUpTo(ps, m - 1))
  }

  lemma {:induction false} CountUpToStep<T>(ps: seq<seq<seq<T>>>, m: nat)
    requires ps != []
    ensures CountUpTo(ps, m) == (if |ps[0]| <= m then 1 else 0) + CountUpTo(ps[1..], m)
  {
    if m > 0 {
      CountUpToStep(ps, m - 1);
    }
  }

  lemma {:induction false} CountUpToAll<T>(ps: seq<seq<seq<T>>>, m: nat)
    requires forall p | p in ps :: |p| <= m
    ensures CountUpTo(ps, m) == |ps|
  {
    if ps == [] {
      CountUpToEmpty(ps, m);
    } else {
      CountUpToStep(ps, m);
      CountUpToAll(ps[1..], m);
    }
  }

  lemma {:induction false} CountUpToEmpty<T>(ps: seq<seq<seq<T>>>, m: nat)
    requires ps == []
    ensures CountUpTo(ps, m) == 0
  {
    if m > 0 {
      CountUpToEmpty(ps, m - 1);
    }
  }

  lemma {:induction false} FlattenLength<T>(p: seq<seq<T>>)
    requires forall i | 0 <= i < |p| :: p[i] != []
    ensures |p| <= |Flatten(p)|
  {
    if p != [] {
      FlattenLength(p[1..]);
    }
  }

  /** A partition of xs has at most |xs| blocks. */
  lemma BlocksAtMostLength<T>(p: seq<seq<T>>, xs: seq<T>)
    requires IsPartitionOf(p, xs)
    ensures |p| <= |xs|
  {
    FlattenLength(p);
    assert |multiset(Flatten(p))| == |multiset(xs)|;
  }

  lemma {:induction false} CountUpToStirling<T>(xs: seq<T>, m: nat)
    requires |xs| >= 1
    ensures CountUpTo(Partitions(xs), m) == StirlingSum(|xs|, m)
  {
    PartitionsWithKBlocks(xs, m);
    if m > 0 {
      CountUpToStirling(xs, m - 1);
    }
  }

  /** partitions.py yields Bell(n) partitions of an n-element list. */
  lemma PartitionsCount<T>(xs: seq<T>)
    requires |xs| >= 1
    ensures |Partitions(xs)| == Bell(|xs|)
  {
    var ps := Partitions(xs);
    forall p | p in ps ensures |p| <= |xs| {
      BlocksAtMostLength(p, xs);
    }
    CountUpToAll(ps, |xs|);
    CountUpToStirling(xs, |xs|);
  }

  lemma BellValues()
    ensures Bell(1) == 1 && Bell(2) == 2 && Bell(3) == 5 && Bell(4) == 15
  {
    StirlingRowFour();
    assert StirlingSum(1, 1) == 1;
    assert StirlingSum(2, 2) == 2;
    assert StirlingSum(3, 3) == 5;
    assert StirlingSum(4, 4) == 1 + 6 + 7 + 1 + 0;
  }

  lemma StirlingRowTwo()
    ensures Stirling(1, 0) == 0 && Stirling(1, 1) == 1 && Stirling(1, 2) == 0
    ensures Stirling(2, 0) == 0 && Stirling(2, 1) == 1 && Stirling(2, 2) == 1 && Stirling(2, 3) == 0
  {
  }

  lemma StirlingRowThree()
    ensures Stirling(1, 0) == 0 && Stirling(1, 1) == 1
    ensures Stirling(2, 0) == 0 && Stirling(2, 1) == 1 && Stirling(2, 2) == 1
    ensures Stirling(3, 0) == 0 && Stirling(3, 1) == 1 && Stirling(3, 2) == 3 && Stirling(3, 3) == 1
  {
    StirlingRowTwo();
    assert Stirling(3, 3) == 3 * Stirling(2, 3) + Stirling(2, 2);
  }

  lemma StirlingRowFour()
    ensures Stirling(1, 0) == 0 && Stirling(1, 1) == 1
    ensures Stirling(2, 0) == 0 && Stirling(2, 1) == 1 && Stirling(2, 2) == 1
    ensures Stirling(3, 0) == 0 && Stirling(3, 1) == 1 && Stirling(3, 2) == 3 && Stirling(3, 3) == 1
    ensures Stirling(4, 0) == 0 && Stirling(4, 1) == 1 && Stirling(4, 2) == 7 && Stirling(4, 3) == 6
    ensures Stirling(4, 4) == 1
  {
    StirlingRowThree();
    assert Stirling(3, 4) == 0 by {
      StirlingRowTwo();
    }
  }

  lemma PartitionsOfTwo<T>(b: T, c: T)
    ensures Partitions([b, c]) == [[[b, c]], [[b], [c]]]
  {
    assert [b, c][1..] == [c];
    var smaller: seq<seq<seq<T>>> := [[[c]]];
    assert Partitions([c]) == smaller;
    assert [[c]][..0] == [] && [[c]][1..] == [];
    assert [b] + [c] == [b, c];
    assert InsertAt(b, [[c]], 0) == [[b, c]];
    assert Inserts(b, [[c]]) == [[[b, c]]];
    assert [[b]] + [[c]] == [[b], [c]];
    assert Extensions(b, [[c]]) == [[[b, c]], [[b], [c]]];
    assert smaller[1..] == [];
    assert Expand(b, smaller) == Extensions(b, [[c]]) + Expand(b, smaller[1..]);
  }

  lemma InsertsIntoTwo<T>(a: T, b: T, c: T)
    ensures Inserts(a, [[b, c]]) == [[[a, b, c]]]
    ensures Inserts(a, [[b], [c]]) == [[[a, b], [c]], [[b], [a, c]]]
  {
    assert [[b, c]][..0] == [] && [[b, c]][1..] == [];
    assert [a] + [b, c] == [a, b, c];
    assert InsertAt(a, [[b, c]], 0) == [[a, b, c]];
    assert [[b], [c]][..0] == [] && [[b], [c]][1..] == [[c]];
    assert [[b], [c]][..1] == [[b]] && [[b], [c]][2..] == [];
    assert [a] + [b] == [a, b] && [a] + [c] == [a, c];
    assert InsertAt(a, [[b], [c]], 0) == [[a, b], [c]];
    assert [[b]] + [[a, c]] == [[b], [a, c]];
    assert InsertAt(a, [[b], [c]], 1) == [[b], [a, c]];
  }

  /** The five partitions of a three-element list, in the order of the doctest of partitions.py. */
  lemma PartitionsOfThree<T>(a: T, b: T, c: T)
    ensures Partitions([a, b, c])
         == [[[a, b, c]], [[a], [b, c]], [[a, b], [c]], [[b], [a, c]], [[a], [b], [c]]]
  {
    assert [a, b, c][1..] == [b, c];
    PartitionsOfTwo(b, c);
    InsertsIntoTwo(a, b, c);
    var smaller: seq<seq<seq<T>>> := [[[b, c]], [[b], [c]]];
    assert [[a]] + [[b, c]] == [[a], [b, c]];
    assert Extensions(a, [[b, c]]) == [[[a, b, c]], [[a], [b, c]]];
    assert [[a]] + [[b], [c]] == [[a], [b], [c]];
    assert Extensions(a, [[b], [c]]) == [[[a, b], [c]], [[b], [a, c]], [[a], [b], [c]]];
    assert smaller[1..] == [[[b], [c]]] && smaller[1..][1..] == [];
    assert Expand(a, smaller[1..]) == Extensions(a, [[b], [c]]);
  }

  // ---------------------------------------------------------------------------
  // Bounded part counts.

  /** The partitions of ps with at most c blocks, in order. */
  function KeepAtMost<T>(ps: seq<seq<seq<T>>>, c: int): seq<seq<seq<T>>>
  {
    if ps == [] then [] else (if |ps[0]| <= c then [ps[0]] else []) + KeepAtMost(ps[1..], c)
  }

  /** The partitions of ps with exactly c blocks, in order. */
  function KeepExactly<T>(ps: seq<seq<seq<T>>>, c: int): seq<seq<seq<T>>>
  {
    if ps == [] then [] else (if |ps[0]| == c then [ps[0]] else []) + KeepExactly(ps[1..], c)
  }

  /** The filter keeps only partitions of ps, and only those with exactly c blocks. */
  lemma {:induction false} KeepExactlyWithin<T>(ps: seq<seq<seq<T>>>, c: int)
    ensures forall p | p in KeepExactly(ps, c) :: p in ps && |p| == c
  {
    if ps != [] {
      KeepExactlyWithin(ps[1..], c);
    }
  }

  lemma {:induction false} KeepAtMostAppend<T>(a: seq<seq<seq<T>>>, b: seq<seq<seq<T>>>, c: int)
    ensures KeepAtMost(a + b, c) == KeepAtMost(a, c) + KeepAtMost(b, c)
  {
    if a == [] {
      assert a + b == b;
    } else {
      var head: seq<seq<seq<T>>> := if |a[0]| <= c then [a[0]] else [];
      assert (a + b)[0] == a[0];
      assert (a + b)[1..] == a[1..] + b;
      KeepAtMostAppend(a[1..], b, c);
      calc {
        KeepAtMost(a + b, c);
        head + KeepAtMost(a[1..] + b, c);
        head + (KeepAtMost(a[1..], c) + KeepAtMost(b, c));
        (head + KeepAtMost(a[1..], c)) + KeepAtMost(b, c);
      }
    }
  }

  lemma {:induction false} KeepExactlyAppend<T>(a: seq<seq<seq<T>>>, b: seq<seq<seq<T>>>, c: int)
    ensures KeepExactly(a + b, c) == KeepExactly(a, c) + KeepExactly(b, c)
  {
    if a == [] {
      assert a + b == b;
    } else {
      var head: seq<seq<seq<T>>> := if |a[0]| == c then [a[0]] else [];
      assert (a + b)[0] == a[0];
      assert (a + b)[1..] == a[1..] + b;
      KeepExactlyAppend(a[1..], b, c);
      calc {
        KeepExactly(a + b, c);
        head + KeepExactly(a[1..] + b, c);
        head + (KeepExactly(a[1..], c) + KeepExactly(b, c));
        (head + KeepExactly(a[1..], c)) + KeepExactly(b, c);
      }
    }
  }

  lemma {:induction false} KeepAtMostUniform<T>(qs: seq<seq<seq<T>>>, m: nat, c: int)
    requires forall i | 0 <= i < |qs| :: |qs[i]| == m
    ensures KeepAtMost(qs, c) == if m <= c then qs else []
  {
    if qs != [] {
      KeepAtMostUniform(qs[1..], m, c);
    }
  }

  lemma {:induction false} KeepExactlyUniform<T>(qs: seq<seq<seq<T>>>, m: nat, c: int)
    requires forall i | 0 <= i < |qs| :: |qs[i]| == m
    ensures KeepExactly(qs, c) == if m == c then qs else []
  {
    if qs != [] {
      KeepExactlyUniform(qs[1..], m, c);
    }
  }

  /** Expand, except that first goes into a block of its own only beside fewer than c blocks. */
  function ExpandAtMost<T>(first: T, smaller: seq<seq<seq<T>>>, c: int): seq<seq<seq<T>>>
  {
    if smaller == [] then []
    else
      Inserts(first, smaller[0]) + (if |smaller[0]| < c then [[[first]] + smaller[0]] else [])
      + ExpandAtMost(first, smaller[1..], c)
  }

  /**
   * partitions_to_at_most_c as written: the recursive step draws on the unrestricted
   * enumerator, so only the outermost new singleton block is pruned.
   */
  function PartitionsToAtMostC<T>(xs: seq<T>, c: int): (ps: seq<seq<seq<T>>>)
    requires |xs| >= 1
    ensures forall p | p in ps :: IsPartitionOf(p, xs)
  {
    if |xs| == 1 then
      assert Flatten([xs]) == xs;
      [[xs]]
    else
      ExpandAtMostWithin(xs[0], Partitions(xs[1..]), c);
      assert Partitions(xs) == Expand(xs[0], Partitions(xs[1..]));
      ExpandAtMost(xs[0], Partitions(xs[1..]), c)
  }

  /**
   * The at-most-c enumerator with the recursion into itself, as its documentation
   * promises; its base case yields nothing when c < 1, where the one as written
   * yields the single block for every c.
   */
  function PartitionsToAtMostCCorrected<T>(xs: seq<T>, c: int): (ps: seq<seq<seq<T>>>)
    requires |xs| >= 1
    ensures forall p | p in ps :: IsPartitionOf(p, xs) && |p| <= c
    decreases |xs|
  {
    if |xs| == 1 then
      assert Flatten([xs]) == xs;
      if 1 <= c then [[xs]] else []
    else
      var smaller := PartitionsToAtMostCCorrected(xs[1..], c);
      ExpandSound(xs[0], xs[1..], smaller);
      ExpandAtMostWithin(xs[0], smaller, c);
      ExpandAtMostBound(xs[0], smaller, c);
      assert [xs[0]] + xs[1..] == xs;
      ExpandAtMost(xs[0], smaller, c)
  }

  /** Over partitions of at most c blocks, the bounded expansion stays within c blocks. */
  lemma {:induction false} ExpandAtMostBound<T>(first: T, smaller: seq<seq<seq<T>>>, c: int)
    requires forall p | p in smaller :: |p| <= c
    ensures forall q | q in ExpandAtMost(first, smaller, c) :: |q| <= c
  {
    if smaller != [] {
      assert smaller[0] in smaller;
      ExpandAtMostBound(first, smaller[1..], c);
    }
  }

  /** partitions_to_exactly_c: the at-most-c output filtered to exactly c blocks. */
  function PartitionsToExactlyC<T>(xs: seq<T>, c: int): (ps: seq<seq<seq<T>>>)
    requires |xs| >= 1
    ensures forall p | p in ps :: IsPartitionOf(p, xs) && |p| == c
  {
    KeepExactlyWithin(PartitionsToAtMostC(xs, c), c);
    KeepExactly(PartitionsToAtMostC(xs, c), c)
  }

  lemma {:induction false} ExpandAtMostWithin<T>(first: T, smaller: seq<seq<seq<T>>>, c: int)
    ensures forall q | q in ExpandAtMost(first, smaller, c) :: q in Expand(first, smaller)
  {
    if smaller != [] {
      ExpandAtMostWithin(first, smaller[1..], c);
    }
  }

  lemma {:induction false} ExpandAtMostKeeps<T>(first: T, smaller: seq<seq<seq<T>>>, c: int)
    ensures forall q | q in Expand(first, smaller) && |q| <= c :: q in ExpandAtMost(first, smaller, c)
  {
    if smaller != [] {
      ExpandAtMostKeeps(first, smaller[1..], c);
    }
  }

  /**
   * What partitions_to_at_most_c yields, as written: only partitions of xs, among them
   * every partition of at most c blocks.
   */
  lemma PartitionsToAtMostCBounds<T>(xs: seq<T>, c: int)
    requires |xs| >= 1
    ensures forall p | p in PartitionsToAtMostC(xs, c) :: p in Partitions(xs)
    ensures forall p | p in Partitions(xs) && |p| <= c :: p in PartitionsToAtMostC(xs, c)
  {
    if |xs| > 1 {
      ExpandAtMostWithin(xs[0], Partitions(xs[1..]), c);
      ExpandAtMostKeeps(xs[0], Partitions(xs[1..]), c);
    }
  }

  /** The as-written enumerator lets through a partition with more than c blocks. */
  lemma PartitionsToAtMostCExceeds()
    ensures [[1, 2], [3]] in PartitionsToAtMostC([1, 2, 3], 1)
    ensures |[[1, 2], [3]]| > 1
  {
    assert [1, 2, 3][1..] == [2, 3];
    PartitionsOfTwo(2, 3);
    var smaller: seq<seq<seq<int>>> := [[[2, 3]], [[2], [3]]];
    InsertsIntoTwo(1, 2, 3);
    assert Inserts(1, [[2], [3]])[0] == [[1, 2], [3]];
    assert smaller[1..] == [[[2], [3]]];
    assert [[1, 2], [3]] in ExpandAtMost(1, smaller[1..], 1);
  }

  lemma ExpandAtMostCons<T>(first: T, p: seq<seq<T>>, rest: seq<seq<seq<T>>>, c: int)
    ensures ExpandAtMost(first, [p] + rest, c)
         == Inserts(first, p) + (if |p| < c then [[[first]] + p] else []) + ExpandAtMost(first, rest, c)
  {
    assert ([p] + rest)[0] == p && ([p] + rest)[1..] == rest;
  }

  lemma KeepAtMostExtensions<T>(first: T, p: seq<seq<T>>, c: int)
    ensures KeepAtMost(Extensions(first, p), c)
         == if |p| <= c then Inserts(first, p) + (if |p| < c then [[[first]] + p] else []) else []
  {
    KeepAtMostAppend(Inserts(first, p), [[[first]] + p], c);
    KeepAtMostUniform(Inserts(first, p), |p|, c);
  }

  lemma {:induction false} ExpandAtMostOfKept<T>(first: T, smaller: seq<seq<seq<T>>>, c: int)
    ensures ExpandAtMost(first, KeepAtMost(smaller, c), c) == KeepAtMost(Expand(first, smaller), c)
  {
    if smaller != [] {
      var p, rest := smaller[0], smaller[1..];
      ExpandAtMostOfKept(first, rest, c);
      KeepAtMostAppend(Extensions(first, p), Expand(first, rest), c);
      KeepAtMostExtensions(first, p, c);
      if |p| <= c {
        assert KeepAtMost(smaller, c) == [p] + KeepAtMost(rest, c);
        ExpandAtMostCons(first, p, KeepAtMost(rest, c), c);
      } else {
        assert KeepAtMost(smaller, c) == KeepAtMost(rest, c);
        assert Expand(first, smaller) == Extensions(first, p) + Expand(first, rest);
        assert KeepAtMost(Extensions(first, p), c) == [];
        assert KeepAtMost(Expand(first, smaller), c) == KeepAtMost(Expand(first, rest), c);
      }
    }
  }

  /** The corrected enumerator yields exactly the partitions of at most c blocks, in order. */
  lemma {:induction false} PartitionsToAtMostCCorrectedIsFilter<T>(xs: seq<T>, c: int)
    requires |xs| >= 1
    ensures PartitionsToAtMostCCorrected(xs, c) == KeepAtMost(Partitions(xs), c)
    decreases |xs|
  {
    if |xs| > 1 {
      PartitionsToAtMostCCorrectedIsFilter(xs[1..], c);
      ExpandAtMostOfKept(xs[0], Partitions(xs[1..]), c);
    }
  }

  lemma {:induction false} ExpandAtMostExactly<T>(first: T, smaller: seq<seq<seq<T>>>, c: int)
    ensures KeepExactly(ExpandAtMost(first, smaller, c), c) == KeepExactly(Expand(first, smaller), c)
  {
    if smaller != [] {
      var p := smaller[0];
      var single: seq<seq<seq<T>>> := [[[first]] + p];
      var optional: seq<seq<seq<T>>> := if |p| < c then single else [];
      ExpandAtMostExactly(first, smaller[1..], c);
      KeepExactlyAppend(Inserts(first, p) + optional, ExpandAtMost(first, smaller[1..], c), c);
      KeepExactlyAppend(Inserts(first, p), optional, c);
      KeepExactlyAppend(Extensions(first, p), Expand(first, smaller[1..]), c);
      KeepExactlyAppend(Inserts(first, p), single, c);
    }
  }

  /** partitions_to_exactly_c yields exactly the c-block partitions of xs, in order. */
  lemma PartitionsToExactlyCIsFilter<T>(xs: seq<T>, c: int)
    requires |xs| >= 1
    ensures PartitionsToExactlyC(xs, c) == KeepExactly(Partitions(xs), c)
  {
    if |xs| > 1 {
      ExpandAtMostExactly(xs[0], Partitions(xs[1..]), c);
    }
  }

  lemma {:induction false} KeepExactlyCount<T>(ps: seq<seq<seq<T>>>, k: nat)
    ensures |KeepExactly(ps, k)| == CountBlocks(ps, k)
  {
    if ps != [] {
      KeepExactlyCount(ps[1..], k);
    }
  }

  lemma {:induction false} KeepAtMostCount<T>(ps: seq<seq<seq<T>>>, m: nat)
    ensures |KeepAtMost(ps, m)| == CountUpTo(ps, m)
  {
    if ps == [] {
      CountUpToEmpty(ps, m);
    } else {
      KeepAtMostCount(ps[1..], m);
      CountUpToStep(ps, m);
    }
  }

  /** There are Stirling(n, c) partitions of an n-element list into exactly c blocks. */
  lemma PartitionsToExactlyCCount<T>(xs: seq<T>, c: nat)
    requires |xs| >= 1
    ensures |PartitionsToExactlyC(xs, c)| == Stirling(|xs|, c)
  {
    PartitionsToExactlyCIsFilter(xs, c);
    KeepExactlyCount(Partitions(xs), c);
    PartitionsWithKBlocks(xs, c);
  }

  /** The corrected at-most-c enumerator yields Stirling(n, 0) + ... + Stirling(n, c) partitions. */
  lemma PartitionsToAtMostCCorrectedCount<T>(xs: seq<T>, c: nat)
    requires |xs| >= 1
    ensures |PartitionsToAtMostCCorrected(xs, c)| == StirlingSum(|xs|, c)
  {
    PartitionsToAtMostCCorrectedIsFilter(xs, c);
    KeepAtMostCount(Partitions(xs), c);
    CountUpToStirling(xs, c);
  }

  /** The doctest of partitions_to_at_most_c. */
  lemma AtMostTwoOfThree()
    ensures PartitionsToAtMostC([1, 2, 3], 2)
         == [[[1, 2, 3]], [[1], [2, 3]], [[1, 2], [3]], [[2], [1, 3]]]
  {
    assert [1, 2, 3][1..] == [2, 3];
    PartitionsOfTwo(2, 3);
    InsertsIntoTwo(1, 2, 3);
    var rest: seq<seq<seq<int>>> := [[[2], [3]]];
    var empty: seq<seq<seq<int>>> := [];
    assert [[[2, 3]], [[2], [3]]] == [[[2, 3]]] + rest;
    ExpandAtMostCons(1, [[2, 3]], rest, 2);
    assert rest == [[[2], [3]]] + empty;
    ExpandAtMostCons(1, [[2], [3]], empty, 2);
    assert [[1]] + [[2, 3]] == [[1], [2, 3]];
  }

  /** The doctest of partitions_to_exactly_c. */
  lemma ExactlyTwoOfThree()
    ensures PartitionsToExactlyC([1, 2, 3], 2) == [[[1], [2, 3]], [[1, 2], [3]], [[2], [1, 3]]]
  {
    AtMostTwoOfThree();
    DropFirstOfFour([[1, 2, 3]], [[1], [2, 3]], [[1, 2], [3]], [[2], [1, 3]], 2);
  }

  /** Filtering four partitions where only the first has the wrong number of blocks. */
  lemma DropFirstOfFour<T>(p0: seq<seq<T>>, p1: seq<seq<T>>, p2: seq<seq<T>>, p3: seq<seq<T>>, c: int)
    requires |p0| != c && |p1| == c && |p2| == c && |p3| == c
    ensures KeepExactly([p0, p1, p2, p3], c) == [p1, p2, p3]
  {
    var empty: seq<seq<seq<T>>> := [];
    assert [p3][1..] == empty;
    assert KeepExactly([p3], c) == [p3];
    assert [p2, p3][1..] == [p3];
    assert KeepExactly([p2, p3], c) == [p2, p3];
    assert [p1, p2, p3][1..] == [p2, p3];
    assert KeepExactly([p1, p2, p3], c) == [p1, p2, p3];
    assert [p0, p1, p2, p3][1..] == [p1, p2, p3];
  }

  // ---------------------------------------------------------------------------
  // The powerset, as the combinations of every size.

  /** x put in front of every list of ts. */
  function Prepend<T>(x: T, ts: seq<seq<T>>): (r: seq<seq<T>>)
    ensures |r| == |ts| && forall i | 0 <= i < |r| :: r[i] == [x] + ts[i]
  {
    seq(|ts|, i requires 0 <= i < |ts| => [x] + ts[i])
  }

  /** The r-element combinations of s, in the order itertools.combinations yields them. */
  function Combinations<T>(s: seq<T>, r: nat): (cs: seq<seq<T>>)
  {
    if r == 0 then [[]]
    else if s == [] then []
    else Prepend(s[0], Combinations(s[1..], r - 1)) + Combinations(s[1..], r)
  }

  /** t is s with some elements left out, the rest in their order. */
  predicate IsSubsequence<T(==)>(t: seq<T>, s: seq<T>)
  {
    if t == [] then true
    else if s == [] then false
    else (t[0] == s[0] && IsSubsequence(t[1..], s[1..])) || IsSubsequence(t, s[1..])
  }

  lemma {:induction false} SubsequenceLength<T>(t: seq<T>, s: seq<T>)
    requires IsSubsequence(t, s)
    ensures |t| <= |s|
  {
    if t != [] {
      if t[0] == s[0] && IsSubsequence(t[1..], s[1..]) {
        SubsequenceLength(t[1..], s[1..]);
      } else {
        SubsequenceLength(t, s[1..]);
      }
    }
  }

  lemma PrependMember<T>(x: T, ts: seq<seq<T>>, t: seq<T>)
    ensures t in Prepend(x, ts) <==> t != [] && t[0] == x && t[1..] in ts
  {
    if t != [] && t[0] == x && t[1..] in ts {
      var i :| 0 <= i < |ts| && ts[i] == t[1..];
      assert Prepend(x, ts)[i] == t;
    }
  }

  /** The r-combinations of s are exactly its subsequences of length r. */
  lemma CombinationsAreSubsequences<T>(s: seq<T>, r: nat)
    ensures forall t :: t in Combinations(s, r) <==> |t| == r && IsSubsequence(t, s)
  {
    forall t ensures t in Combinations(s, r) <==> |t| == r && IsSubsequence(t, s) {
      if t in Combinations(s, r) {
        CombinationIsSubsequence(s, r, t);
      }
      if |t| == r && IsSubsequence(t, s) {
        SubsequenceIsCombination(s, r, t);
      }
    }
  }

  lemma {:induction false} CombinationIsSubsequence<T>(s: seq<T>, r: nat, t: seq<T>)
    requires t in Combinations(s, r)
    ensures |t| == r && IsSubsequence(t, s)
    decreases |s|
  {
    if r > 0 {
      var shorter, same := Combinations(s[1..], r - 1), Combinations(s[1..], r);
      assert Combinations(s, r) == Prepend(s[0], shorter) + same;
      if t in same {
        CombinationIsSubsequence(s[1..], r, t);
      } else {
        PrependMember(s[0], shorter, t);
        CombinationIsSubsequence(s[1..], r - 1, t[1..]);
      }
    }
  }

  lemma {:induction false} SubsequenceIsCombination<T>(s: seq<T>, r: nat, t: seq<T>)
    requires |t| == r && IsSubsequence(t, s)
    ensures t in Combinations(s, r)
    decreases |s|
  {
    if r == 0 {
      assert Combinations(s, r) == [t];
    } else {
      var shorter, same := Combinations(s[1..], r - 1), Combinations(s[1..], r);
      assert Combinations(s, r) == Prepend(s[0], shorter) + same;
      if IsSubsequence(t, s[1..]) {
        SubsequenceIsCombination(s[1..], r, t);
      } else {
        SubsequenceIsCombination(s[1..], r - 1, t[1..]);
        PrependMember(s[0], shorter, t);
      }
    }
  }

  /** The binomial coefficient, by Pascal's rule. */
  function Binomial(n: nat, r: nat): nat
  {
    if r == 0 then 1 else if n == 0 then 0 else Binomial(n - 1, r - 1) + Binomial(n - 1, r)
  }

  lemma {:induction false} CombinationsCount<T>(s: seq<T>, r: nat)
    ensures |Combinations(s, r)| == Binomial(|s|, r)
  {
    if r > 0 && s != [] {
      var rest := s[1..];
      CombinationsCount(rest, r - 1);
      CombinationsCount(rest, r);
      var shorter, same := Combinations(rest, r - 1), Combinations(rest, r);
      assert |Combinations(s, r)| == |shorter| + |same| by {
        assert Combinations(s, r) == Prepend(s[0], shorter) + same;
      }
      CountStep(|Combinations(s, r)|, |shorter|, |same|, |s|, r);
    }
  }

  lemma CountStep(total: nat, shorter: nat, same: nat, n: nat, r: nat)
    requires n > 0 && r > 0 && total == shorter + same
    requires shorter == Binomial(n - 1, r - 1) && same == Binomial(n - 1, r)
    ensures total == Binomial(n, r)
  {
  }

  /** The combinations of sizes 0, 1, ..., m in turn. */
  function CombinationsUpTo<T>(s: seq<T>, m: nat): seq<seq<T>>
  {
    (if m == 0 then [] else CombinationsUpTo(s, m - 1)) + Combinations(s, m)
  }

  /** powerset: every subset of s as a list in the order of s, by size and then combination order. */
  function Powerset<T>(s: seq<T>): (ps: seq<seq<T>>)
    ensures ps != [] && ps[0] == []
  {
    CombinationsUpToStartsEmpty(s, |s|);
    CombinationsUpTo(s, |s|)
  }

  lemma {:induction false} CombinationsUpToMembers<T>(s: seq<T>, m: nat)
    ensures forall t :: t in CombinationsUpTo(s, m) <==> |t| <= m && IsSubsequence(t, s)
  {
    CombinationsAreSubsequences(s, m);
    if m > 0 {
      CombinationsUpToMembers(s, m - 1);
      forall t ensures t in CombinationsUpTo(s, m) <==> |t| <= m && IsSubsequence(t, s) {
        CombinationsUpToMember(s, m, t);
      }
    } else {
      assert CombinationsUpTo(s, m) == [] + Combinations(s, m);
    }
  }

  /** One list at one size: it is among the sizes up to m when it is below m or of size m. */
  lemma CombinationsUpToMember<T>(s: seq<T>, m: nat, t: seq<T>)
    requires m > 0
    requires t in CombinationsUpTo(s, m - 1) <==> |t| <= m - 1 && IsSubsequence(t, s)
    requires t in Combinations(s, m) <==> |t| == m && IsSubsequence(t, s)
    ensures t in CombinationsUpTo(s, m) <==> |t| <= m && IsSubsequence(t, s)
  {
    var lower := CombinationsUpTo(s, m - 1);
    assert CombinationsUpTo(s, m) == lower + Combinations(s, m);
    assert t in lower + Combinations(s, m) <==> t in lower || t in Combinations(s, m);
  }

  /** The combinations of every size up to m start with the empty list. */
  lemma {:induction false} CombinationsUpToStartsEmpty<T>(s: seq<T>, m: nat)
    ensures CombinationsUpTo(s, m) != [] && CombinationsUpTo(s, m)[0] == []
  {
    if m > 0 {
      CombinationsUpToStartsEmpty(s, m - 1);
    }
  }

  /** The powerset holds exactly the subsequences of s. */
  lemma PowersetMembers<T>(s: seq<T>)
    ensures forall t :: t in Powerset(s) <==> IsSubsequence(t, s)
  {
    CombinationsUpToMembers(s, |s|);
    forall t | IsSubsequence(t, s) ensures |t| <= |s| {
      SubsequenceLength(t, s);
    }
  }

  /** Binomial(n, 0) + ... + Binomial(n, m). */
  function BinomialSum(n: nat, m: nat): nat
  {
    Binomial(n, m) + (if m == 0 then 0 else BinomialSum(n, m - 1))
  }

  lemma {:induction false} BinomialSumStep(n: nat, m: nat)
    ensures BinomialSum(n + 1, m) == BinomialSum(n, m) + (if m == 0 then 0 else BinomialSum(n, m - 1))
  {
    if m > 0 {
      BinomialSumStep(n, m - 1);
    }
  }

  lemma {:induction false} BinomialAbove(n: nat, r: nat)
    requires r > n
    ensures Binomial(n, r) == 0
  {
    if n > 0 {
      BinomialAbove(n - 1, r - 1);
      BinomialAbove(n - 1, r);
    }
  }

  lemma {:induction false} BinomialSumTotal(n: nat)
    ensures BinomialSum(n, n) == Pow2(n)
  {
    if n > 0 {
      BinomialSumTotal(n - 1);
      BinomialSumStep(n - 1, n);
      BinomialAbove(n - 1, n);
    }
  }

  lemma {:induction false} CombinationsUpToCount<T>(s: seq<T>, m: nat)
    ensures |CombinationsUpTo(s, m)| == BinomialSum(|s|, m)
  {
    CombinationsCount(s, m);
    if m > 0 {
      CombinationsUpToCount(s, m - 1);
    }
  }

  /** The powerset of an n-element list has 2^n members. */
  lemma PowersetCount<T>(s: seq<T>)
    ensures |Powerset(s)| == Pow2(|s|)
  {
    CombinationsUpToCount(s, |s|);
    BinomialSumTotal(|s|);
  }

  lemma PrependSmall<T>(x: T, a: seq<T>, b: seq<T>)
    ensures Prepend(x, []) == []
    ensures Prepend(x, [a]) == [[x] + a]
    ensures Prepend(x, [a, b]) == [[x] + a, [x] + b]
  {
  }

  lemma CombinationsOfOne<T>(c: T)
    ensures Combinations([c], 1) == [[c]]
    ensures forall r: nat | r >= 2 :: Combinations([c], r) == []
  {
    var e: seq<T> := [];
    assert [c][1..] == e;
    PrependSmall(c, e, e);
    assert [c] + e == [c];
  }

  lemma CombinationsOfTwo<T>(b: T, c: T)
    ensures Combinations([b, c], 1) == [[b], [c]]
    ensures Combinations([b, c], 2) == [[b, c]]
    ensures Combinations([b, c], 3) == []
  {
    assert [b, c][1..] == [c];
    CombinationsOfOne(c);
    assert Combinations([c], 2) == [] && Combinations([c], 3) == [];
    SinglesOfTwo(b, c);
    PairOfTwo(b, c);
    var e: seq<T> := [];
    PrependSmall(b, e, e);
  }

  lemma SinglesOfTwo<T>(b: T, c: T)
    requires Combinations([c], 1) == [[c]]
    ensures Combinations([b, c], 1) == [[b], [c]]
  {
    var e: seq<T> := [];
    assert [b, c][1..] == [c];
    assert Combinations([c], 0) == [e];
    PrependSmall(b, e, e);
    assert [b] + e == [b];
    assert Combinations([b, c], 1) == [[b]] + [[c]];
  }

  lemma PairOfTwo<T>(b: T, c: T)
    requires Combinations([c], 1) == [[c]] && Combinations([c], 2) == []
    ensures Combinations([b, c], 2) == [[b, c]]
  {
    var e: seq<T> := [];
    assert [b, c][1..] == [c];
    PrependSmall(b, [c], e);
    assert [b] + [c] == [b, c];
    assert Combinations([b, c], 2) == [[b, c]] + [];
  }

  lemma CombinationsOfThree()
    ensures Combinations([1, 2, 3], 0) == [[]]
    ensures Combinations([1, 2, 3], 1) == [[1], [2], [3]]
    ensures Combinations([1, 2, 3], 2) == [[1, 2], [1, 3], [2, 3]]
    ensures Combinations([1, 2, 3], 3) == [[1, 2, 3]]
  {
    var s := [1, 2, 3];
    var e: seq<int> := [];
    assert s[1..] == [2, 3];
    CombinationsOfTwo(2, 3);
    assert Combinations([2, 3], 0) == [e];
    PrependSmall(1, e, e);
    PrependSmall(1, [2], [3]);
    PrependSmall(1, [2, 3], e);
    assert [1] + e == [1] && [1] + [2] == [1, 2] && [1] + [3] == [1, 3] && [1] + [2, 3] == [1, 2, 3];
    assert Combinations(s, 1) == [[1]] + [[2], [3]];
    assert Combinations(s, 2) == [[1, 2], [1, 3]] + [[2, 3]];
    assert Combinations(s, 3) == [[1, 2, 3]] + [];
  }

  /** The doctest of powerset. */
  lemma PowersetOfThree()
    ensures Powerset([1, 2, 3]) == [[], [1], [2], [3], [1, 2], [1, 3], [2, 3], [1, 2, 3]]
  {
    var s := [1, 2, 3];
    CombinationsOfThree();
    assert CombinationsUpTo(s, 0) == [] + [[]];
    assert CombinationsUpTo(s, 1) == [[]] + [[1], [2], [3]];
    assert CombinationsUpTo(s, 2) == [[], [1], [2], [3]] + [[1, 2], [1, 3], [2, 3]];
    assert CombinationsUpTo(s, 3) == [[], [1], [2], [3], [1, 2], [1, 3], [2, 3]] + [[1, 2, 3]];
  }
}
