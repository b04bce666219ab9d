/**
 * The balance/weight recurrence of the round-robin-with-weighted-approval-voting
 * protocols (monotone_families.py and rwav_protocol.py). A member who still
 * sees r of its desired goods among the remaining goods, and who is still owed
 * s goods to reach its target, has balance B(r, s) and voting weight
 * w(r, s) = B(r, s) - B(r - 1, s). For two families every balance is a dyadic
 * rational, so the model computes it exactly with `real`.
 */
module VotingWeights {
  import opened Outcomes
  import opened Powers

  /** B(r, s) for two families: 1 once nothing is owed, 0 once too little is left, else the min-recurrence. */
  function Balance(r: int, s: int): (b: real)
    ensures 0.0 <= b <= 1.0
    decreases if r < 0 then 0 else r + 1
  {
    if s <= 0 then 1.0
    else if s > r then 0.0
    else
      var half := (Balance(r - 1, s) + Balance(r - 1, s - 1)) / 2.0;
      var skip := Balance(r - 2, s - 1);
      if half <= skip then half else skip
  }

  /** w(r, s): how much the balance drops when one desired good fewer remains. */
  function Weight(r: int, s: int): (w: real)
    ensures 0.0 <= w <= 1.0
    ensures s <= 0 || s > r ==> w == 0.0
  {
    BalanceGrowsWithRemaining(r, s);
    Balance(r, s) - Balance(r - 1, s)
  }

  /** More remaining desired goods never lower the balance, so a weight is never negative. */
  lemma {:induction false} BalanceGrowsWithRemaining(r: int, s: int)
    ensures Balance(r - 1, s) <= Balance(r, s)
    decreases if r < 0 then 0 else r + 1
  {
    if 0 < s < r {
      BalanceGrowsWithRemaining(r - 1, s);
      BalanceGrowsWithRemaining(r - 1, s - 1);
      BalanceGrowsWithRemaining(r - 2, s - 1);
      GrowsStep(r, s);
    }
  }

  /** One step of the induction: the recurrence carries the three smaller comparisons to B(r - 1, s) <= B(r, s). */
  lemma GrowsStep(r: int, s: int)
    requires 0 < s < r
    ensures && Balance(r - 2, s) <= Balance(r - 1, s)
            && Balance(r - 2, s - 1) <= Balance(r - 1, s - 1)
            && Balance(r - 3, s - 1) <= Balance(r - 2, s - 1)
            ==> Balance(r - 1, s) <= Balance(r, s)
  {
  }

  /** Owing one good more never raises the balance. */
  lemma {:induction false} BalanceShrinksWithOwed(r: int, s: int)
    ensures Balance(r, s) <= Balance(r, s - 1)
    decreases if r < 0 then 0 else r + 1
  {
    if 1 < s <= r {
      BalanceShrinksWithOwed(r - 1, s);
      BalanceShrinksWithOwed(r - 1, s - 1);
      BalanceShrinksWithOwed(r - 2, s - 1);
      ShrinksStep(r, s);
    }
  }

  /** One step of the induction: the recurrence carries the three smaller comparisons to B(r, s) <= B(r, s - 1). */
  lemma ShrinksStep(r: int, s: int)
    requires 1 < s <= r
    ensures && Balance(r - 1, s) <= Balance(r - 1, s - 1)
            && Balance(r - 1, s - 1) <= Balance(r - 1, s - 2)
            && Balance(r - 2, s - 1) <= Balance(r - 2, s - 2)
            ==> Balance(r, s) <= Balance(r, s - 1)
  {
  }

  /** A voting weight lies in [0, 1], and is 0 once nothing is owed or once too little is left. */
  lemma WeightBounds(r: int, s: int)
    ensures 0.0 <= Weight(r, s) <= 1.0
    ensures s <= 0 || s > r ==> Weight(r, s) == 0.0
  {
    BalanceGrowsWithRemaining(r, s);
  }

  /** A member owed a single good has balance 1 - 2^-r: the k = 2 instance of the closed form used for k > 2. */
  lemma {:induction false} BalanceOwedOne(r: nat)
    ensures Balance(r, 1) == 1.0 - 1.0 / (Pow2(r) as real)
  {
    if r > 0 {
      BalanceOwedOne(r - 1);
      var p := Pow2(r - 1) as real;
      assert Pow2(r) as real == 2.0 * p;
      calc {
        (Balance(r - 1, 1) + Balance(r - 1, 0)) / 2.0;
        ((1.0 - 1.0 / p) + 1.0) / 2.0;
        1.0 - 1.0 / (2.0 * p);
      }
      if r >= 2 {
        assert Balance(r - 2, 0) == 1.0;
      }
    }
  }

  /** The doctests of balance (k = 2). */
  lemma BalanceExamples()
    ensures Balance(0, 0) == 1.0 && Balance(1, 1) == 0.5 && Balance(1, 0) == 1.0
    ensures Balance(0, 1) == 0.0 && Balance(3, 2) == 0.375
    ensures Balance(0, -2) == 1.0 && Balance(-1, 1) == 0.0
  {
    assert Balance(2, 1) == 0.75;
    assert Balance(2, 2) == 0.0;
  }

  /** The doctests of weight (k = 2). */
  lemma WeightExamples()
    ensures Weight(4, 0) == 0.0 && Weight(0, 2) == 0.0 && Weight(1, 1) == 0.5
    ensures Weight(4, 2) == 0.25 && Weight(4, 3) == 0.0 && Weight(4, -2) == 0.0
  {
    assert Balance(1, 1) == 0.5;
    assert Balance(2, 1) == 0.75;
    assert Balance(3, 1) == 0.875;
    assert Balance(2, 2) == 0.0;
    assert Balance(3, 2) == 0.375;
    assert Balance(4, 2) == 0.625;
    assert Balance(3, 3) == 0.0;
    assert Balance(4, 3) == 0.0;
  }

  // ---------------------------------------------------------------------------
  // The k-family version of rwav_protocol.py.

  /**
   * The closed form used for k > 2 families and one owed good, 1 - L_k^-r with
   * L_k = 2^(1/(k-1)), is floating point with an irrational base; the model takes
   * its value for (r, k) as the parameter `curve`.
   */
  type Curve = (int, int) -> real

  /** B_k(r, s): the base cases come before the branch on k. */
  function BalanceK(r: int, s: int, k: int, curve: Curve): (b: Result<real>)
    ensures s <= 0 ==> b == Ok(1.0)
    ensures 0 < s && s > r ==> b == Ok(0.0)
    ensures b.Err? <==> 0 < s <= r && ((k > 2 && s > 1) || k < 2)
  {
    if s <= 0 then Ok(1.0)
    else if s > r then Ok(0.0)
    else if k == 2 then Ok(Balance(r, s))
    else if k > 2 then
      if s > 1 then Err(UnsupportedOperation) else Ok(curve(r, k))
    else Err(IllegalWeightArguments)
  }

  /** w_k(r, s) = B_k(r, s) - B_k(r - 1, s); the first balance to fail decides the error. */
  function WeightK(r: int, s: int, k: int, curve: Curve): (w: Result<real>)
    ensures k == 2 ==> w == Ok(Weight(r, s))
  {
    match BalanceK(r, s, k, curve)
    case Err(e) => Err(e)
    case Ok(b) =>
      match BalanceK(r - 1, s, k, curve)
      case Err(e) => Err(e)
      case Ok(b') => Ok(b - b')
  }

  /** With two families the k-version is the exact recurrence, whatever the curve. */
  lemma BalanceKTwo(r: int, s: int, curve: Curve)
    ensures BalanceK(r, s, 2, curve) == Ok(Balance(r, s))
    ensures WeightK(r, s, 2, curve) == Ok(Weight(r, s))
  {
  }

  /** A k-weight fails exactly when its own balance fails; when nothing is owed it is 0 for every k. */
  lemma WeightKOutcome(r: int, s: int, k: int, curve: Curve)
    ensures WeightK(r, s, k, curve).Err? <==> 0 < s <= r && ((k > 2 && s > 1) || k < 2)
    ensures s <= 0 ==> WeightK(r, s, k, curve) == Ok(0.0)
    ensures k > 2 && s == 1 && r >= 1 ==>
      WeightK(r, s, k, curve) == Ok(curve(r, k) - if r >= 2 then curve(r - 1, k) else 0.0)
  {
  }

  /** The k = 3 doctests of balance and weight. */
  lemma ThreeFamilyExamples(curve: Curve)
    ensures BalanceK(5, 0, 3, curve) == Ok(1.0) && BalanceK(0, 1, 3, curve) == Ok(0.0)
    ensures WeightK(5, 0, 3, curve) == Ok(0.0) && WeightK(0, 1, 3, curve) == Ok(0.0)
  {
  }
}
