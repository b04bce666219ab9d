# Fair division among families: a Dafny model

This project models the core of a Python library for dividing indivisible goods
fairly among *families*: groups of agents who share one bundle of goods. In the
library, each agent values bundles in one of three ways:

- a **monotone** agent uses an explicit table from bundles to values;
- an **additive** agent uses a weight per good;
- a **binary** agent counts how many of its desired goods a bundle holds.

An `Agent` also carries its total value and how many agents it stands for (its
*cardinality*).

The model covers four parts of the library.

- **Valuations and fairness tests** (`agents.py`):
  - the value of a bundle;
  - the value of a bundle without its best or worst `c` goods;
  - the 1-out-of-`c` maximin share;
  - the envy tests EF, EFc, EF1 and EFx, which loop over every listed bundle and stop at the first envied one;
  - the proportionality tests PROP and PROPc.
- **The voting weights** (`monotone_families.py`, `rwav_protocol.py`). A member with `r` desired goods still available, who still lacks `s` goods to reach its target, has balance `B(r, s)`. Its voting weight is `w(r, s) = B(r, s) - B(r - 1, s)`. For two families the balance is the min-recurrence; for more families only the closed form for `s = 1` exists.
- **The allocation protocols**:
  - round robin with weighted approval voting (RWAV). In each turn a family takes the remaining good with the most votes; ties go to the least good;
  - the two-family line protocol;
  - Enhanced RWAV, which gives one good to a family when enough of its agents want that good;
  - the two-thirds local search, which moves goods between the two bundles while a move helps more agents than it harms.
- **The enumerators** of `partitions.py`: set partitions, partitions into at most or exactly `c` blocks, and the powerset.

The modules, one per file, are:

| Module | File | What it holds |
|---|---|---|
| `Powers` | `powers.dfy` | powers of two, for the voting weights and the enumeration counts |
| `Outcomes` | `outcomes.dfy` | `Result` values and the error kinds (see below) |
| `Goods` | `goods.dfy` | goods as characters, bundles as sets, the ascending iteration order |
| `Valuations` | `valuations.dfy` | the three agent variants and their values |
| `ExceptGoods` | `except_goods.dfy` | the value of a bundle without its best or worst `c` goods |
| `Fairness` | `fairness.dfy` | the envy and proportionality tests |
| `Maximin` | `maximin.dfy` | the 1-out-of-`c` maximin share |
| `VotingWeights` | `voting_weights.dfy` | `B(r, s)`, `w(r, s)` and their `k`-family versions |
| `Rwav` | `rwav.dfy` | `member_weight`, `choose_good` and the round robin |
| `MonotoneFamilies` | `monotone_families.dfy` | the line protocol, Enhanced RWAV and the two-thirds protocol |
| `Partitions` | `partitions.dfy` | the enumerators |

Where the library raises an exception, the model returns `Err`. The error kinds are:

| Error | Where the library raises it |
|---|---|
| `UndefinedValuation` | a monotone table lacks the bundle |
| `UnknownGood` | an additive agent meets a good it has no weight for |
| `NegativeCount` | `itertools.combinations` gets a negative count |
| `EmptyMax` | `max` of an empty list |
| `DivisionByZero` | the binary maximin share divides by `c = 0` |
| `UnsupportedOperation` | a variant lacks the requested operation, or `balance` is asked for more than two families with `s > 1` |
| `IllegalWeightArguments` | `balance` gets fewer than two families in its recursive case |
| `NotTwoFamilies` | a two-family protocol is given a different number of families |
| `NoFamilies` | the round robin has goods but no family to give a turn |

Loops that update variables in the library are Dafny methods with loop invariants:

- the envy loops;
- the maximin scores;
- the voting in `choose_good`;
- the round robin;
- the Enhanced RWAV scan;
- the two-thirds sweeps.

Each such method is proved equal to a recursive specification function. The properties are then proved about that function.

Where the library iterates over a set, the model iterates in ascending order of goods.

## Model

| member | source | states |
|---|---|---|
| Valuations.NewMonotoneAgent | agents.py:208-219 | The constructor fails exactly on an empty table. Otherwise the agent's table is the given one plus the empty bundle, which is set to 0. The total value is the largest value of the given table. |
| Valuations.NewAdditiveAgent | agents.py:272-283 | The total value of an additive agent is the sum of all its weights. |
| Valuations.NewBinaryAgent | agents.py:375-382 | The total value of a binary agent is the number of its desired goods. |
| Valuations.BinaryValue | agents.py:384-403 | A binary value never exceeds the bundle's size or the number of desired goods. |
| Valuations.Value | agents.py:221-229 | A value can fail only with the variant's own error: a bundle missing from a monotone table, or an unknown good for an additive agent. |
| Valuations.MonotoneValue | agents.py:221-229 | A monotone agent values the empty bundle at 0, and answers a non-empty bundle exactly when it is in the given table, with the table's value. |
| Valuations.AdditiveValue | agents.py:285-289 | An additive value of a disjoint union is defined exactly when both parts are, and is then the sum of the two values. |
| Valuations.SumUnion | agents.py:289 | A sum of weights over a disjoint union is the sum of the two sums. |
| Valuations.BinaryValueBounds | agents.py:384-403 | A binary value is always defined and lies between 0 and both the bundle's size and the total value; the empty bundle is worth 0. |
| Valuations.BinaryValueCounts | agents.py:402-403 | A binary value is the bundle's size minus its undesired goods. |
| Valuations.DesiredGoods | agents.py:283 | Only the monotone variant has no desired goods. An additive agent desires exactly its goods of positive weight; a binary agent desires its given set. |
| Valuations.MaxOf | agents.py:214 | The total value of a monotone agent is attained by a table entry and bounds every entry. |
| Valuations.MonotoneExamples | agents.py:187-197 | The MonotoneAgent doctests: `{}` is worth 0, `{x}` 1 and `{x, y}` 4. |
| Valuations.AdditiveExamples | agents.py:241-253 | The AdditiveAgent value doctests: 0, 0, 1, 3 and 7. |
| Valuations.BinaryExamples | agents.py:388-399 | The BinaryAgent value doctests, including an agent with no desired goods. |
| Goods.AscendingSorted | monotone_families.py:153 | The iteration of a set of goods lists each good exactly once, nothing else, in strictly increasing order. |
| ExceptGoods.ExceptC | agents.py:52-56 | A bundle of at most `c` goods is worth 0. Otherwise the result fails exactly when `c < 0` or some `c`-good removal has an undefined value. On success it is the value of one such removal, and the minimum (best) or maximum (worst) of all of them. |
| ExceptGoods.ExceptCFromExtreme | agents.py:70-74 | Any value that is the min (best) or max (worst) over all `c`-good removals is the generic result. |
| ExceptGoods.ValueExceptBestC | agents.py:52 | For every variant, a bundle of at most `c` goods is worth 0 without its best `c` goods. |
| ExceptGoods.ValueExceptWorstC | agents.py:70 | For every variant, a bundle of at most `c` goods is worth 0 without its worst `c` goods. |
| ExceptGoods.First | agents.py:314 | The good that the stable sort puts first precedes every other good of the bundle in the sort order. |
| ExceptGoods.Ranked | agents.py:314 | The sorted bundle lists every good of the bundle exactly once. |
| ExceptGoods.RankedSorted | agents.py:314 | The sorted bundle is ordered by weight (descending for best, ascending for worst), ties in iteration order. |
| ExceptGoods.SliceStart | agents.py:315 | The start of the slice `[c:]` lies within the list, for negative `c` too. |
| ExceptGoods.RankedPrefix | agents.py:314-315 | The first `c` sorted goods are `c` goods of the bundle, and each precedes every good left in the slice. |
| ExceptGoods.SwapDominates | agents.py:314-315 | Exchanging goods that come first in the sort order for later ones never gains weight (best) or never loses it (worst). |
| ExceptGoods.TopRemovalOptimal | agents.py:313-315 | Removing the first `c` sorted goods leaves the least (best) or the most (worst) weight among all removals of `c` goods. |
| ExceptGoods.ExceptCFails | agents.py:53-56 | One undefined removal makes the generic value fail with the variant's error. |
| ExceptGoods.AdditiveUnknownGood | agents.py:289 | For an additive agent, a bundle with a good without weight fails the generic computation with an unknown-good error. |
| ExceptGoods.AdditiveKnownGoods | agents.py:52-56 | For an additive agent with every good weighted, the generic value is the weight of the bundle without its first `c` sorted goods. |
| ExceptGoods.AdditiveExceptC | agents.py:291-339 | AdditiveAgent's overrides give 0 for a bundle of at most `c` goods. Otherwise they fail exactly when a good has no weight, and then with an unknown-good error. With non-negative weights a result lies between 0 and the bundle's weight. |
| ExceptGoods.BinaryExceptC | agents.py:407-413 | For `c >= 0`, BinaryAgent's override `value - c` is at most the binary value. It is negative exactly when the bundle has more than `c` goods and fewer than `c` desired ones. |
| ExceptGoods.AdditiveExceptCIsGeneric | agents.py:291-339 | For every `c >= 0`, the additive sort-and-drop overrides equal the generic min / max over `c`-good removals, errors included. Which equally heavy good is dropped therefore does not matter. |
| ExceptGoods.AdditiveExceptAtMostValue | agents.py:313-315 | With non-negative weights, dropping goods never raises an additive value. |
| ExceptGoods.BinaryBestGeneric | agents.py:52-56 | For a binary agent, the generic value without the best `c` goods is `max(0, k - c)`, where `k` is the number of desired goods in the bundle. |
| ExceptGoods.BinaryWorstGeneric | agents.py:70-74 | For a binary agent, the generic value without the worst `c` goods is `min(k, n - c)`, where `n` is the bundle's size. |
| ExceptGoods.BinaryBestOverride | agents.py:407-409 | BinaryAgent's override `value - c` never exceeds the generic value. It equals it exactly when the bundle holds at least `c` desired goods, and is negative exactly otherwise. |
| ExceptGoods.BinaryWorstOverride | agents.py:411-413 | BinaryAgent's override `value - c` never exceeds the generic value without the worst `c` goods. It equals it exactly when `c = 0` or every good of the bundle is desired. |
| ExceptGoods.ExceptBestAtMostWorst | agents.py:34-74 | For every variant, a bundle without its best `c` goods is worth at most what it is worth without its worst `c`. |
| ExceptGoods.GenericBestAtMostWorst | agents.py:52-74 | For the generic definition, the min over removals is at most the max. |
| ExceptGoods.MonotoneExceptExamples | agents.py:42-68 | The doctests of value_except_best_c_goods and value_except_worst_c_goods on MonotoneAgent. |
| ExceptGoods.AdditiveBestOneOfThree | agents.py:299-301 | Doctest: `{x, y, z}` without its best good is worth 3. |
| ExceptGoods.AdditiveBestTwoOfThree | agents.py:302-303 | Doctest: `{x, y, z}` without its best two goods is worth 1. |
| ExceptGoods.AdditiveBestOfTwo | agents.py:304-311 | Doctests: `{x, y}` without its best good is worth 1; small bundles are worth 0. |
| ExceptGoods.AdditiveWorstOneOfThree | agents.py:325-327 | Doctest: `{x, y, z}` without its worst good is worth 6. |
| ExceptGoods.AdditiveWorstOfTwo | agents.py:328-335 | Doctests: `{x, y}` without its worst good is worth 2; small bundles are worth 0. |
| Fairness.NoEnvy | agents.py:142-146 | The envy loop returns what the scan specification gives: the first failure, false at the first bundle measured above the own value, else true. |
| Fairness.IsEF | agents.py:135-146 | is_EF is the envy scan on whole bundles. |
| Fairness.IsEFc | agents.py:100-111 | is_EFc is the envy scan on bundles without their best `c` goods. |
| Fairness.IsEF1 | agents.py:113-120 | is_EF1 is the EFc scan with `c = 1`. |
| Fairness.IsEFx | agents.py:122-133 | is_EFx is the envy scan on bundles without their worst good. |
| Fairness.ScanTrue | agents.py:108-111 | The loop passes exactly when every measure is defined and at most the own value. |
| Fairness.ScanDefined | agents.py:108-111 | When every measure is defined, the loop answers whether the own value reaches all of them. |
| Fairness.ScanError | agents.py:107-110 | A failing loop fails with the error of one of the measures. |
| Fairness.EnvyCheckTrue | agents.py:100-146 | EF, EFc and EFx hold exactly when the own value is defined and every listed bundle's measure is defined and at most the own value. |
| Fairness.EFxImpliesEF1 | agents.py:113-133 | Every allocation that passes EFx passes EF1. |
| Fairness.ExceptBestDefinedAsWorst | agents.py:34-74 | Without the best `c` goods a value is defined exactly when it is defined without the worst `c`. |
| Fairness.IsPROP | agents.py:153-161 | is_PROP fails exactly when the own value fails, and then with the valuation's error. Otherwise, for `n > 0` agents, it holds exactly when the own value is at least `1/n` of the total value. |
| Fairness.IsPROPc | agents.py:163-179 | As written, is_PROPc equals the corrected PROPc with `c = n - 1`, whatever `c` is given (see Findings). |
| Fairness.IsPROPcCorrected | agents.py:163-179 | A monotone agent has no desired goods, so the test fails. On success with `n > 0` agents, it holds exactly when the own value is at least `1/n` of the value of the desired goods without their best `c`. |
| Fairness.PROPcIgnoresC | agents.py:176-178 | As written, PROPc ignores `c`: `{x}` passes it with `c = 0` against a total without the best two goods (see Findings). |
| Fairness.PROPcZeroIsPROP | agents.py:163-179 | For the corrected PROPc of an additive agent with non-negative weights, `c = 0` is exactly PROP. |
| Fairness.PROPcZeroRejects | agents.py:153-179 | With `c = 0` the same bundle fails both the corrected PROPc and PROP. |
| Fairness.SumOfAllocation | agents.py:285-289 | `n` disjoint bundles, each weighing at most `u`, weigh at most `n * u` together. |
| Fairness.EFImpliesPROP | agents.py:135-161 | For an additive agent with non-negative weights, an allocation of all goods that the agent finds envy-free is proportional for it. |
| Fairness.MonotoneFairnessExamples | agents.py:198-203 | The MonotoneAgent doctests: EF fails, EF1 and EFx hold. |
| Fairness.AdditiveEFExample | agents.py:254-255 | The AdditiveAgent EF doctest: `{y}` envies `{z}`. |
| Fairness.AdditivePROPExamples | agents.py:256-259 | The PROP doctests: `{y}` is proportional for four agents, not for three. |
| Fairness.AdditivePROPcExample | agents.py:260-261 | The PROPc doctest with `c = 1`. |
| Fairness.AdditiveEF1Examples | agents.py:262-265 | The two EF1 doctests of AdditiveAgent. |
| Fairness.AdditiveEFxExample | agents.py:266-267 | The EFx doctest of AdditiveAgent. |
| Fairness.BinaryFairnessExamples | agents.py:357-366 | The EF and EF1 doctests of BinaryAgent, where the override makes a bundle worth -1. |
| Maximin.BundlePartitions | agents.py:90 | The partitions of a bundle form a non-empty list that starts with the single-block partition, and every partition has at least one block. This is the corrected enumeration (see Findings); BundlePartitionsSound and BundlePartitionsComplete show it holds every set partition of the bundle. |
| Maximin.BundlePartitionsSound | agents.py:90 | Every partition yielded for a non-empty bundle splits it: non-empty blocks that together list each good of the bundle exactly once. |
| Maximin.BundlePartitionsComplete | agents.py:90 | Every split of a non-empty bundle is yielded, up to the order of the blocks and of the goods in them. |
| Maximin.SameBlocksSameMin | agents.py:96 | Two partitions with the same blocks, in any order, have the same least block value, failures included. |
| Maximin.SameBlocksSameScore | agents.py:91-96 | Two partitions with the same blocks have as many blocks and the same score. |
| Maximin.MaximinShareCoversEvery | agents.py:89-98 | For a non-empty bundle, a defined maximin share is at least the score of every split of the bundle into at most `c` parts. The share fails when one of those scores fails. |
| Maximin.FirstPartitionWhole | partitions.py:17-26 | The enumeration starts with the whole list as one block. |
| Maximin.MinValue | agents.py:96 | The least block value fails exactly when some block's value fails. Otherwise it is one block's value and at most every other. |
| Maximin.ValueOneOfCMMS | agents.py:89-98 | The loop over partitions returns the maximin-share specification, taken over all set partitions of the bundle. |
| Maximin.ScoresMeaning | agents.py:90-97 | The collected scores are exactly those of the partitions with at most `c` blocks; a failure is the failure of one of them. |
| Maximin.KeptExists | agents.py:90-98 | Some partition has at most `c` blocks exactly when `c >= 1`. |
| Maximin.ShareOverMeaning | agents.py:89-98 | For any list of partitions that starts with a single block: the largest score fails with an empty maximum exactly when `c < 1`, and otherwise only on an undefined value. On success it is the score of some listed partition with at most `c` blocks, and at least every such score. |
| Maximin.MaximinShareMeaning | agents.py:76-98 | Over all set partitions of the bundle, the share fails with an empty maximum exactly when `c < 1`, and otherwise only on an undefined value. On success it is the score of some partition with at most `c` blocks, and at least every such score. |
| Maximin.PartitionOfBundle | agents.py:90 | A partition of a non-empty bundle has at most one block per good. The single-block partition holds the whole bundle. |
| Maximin.MaximinShareOfOne | agents.py:76-98 | The 1-out-of-1 share is the value of the whole bundle. |
| Maximin.MaximinShareBeyondSize | agents.py:91-94 | With more parts than goods the share is 0. |
| Maximin.BundleSplits | agents.py:90 | As written, the enumeration yields the consecutive splits of the bundle's iteration order. They form a non-empty list that starts with the whole bundle, and no split is empty. |
| Maximin.SplitsAreRuns | agents.py:90 | A list of `n >= 1` elements has `2^(n-1)` consecutive splits. Each one concatenates back to the list in order, and all its blocks are non-empty. |
| Maximin.SplitsArePartitions | agents.py:90 | Every consecutive split of a bundle is one of its set partitions. |
| Maximin.AsWrittenAtMostShare | agents.py:89-98 | Whenever the share over all partitions is defined, the as-written share over the consecutive splits is defined too, and it is at most the share over all partitions. |
| Maximin.SplitsOfXYZ | agents.py:90 | The consecutive splits of `{x, y, z}` are `[[x, y, z]]`, `[[x], [y, z]]`, `[[x, y], [z]]` and `[[x], [y], [z]]`. |
| Maximin.AsWrittenUnderReports | agents.py:89-98 | As written, the 1-out-of-2 share of `{x, y, z}` under weights `x: 1, y: 3, z: 1` is 1. The partition `[{y}, {x, z}]` scores 2, but it is not a consecutive split (see Findings). |
| Maximin.MaximinShareOfExample | agents.py:89-98 | Over all partitions, the 1-out-of-2 share of the same bundle is 2. |
| Maximin.BinaryMaximinShare | agents.py:415-416 | BinaryAgent's share is defined exactly when `c != 0`. For `c > 0` it is `m` with `c * m <= total < c * (m + 1)`, i.e. the floor of the total value over `c`. |
| Maximin.IsOneOfCMMS | agents.py:148-151 | is_1_of_c_MMS is defined exactly for a binary agent with `c != 0`. |
| Maximin.FloorDiv | agents.py:416 | `math.floor(a / c)`, exactly: `c * m <= a < c * (m + 1)` for `c > 0`, and the mirrored bounds for `c < 0`. |
| Maximin.IsOneOfCMMSBinary | agents.py:148-151 | For a binary agent with `c > 0`, the own bundle passes exactly when `c` times one more than its value exceeds the number of desired goods. |
| Maximin.PartitionsOfXY | agents.py:90 | `{x, y}` has the two partitions `[[x, y]]` and `[[x], [y]]`. |
| Maximin.MonotoneScores | agents.py:91-97 | The partition scores of the doctest for `c = 1, 2, 3`. |
| Maximin.MonotoneMaximinExamples | agents.py:81-87 | The value_1_of_c_MMS doctests: 4, 1 and 0. |
| Maximin.BinaryMaximinExamples | agents.py:367-370 | The is_1_of_c_MMS doctests of BinaryAgent: true for `{x, w}`, false for `{w}`. |
| VotingWeights.Balance | monotone_families.py:235-260 | Every two-family balance lies in `[0, 1]`. |
| VotingWeights.BalanceGrowsWithRemaining | monotone_families.py:256-260 | One more remaining desired good never lowers the balance, so every weight is non-negative. |
| VotingWeights.BalanceShrinksWithOwed | monotone_families.py:256-260 | Owing one more good never raises the balance. |
| VotingWeights.Weight | monotone_families.py:263-281 | A two-family weight lies in `[0, 1]`, and is 0 once nothing is owed or once too few desired goods remain. |
| VotingWeights.WeightBounds | monotone_families.py:263-281 | A weight lies in `[0, 1]`, and is 0 once nothing is owed or once too few desired goods remain. |
| VotingWeights.BalanceOwedOne | rwav_protocol.py:156-161 | A member owed one good has balance `1 - 2^-r`: the recurrence agrees with the closed form used for more families, at `k = 2`. |
| VotingWeights.BalanceExamples | monotone_families.py:241-254 | The balance doctests. |
| VotingWeights.WeightExamples | monotone_families.py:268-279 | The weight doctests. |
| VotingWeights.BalanceK | rwav_protocol.py:123-162 | The base cases come first. The `k`-balance fails exactly when `0 < s <= r` and either `k > 2` with `s > 1`, or `k < 2`. |
| VotingWeights.WeightK | rwav_protocol.py:166-188 | With two families the `k`-weight is the two-family weight. |
| VotingWeights.BalanceKTwo | rwav_protocol.py:152-155 | With two families the `k`-balance and `k`-weight are the two-family recurrence, whatever the curve. |
| VotingWeights.WeightKOutcome | rwav_protocol.py:166-188 | A `k`-weight fails exactly when its balance does. It is 0 when nothing is owed. With `k > 2` and `s = 1` it is the difference of two curve values. |
| VotingWeights.ThreeFamilyExamples | rwav_protocol.py:143-186 | The `k = 3` doctests of balance and weight. |
| Rwav.MemberWeight | rwav_protocol.py:96-116 | With two families a member's weight is defined and lies in `[0, 1]`. |
| Rwav.MemberWeightTwo | rwav_protocol.py:96-116 | With two families a member's weight never fails, lies in `[0, 1]`, and is 0 once its target is reached or too few of its goods remain. |
| Rwav.MemberWeights | rwav_protocol.py:83-84 | Successful weights give one weight per member. |
| Rwav.Best | rwav_protocol.py:92 | The chosen good is remaining and has the largest score; among equal scores it is the least good. |
| Rwav.BestUnique | rwav_protocol.py:92 | Only one good meets that description. |
| Rwav.BestAgrees | rwav_protocol.py:90-92 | Scores that agree on the remaining goods choose the same good. |
| Rwav.ChooseGoodSpec | rwav_protocol.py:67-92 | A chosen good is one of the remaining goods. |
| Rwav.ChooseGoodChoice | rwav_protocol.py:80-92 | The choice fails exactly when a member's weight fails or nothing remains. Otherwise the chosen good has the most votes, ties going to the least good. |
| Rwav.ChooseGood | rwav_protocol.py:80-92 | The voting loop returns the specified choice. |
| Rwav.Votes | rwav_protocol.py:83-86 | The vote loop fails with the first failing weight. Otherwise every good's total is the weighted vote of the members desiring it. |
| Rwav.AddVotes | rwav_protocol.py:85-86 | One member's weighted vote is added to each of its desired goods, and to no other good. |
| Rwav.RoundRobin | rwav_protocol.py:40-56 | The turn loop returns the round-robin specification. |
| Rwav.Allocate | rwav_protocol.py:20-56 | allocate is the round robin with the number of families as `k`. |
| Rwav.RoundRobinRunInvariant | rwav_protocol.py:46-55 | Every turn keeps the bundles and the remaining goods a split of all goods, and keeps the turn counts in step. |
| Rwav.RoundRobinSplitsFairly | rwav_protocol.py:40-56 | A successful round robin gives one bundle per family, and the bundles split the goods. An earlier family holds as many goods as a later one, or one more. |
| Rwav.WeightsTwoSucceed | rwav_protocol.py:148-155 | With two families no member's weight fails. |
| Rwav.RoundRobinAllocateTwo | monotone_families.py:49-61 | With two families, the round robin never fails while there is a family. |
| Rwav.MemberWeightExamples | rwav_protocol.py:100-105 | The member_weight doctests: 0.5 and 0.375. |
| Rwav.ChooseGoodExample | rwav_protocol.py:72-78 | The choose_good doctest: `z` is chosen. |
| Rwav.AllocateTurnOne | rwav_protocol.py:26-28 | Turn 1 of the allocate doctest: family 1 picks `z`. |
| Rwav.AllocateTurnTwo | rwav_protocol.py:26-28 | Turn 2: family 2 picks `y`. |
| Rwav.AllocateTurnThree | rwav_protocol.py:26-28 | Turn 3: family 1 picks `x`. |
| Rwav.AllocateTurnFour | rwav_protocol.py:26-28 | Turn 4: family 2 picks `w`. |
| Rwav.RoundRobinOfFour | rwav_protocol.py:44-55 | Four choices `a, b, c, d` in turn give the two families `{a, c}` and `{b, d}`. |
| Rwav.AllocateExample | rwav_protocol.py:25-32 | The allocate doctest: `{x, z}` and `{w, y}`. |
| MonotoneFamilies.LineMemberWeight | monotone_families.py:98-118 | The line protocol's member weight lies in `[0, 1]`, and is 0 once the member's target is reached. |
| MonotoneFamilies.LineMemberWeightAgrees | monotone_families.py:98-118 | The line protocol's member weight is the two-family round-robin weight. It lies in `[0, 1]` and is 0 for a satisfied or hopeless member. |
| MonotoneFamilies.LineMemberWeightExamples | monotone_families.py:102-107 | The member_weight doctests: 0.5 and 0.375. |
| MonotoneFamilies.WeightsIgnoreCurve | monotone_families.py:85-88 | With two families the weights of a family do not depend on the closed-form curve. |
| MonotoneFamilies.LineChooseGood | monotone_families.py:70-94 | The line protocol's choose_good is the two-family choice of the round robin, whatever the curve. |
| MonotoneFamilies.LineChooseGoodExample | monotone_families.py:75-80 | The choose_good doctest: `z` is chosen. |
| MonotoneFamilies.AllocateOnALine | monotone_families.py:42-61 | allocate_on_a_line fails unless there are exactly two families, and then returns the two-family round robin. |
| MonotoneFamilies.LineSplits | monotone_families.py:28-61 | The line protocol fails exactly when there are not two families. Otherwise its two bundles split the goods, the first holding as many goods as the second or one more. |
| MonotoneFamilies.LineExample | monotone_families.py:34-40 | The allocate_on_a_line doctest: `{x, z}` and `{w, y}`. |
| MonotoneFamilies.WantingAtMostSize | monotone_families.py:152-154 | With non-negative cardinalities, between none and all of a family's agents want a good. |
| MonotoneFamilies.NoTriggerIff | monotone_families.py:153-167 | The scan finds no good exactly when neither family wants any good of the order enough. |
| MonotoneFamilies.TriggerAt | monotone_families.py:153-166 | A found good is the first one in the order that some family wants enough. The first family gets it exactly when the first family wants it enough. |
| MonotoneFamilies.GoodsTrigger | monotone_families.py:152-167 | Over all goods, a found good is a good that its family wants enough. Finding none means neither family wants any good enough. |
| MonotoneFamilies.AllocateUsingEnhancedRWAV | monotone_families.py:146-167 | The scan loop returns the Enhanced RWAV specification. |
| MonotoneFamilies.ShortcutSplits | monotone_families.py:155-166 | One good against all the others splits the goods, on either side. |
| MonotoneFamilies.EnhancedSplits | monotone_families.py:123-167 | Enhanced RWAV fails exactly when there are not two families. Otherwise its two bundles split the goods. |
| MonotoneFamilies.EnhancedCounts | monotone_families.py:133-134 | The doctest families have ten agents each, and six of the first family's agents want `y`. |
| MonotoneFamilies.EnhancedTrigger | monotone_families.py:135-144 | With threshold 0.6 the scan stops at `y`, for the first doctest family, in either family order. |
| MonotoneFamilies.EnhancedExample | monotone_families.py:132-144 | The allocate_using_enhanced_RWAV doctests: `{y}` against `{v, w, x, z}`, in both family orders. |
| MonotoneFamilies.SweepSplits | monotone_families.py:196-211 | A sweep keeps the two bundles disjoint with the same union. A sweep that moves nothing changes nothing. |
| MonotoneFamilies.SweepOfSplits | monotone_families.py:196-203 | The same holds for a sweep over all of the giver's goods. |
| MonotoneFamilies.SweepBundle | monotone_families.py:196-203 | The sweep loop returns the sweep specification. |
| MonotoneFamilies.RoundSplits | monotone_families.py:195-211 | An iteration of both sweeps keeps the bundles a split of the same goods. One that moves nothing changes nothing. |
| MonotoneFamilies.IterateSplits | monotone_families.py:192-213 | Any number of iterations keeps the bundles a split of the same goods. |
| MonotoneFamilies.IterateStable | monotone_families.py:212-213 | After an iteration that moves nothing, the bundles are final. |
| MonotoneFamilies.AllocateTwoThirds | monotone_families.py:185-214 | The iteration loop returns the two-thirds specification. |
| MonotoneFamilies.TwoThirdsSplits | monotone_families.py:171-214 | The two-thirds protocol fails exactly when there are not two families. Otherwise its two bundles split the goods. |
| MonotoneFamilies.TwoThirdsExample | monotone_families.py:177-183 | The allocate_twothirds doctest: two goods each, `{w, y}` and `{x, z}`. |
| Partitions.Partitions | partitions.py:9-26 | Every list the enumerator yields is a partition of the input: non-empty blocks using every element exactly once. |
| Partitions.PartitionsComplete | partitions.py:9-26 | Every partition of a non-empty list is yielded, up to the order of the blocks and of the elements in them. |
| Partitions.BlocksMember | partitions.py:9-26 | Each block of a partition's unordered view is the view of one of its blocks. |
| Partitions.WithoutPartitions | partitions.py:19-26 | Taking the first element out of its block, and dropping the block if it becomes empty, leaves a partition of the rest of the list. |
| Partitions.CompleteStep | partitions.py:21-26 | Putting the first element back where it was taken from is one of the extensions the enumerator builds, with the original blocks. |
| Partitions.InsertAtSound | partitions.py:23-24 | Putting the first element into any block of a partition of the rest partitions the whole list. |
| Partitions.FreshBlockSound | partitions.py:26 | A block of its own for the first element also partitions the whole list. |
| Partitions.ExpandSound | partitions.py:21-26 | Every partition built from partitions of the rest partitions the whole list. |
| Partitions.ConsecutiveRunsArePartitions | partitions.py:9-26 | Non-empty runs that concatenate to a non-empty list, in order, are among the partitions the enumerator yields. |
| Partitions.PartitionsWithKBlocks | partitions.py:9-26 | Of the partitions of an `n`-element list, exactly `Stirling(n, k)` have `k` blocks. |
| Partitions.PartitionsCount | partitions.py:9-26 | The enumerator yields `Bell(n)` partitions of an `n`-element list. |
| Partitions.BellValues | partitions.py:9-26 | The first four Bell numbers are 1, 2, 5 and 15. |
| Partitions.BlocksAtMostLength | partitions.py:9-26 | A partition has at most as many blocks as the list has elements. |
| Partitions.PartitionsOfThree | partitions.py:14-15 | The doctest of partitions: the five partitions of `[1, 2, 3]`, in order. |
| Partitions.PartitionsToAtMostC | partitions.py:29-46 | As written, every list partitions_to_at_most_c yields is a partition of the input. |
| Partitions.PartitionsToAtMostCCorrected | partitions.py:29-46 | Every list the corrected enumerator yields is a partition of the input with at most `c` blocks. |
| Partitions.PartitionsToExactlyC | partitions.py:49-58 | Every list partitions_to_exactly_c yields is a partition of the input with exactly `c` blocks. |
| Partitions.PartitionsToAtMostCBounds | partitions.py:29-46 | As written, partitions_to_at_most_c yields only partitions of the input, and every partition with at most `c` blocks. |
| Partitions.PartitionsToAtMostCExceeds | partitions.py:40 | As written, partitions_to_at_most_c yields `[[1, 2], [3]]`, which has two blocks, for `c = 1` (see Findings). |
| Partitions.PartitionsToAtMostCCorrectedIsFilter | partitions.py:29-46 | The corrected enumerator yields exactly the partitions with at most `c` blocks, in enumeration order. |
| Partitions.PartitionsToAtMostCCorrectedCount | partitions.py:29-46 | The corrected enumerator yields `Stirling(n, 0) + ... + Stirling(n, c)` partitions. |
| Partitions.PartitionsToExactlyCIsFilter | partitions.py:49-58 | partitions_to_exactly_c yields exactly the `c`-block partitions, in enumeration order, even though it draws on the as-written at-most-`c` enumerator. |
| Partitions.PartitionsToExactlyCCount | partitions.py:49-58 | partitions_to_exactly_c yields `Stirling(n, c)` partitions. |
| Partitions.AtMostTwoOfThree | partitions.py:33-34 | The doctest of partitions_to_at_most_c. |
| Partitions.ExactlyTwoOfThree | partitions.py:53-54 | The doctest of partitions_to_exactly_c. |
| Partitions.CombinationsAreSubsequences | partitions.py:70 | The `r`-combinations of a list are exactly its subsequences of length `r`. |
| Partitions.CombinationsCount | partitions.py:70 | There are `Binomial(n, r)` of them. |
| Partitions.CombinationsUpToMembers | partitions.py:70 | The combinations of sizes up to `m` are exactly the subsequences of length at most `m`. |
| Partitions.Powerset | partitions.py:61-70 | The powerset is non-empty and starts with the empty tuple. |
| Partitions.PowersetMembers | partitions.py:61-70 | The powerset holds exactly the subsequences of the list. |
| Partitions.PowersetCount | partitions.py:61-70 | The powerset of an `n`-element list has `2^n` members. |
| Partitions.CombinationsOfThree | partitions.py:70 | The combinations of `[1, 2, 3]` of each size, in itertools order. |
| Partitions.PowersetOfThree | partitions.py:66-67 | The doctest of powerset. |

## Left out

- Logging and tracing are output only and are not modelled: `logger`, the `.trace` attributes, `__repr__`, `plural`, `demo` and the demo scripts.
- `lru_cache` on `balance` and `weight` is not modelled, because memoisation does not change their values.
- The closed form `1 - L_k^-r`, with `L_k = 2^(1/(k-1))`, for more than two families and `s = 1` is not computed. It is floating point with an irrational base, so the model takes its values as the parameter `curve`.
- Floating-point rounding is not modelled. Two-family balances are computed exactly as `real`; they are dyadic rationals, so this matches the doctests.
- rwav_protocol.allocate computes each member's target with `fairness_criterion.target_value_for_binary`. `fairness_criteria.py` is not part of this model, so each `Member` carries its target as an input.
- The `families` module is not part of this model: `Family`, `BinaryFamily`, `num_of_members`, `num_of_members_who_want` and `allocation_description`. A family is a list of members. Its agent counts are taken as sums of cardinalities (`Size`, `Wanting`, `Poor`).
- The `MonotoneFamily` class is not modelled. Its constructor only forwards to a base class that is not part of this model. As in the doctests, the protocols use binary members.
- Python's set iteration order is modelled as ascending order of goods, and so is `list(goods)`. Results that depend on that order are modelled for this order only: the Enhanced RWAV scan, the two-thirds sweeps, and the stable sort of equal additive weights.
- Goods are single characters, as in the doctests. `set(g)` (monotone_families.py:156) is modelled as `{g}`, which it is for a one-character good.
- The two-family protocols raise a string, which is itself a `TypeError` in Python 3. The model returns `Err(NotTwoFamilies)` instead.
- MonotoneFamilies.EnhancedRWAV: when no good meets the threshold, the source calls `allocate_using_RWAV`, which monotone_families.py neither defines nor imports. The model falls back to the two-family round robin of the same module.
- Partitions.Partitions: requires a non-empty list. partitions.py reads `collection[0]` of an empty list and fails, so the model requires what the source demands.
- Maximin.BundlePartitions: value_1_of_c_MMS calls `more_itertools.partitions`, which is not part of this model. Following its documented behaviour, that function yields only the `2^(n-1)` consecutive splits of the bundle's iteration order. The model writes these as BundleSplits and the as-written share as MaximinShareAsWritten. But the share that the rest of the model uses, and that ValueOneOfCMMS computes, maximises over all set partitions, from the enumerator of partitions.py. The two differ from three goods on: additive weights `x: 1, y: 3, z: 1`, bundle `{x, y, z}` and `c = 2` give 1 as written and 2 over all partitions (see Findings). The empty bundle has the one partition with one empty block.
- Maximin.MaximinShareMeaning: states the share over all set partitions, the intended 1-out-of-`c` maximin share, and not the as-written share over consecutive splits. The as-written share is related to it by AsWrittenAtMostShare and AsWrittenUnderReports. That the enumeration holds every set partition is proved by BundlePartitionsComplete and used by MaximinShareCoversEvery.
- Maximin.IsOneOfCMMS: for monotone and additive agents, `is_1_of_c_MMS` passes `c` where `value_1_of_c_MMS` expects a bundle. The model returns `Err(UnsupportedOperation)` for them. Only the binary override is modelled as computing a share.
- ExceptGoods.ValueExceptBestC and ExceptGoods.ValueExceptWorstC: their own contracts state only the small-bundle case. What they compute is stated per variant by ExceptC, AdditiveExceptCIsGeneric, BinaryBestOverride and BinaryWorstOverride.
- ExceptGoods.AdditiveExceptCIsGeneric: holds for `c >= 0` only. For `c < 0` the additive override slices from the end of the sorted list, while the generic definition fails on a negative count.
- The fairness guarantees of the protocols are not proved, including EF1 for the line protocol and the 2/3-democratic guarantee of allocate_twothirds. The model proves what each protocol returns, that its bundles split the goods, and the turn counts.
- The two-thirds iteration cap of twice the number of agents is modelled as written. Convergence within the cap is not claimed.

## Findings

| source | as written | input that shows it | evidently intended | confidence | as-written member | corrected member |
|---|---|---|---|---|---|---|
| partitions.py:40 | partitions_to_at_most_c recurses into the unrestricted `partitions`, so only the outermost new singleton block is pruned | `partitions_to_at_most_c([1, 2, 3], 1)` yields `[[1, 2], [3]]`, with two blocks | recurse into partitions_to_at_most_c itself, so every yielded partition has at most `c` blocks; for this the corrected base case also yields nothing for a one-element list when `c < 1`, where the as-written one yields `[[x]]` for every `c` | high, not executed | Partitions.PartitionsToAtMostCExceeds | Partitions.PartitionsToAtMostCCorrectedIsFilter |
| agents.py:89-98 | value_1_of_c_MMS maximises over `more_itertools.partitions(bundle)`, which yields only the consecutive splits of the bundle's iteration order, not every partition | additive agent `{x: 1, y: 3, z: 1}`, bundle `{x, y, z}` iterated as `x, y, z`, `c = 2`: the splits score 0, 1, 1, so the result is 1, though `[{y}, {x, z}]` guarantees 2 | maximise over every partition of the bundle, as the 1-out-of-`c` maximin share is defined | medium, not executed | Maximin.AsWrittenUnderReports | Maximin.MaximinShareOfExample |
| agents.py:176-178 | is_PROPc removes the best `num_of_agents - 1` desired goods and never reads `c` | additive agent `{x: 1, y: 2, z: 4}`, bundle `{x}`, 3 agents, `c = 0`: passes (3 >= 1), though PROP fails (3 < 7) | remove the best `c` desired goods, as the docstring says, so that `c = 0` is PROP | medium, not executed | Fairness.PROPcIgnoresC | Fairness.PROPcZeroIsPROP |
