# Verified model of the trade-up engine

The engine buys a contract of listings in one market and values the items the contract can turn into. This project
models its four exact cores in Dafny and proves what they promise, for all inputs and all runs.

1. **The bundle optimizer.** Dominance pruning (`Pareto.dfy`), cost/float frontiers (`Frontier.dfy`), the in-place
   dynamic program over listings (`CollectionFrontiers.dfy`) and the fold over one shared float budget
   (`Bundle.dfy`, `BundleCorollaries.dfy`) return the cheapest bundle that fills every slot, as long as the cap on
   frontiers allows it (`OverflowBounds.dfy`, `CapLosses.dfy`, `FoldLosses.dfy`). Around it, the wear bands
   (`Wear.dfy`), the candidate float budgets and the few a scan keeps (`Boundaries.dfy`, `FewBudgets.dfy`,
   `KeptBudgets.dfy`) and the enumeration of shapes and its order (`Enumerator.dfy`, `EnumerationOrder.dfy`) combine
   into one statement about the whole search (`Search.dfy`).
2. **Entry prices.** Fee rules and their fail-closed lookup (`Fees.dfy`), the inverse of the ROI floor
   (`EntryTargets.dfy`) and the inverse of the tiered fee schedule (`StickerPrice.dfy`).
3. **Buying.** The reservation registry (`Reservations.dfy`), the gated buyer against arbitrary venues
   (`Purchasing.dfy`), the allocation loop of a scan (`Scan.dfy`), and the rotation of the confirmation budget
   (`LeadRotation.dfy`, `Rotation.dfy`).
4. **Conservative arithmetic.** The failure tree of a bundle and the order of its purchases (`PartialFill.dfy`,
   `PurchaseOrder.dfy`), currency conversion and the settlement rail (`Conversion.dfy`, `Settlement.dfy`), outcome
   probabilities and expected value (`Outcomes.dfy`, `ExpectedValue.dfy`).

`Sorting.dfy`, `Rounding.dfy` and `Wrappers.dfy` hold what the modules share: Python's stable `sorted`, the explicit
floors, ceilings and half-even roundings, and option and result types. Check everything with
`dafny verify dfyconfig.toml`.

## How the model reads the program

- `Fraction` and `Decimal` are exact reals; every explicit rounding of the source is kept. Minor units, counts and
  moments are unbounded integers, as in Python.
- Listing identities, collections, skins and venues are integers. They are ordered where the source sorts by them.
- Objects the source updates are classes, and its loops are loops. The optimizer's `levels` list is an array
  overwritten in place; the registry's dictionary is a field.
- A frontier point carries the listings it selects; the identities the source stores are their projection. So the
  optimality theorem does not even need distinct identities: it counts listings with multiplicity. With distinct
  identities no listing is bought twice (`BundleCorollaries.NoListingTwice`).
- What `max_frontier_points` can spoil is a condition on the inputs: `Bundle.Overflows` says that some exact frontier
  the solver builds has more points than the cap. Exact frontiers have unique coordinates, so this is well defined.
  The ghost result `truncated` is proved to say the same of every bundle returned. Listings that together cost less
  than the cap in minor units never overflow it, and neither do at most log2 of the cap listings at any price: twelve
  for the default of 4096.
- A venue adapter is three arbitrary functions of every call made so far, so it may answer whatever it likes. The
  trace of calls is a field of the buyer.
- `Search.dfy` solves every shape at every budget kept for it and then lets the candidate cap decide what is
  considered; the source stops solving at the cap. Solving changes nothing, so the candidates are the same.
- The gates of a scan are arbitrary predicates, beside the one rule that concerns the claim (every input reserved).
  What the optimizer and the candidate builder produce is the input of the loop.

## Where the code and its own words differ

- `optimizer/bundle.py:142-143` says that every later listing is no cheaper on float. Listings reach that loop by cost,
  then float, then identity, so a later one can have less float (`BundleCorollaries.LaterCanHaveLessFloat`), and with
  one slot it never has more (`BundleCorollaries.LaterHasNoMoreFloat`). Skipping a point over the budget is sound all
  the same, since normalised floats are not negative (`CollectionFrontiers.CellStep`).
- `optimizer/bundle.py:17-18` calls the result exact, with no heuristic. `max_frontier_points` is one: a level over
  the cap keeps its lowest-float end (`optimizer/bundle.py:152-155`). That preserves feasibility for every cap, and
  optimality when nothing overflows (`Bundle.Solve`). When nothing is cut before the last frontier, the answer is best
  if and only if that one fits, and otherwise a cheaper bundle exists (`Bundle.BestExactlyWhenLastFits`). No cap is
  safe: every one, the default of 4096 included, loses on some market, for contracts of one collection
  (`CapLosses.EveryCapLoses`, where the price at least doubles) and of several (`FoldLosses.EveryCapLosesAcross`).
- `discovery/boundaries.py` says the candidate budgets are the only places where the answer can change. An average
  within `EPSILON` below a breakpoint escapes them (`FewBudgets.GapsAreUnserved`, at a concrete input
  `FewBudgets.GapExample`); `FewBudgets.FewBudgetsSufficeExactly` gives the exact condition for any set of budgets and
  any contract.
- `pipeline/scan.py:546-570` solves only the loosest `max_budgets_per_composition` of those. The exact cost of that
  cap: an average is lost when as many looser candidates lie at or beyond the next breakpoint
  (`KeptBudgets.KeptBudgetsSufficeExactly`). Two outputs are enough for the default of six to lose one
  (`KeptBudgets.DefaultCapMisses`).
- `purchasing/auto_buyer.py:20` speaks of each intent's hard price ceiling. The engine passes the ceiling to the venue
  but never compares it with the price reported paid (`purchasing/auto_buyer.py:307-313`). Venues that honour it keep
  each ceiling and the daily limit (`Purchasing.HonestVenuesKeepTheLimit`). Over all venues a bundle keeps its ceilings,
  or the limit, if and only if it is empty (`Purchasing.OnlyEmptyBundlesAreSafe`): for every other bundle that the gates
  let through, some venues are paid past the limit (`Purchasing.OverchargedPastTheLimit`;
  `Purchasing.CeilingIsNotEnforced` is an instance).
- `valuation/partial_fill.py:135-138` says that buying the most fragile listing first minimises the committed
  capital at the moment of discovery. It does when all inputs cost the same, and in general exactly when the
  odds-weighted prices ascend along that order or some input is sure to be gone
  (`PurchaseOrder.FragileFirstIsBestExactly`); `PurchaseOrder.FragileFirstCanBeWorse` is a bundle where it does not.
  The loss charged rounds every term up, which with equal costs can make another order cheaper, by at most two units
  less than there are inputs (`PurchaseOrder.EqualCostsChargedLoss`, met by `PurchaseOrder.RoundingCanReorder`).
- `pipeline/confirm_batch.py:311-313` says that rotation confirms every possible trade-up over successive batches.
  With a rarity filter it does so exactly for the leads with fewer than `top` filtered-out leads ranked above them
  (`Rotation.RotationReachesExactly`): the filter is applied after the batch is cut, and what it drops is never
  recorded. `Rotation.BlockedRunMissesALead` is a board of two leads on which no number of batches reaches the second.
- `select_leads` adds a lead before it compares with `top`, so a `top` below one still yields one lead.
- Affordability is not a threshold: a dearer sticker in a cheaper tier can fit where a lower one does not
  (`StickerPrice.AffordabilityIsNotMonotone`).

## Model

| member | source | states |
|---|---|---|
| Sorting.SortIsStable | src/tradeup/optimizer/pareto.py:119 | elements that tie under the sort key keep the order they came in |
| Pareto.NoLaterDominator | src/tradeup/optimizer/pareto.py:73-91 | nothing at or after an item in the sorted order dominates it, so counting dominators in the prefix is enough |
| Pareto.CountPrefixDominators | src/tradeup/optimizer/pareto.py:79-88 | the early-exit count reaches `keep` exactly when at least `keep` listings of the whole pool dominate the item |
| Pareto.PruneDominated | src/tradeup/optimizer/pareto.py:64-93 | refuses `keep` below one; otherwise a listing survives, with its multiplicity, exactly when fewer than `keep` listings of the pool dominate it, and the count removed is right |
| Pareto.SpareDominator | src/tradeup/optimizer/pareto.py:67-71 | a pruned listing inside a k-selection always has a dominator the selection has not used up |
| Pareto.SwapBelow | src/tradeup/optimizer/pareto.py:67-71 | swapping pruned listings for spare dominators terminates in a k-selection of survivors, no worse on cost and float |
| Pareto.PruningIsSound | src/tradeup/optimizer/pareto.py:67-93 | every k-selection of the pool is matched on both axes by a k-selection of the survivors |
| Pareto.EnoughSurvive | src/tradeup/optimizer/pareto.py:64-93 | at least min(k, number of listings) survive |
| Pareto.SameListingSurvives | src/tradeup/optimizer/pareto.py:51-61 | a listing offered twice never rules itself out, whatever the two prices |
| Frontier.PruneFrontier | src/tradeup/optimizer/pareto.py:113-126 | keeps points only, strictly rising in float and falling in cost, and covers every given point on both axes |
| Frontier.MergeFrontier | src/tradeup/optimizer/pareto.py:129-153 | returns the frontier of all pairwise sums within the budget |
| Frontier.FrontierUnique | src/tradeup/optimizer/pareto.py:113-126 | frontiers that cover one another have the same coordinates |
| Frontier.MergeCommutesWithPruning | src/tradeup/optimizer/pareto.py:129-153 | pruning both sides before merging changes no coordinate of the merged frontier |
| Frontier.ExchangeLastFolds | src/tradeup/optimizer/bundle.py:196-206 | folding two collections into a third frontier in either order gives the same coordinates |
| CollectionFrontiers.Extend | src/tradeup/optimizer/bundle.py:138-148 | extends exactly the points of the level below that stay within the budget |
| CollectionFrontiers.CellStep | src/tradeup/optimizer/bundle.py:136-155 | pruning the kept points with the extended ones covers every selection of the pool with the new listing |
| CollectionFrontiers.UpdateCell | src/tradeup/optimizer/bundle.py:136-155 | overwriting one cell in place makes it the level of the larger pool, other cells untouched; if it is cut, it is the lowest-float end of an exact level that overflows the cap |
| CollectionFrontiers.UseItem | src/tradeup/optimizer/bundle.py:134-155 | the downward pass turns every level of the prefix into the level of the prefix with one more listing, using it at most once |
| CollectionFrontiers.CollectionFrontier | src/tradeup/optimizer/bundle.py:116-157 | the result holds only points realised by exactly `slots` listings within budget, strictly ordered; it covers every such selection on float, and on cost too unless some exact level of a prefix overflows the cap; if only the last one does, the result is its lowest-float end |
| CollectionFrontiers.FrontierLength | src/tradeup/optimizer/bundle.py:152-155 | a frontier of costs up to a bound has at most that bound plus one points, so a cap above it never cuts |
| Bundle.BuildFrontiers | src/tradeup/optimizer/bundle.py:175-194 | prunes and builds each collection, exactly unless an exact level overflows the cap; `None` only when no bundle at all is feasible |
| Bundle.FoldCollections | src/tradeup/optimizer/bundle.py:196-210 | the fold holds only affordable bundles and covers all of them, on cost too unless an exact frontier overflows the cap; an empty fold rules every bundle out |
| Bundle.FoldOrderIrrelevant | src/tradeup/optimizer/bundle.py:196-206 | whatever the order in which the collections are folded, the exact frontier has the same coordinates |
| Bundle.EmptyFold | src/tradeup/optimizer/bundle.py:201-206 | stopping at an empty fold is right at whatever collection it happens |
| Bundle.CheapestSolves | src/tradeup/optimizer/bundle.py:208-214 | the cheapest point of the finished fold, float breaking ties, is the answer |
| Bundle.Solve | src/tradeup/optimizer/bundle.py:159-244 | returns a bundle exactly when one is feasible, for every cap; unless some exact frontier overflows the cap it is lexicographically least in (cost, float) over all feasible bundles of the unpruned listings; if the last frontier is the only one to overflow, a feasible bundle is cheaper; with a cap of one it has the least float |
| Bundle.BestExactlyWhenLastFits | src/tradeup/optimizer/bundle.py:152-155 | when nothing overflows before the last frontier, the answer is best if and only if that one fits |
| CapLosses.EveryCapLoses | src/tradeup/optimizer/bundle.py:152-155 | for every cap and every contract of one collection, a market listing nothing twice on which the answer costs at least twice the cheapest bundle |
| FoldLosses.EveryCapLosesAcross | src/tradeup/optimizer/bundle.py:196-206 | for every cap and every contract of several collections, a market listing nothing twice on which the answer is dearer than some feasible bundle |
| Bundle.CheapMarketsNeverOverflow | src/tradeup/optimizer/bundle.py:152-155 | listings that together cost less than the cap, in minor units, overflow no frontier |
| OverflowBounds.FewListingsNeverOverflow | src/tradeup/optimizer/bundle.py:152-155 | nor do at most log2(cap) listings on offer, whatever they cost |
| OverflowBounds.TwelveListingsFit | src/tradeup/optimizer/bundle.py:109-112 | at the default cap of 4096, no twelve listings overflow |
| BundleCorollaries.NoListingTwice | src/tradeup/optimizer/bundle.py:123-128 | distinct identities on offer give a bundle without repeats |
| BundleCorollaries.SolutionFillsTheContract | src/tradeup/optimizer/bundle.py:159-173 | a bundle has exactly as many listings as the contract has inputs and stays within the float budget |
| BundleCorollaries.TruncationLosesOptimality | src/tradeup/optimizer/bundle.py:152-155 | a concrete market where a cap of one buys at twice the cheapest price |
| BundleCorollaries.LaterCanHaveLessFloat | src/tradeup/optimizer/bundle.py:140-144 | two survivors of which the later has less float than the earlier |
| BundleCorollaries.LaterHasNoMoreFloat | src/tradeup/optimizer/bundle.py:140-144 | with one slot, no later survivor has more float than an earlier one |
| Wear.WearIsBoundariesReached | src/tradeup/domain/items.py:121-134 | an output is no more worn than another exactly when it reaches no further boundary |
| Wear.CrossingIsBoundary | src/tradeup/domain/mathematics.py:109-123 | the projected output reaches a boundary exactly when the average reaches its crossing |
| Wear.RenderingChangesWear | src/tradeup/domain/mathematics.py:126-154 | rendering at twelve places never improves a band, and worsens it exactly in the half quantum below a reachable boundary |
| Boundaries.WearBreakpoints | src/tradeup/discovery/boundaries.py:37-54 | the ascending list of exactly the crossings inside the output ranges |
| Boundaries.CandidateFloatBudgets | src/tradeup/discovery/boundaries.py:57-76 | ascending, exactly the positive points 0.000000001 below a breakpoint, and 1 when asked for |
| FewBudgets.FullRangeBudgets | src/tradeup/discovery/boundaries.py:29-76 | for one output of the full range the list is 0.069999999, 0.149999999, 0.379999999, 0.449999999 and, when asked for, 1 |
| Boundaries.UnconstrainedSurvives | src/tradeup/pipeline/scan.py:546-570 | however few budgets a composition may use, the unconstrained one is among them |
| Boundaries.OutsideGapsIsServed | src/tradeup/discovery/boundaries.py:57-76 | an average that is not less than 0.000000001 below any breakpoint is admitted by some candidate budget with no boundary in between |
| Boundaries.NoCrossingNoWear | src/tradeup/discovery/boundaries.py:37-54 | with no breakpoint between two averages, no output gets more worn |
| Boundaries.CrossingWears | src/tradeup/discovery/boundaries.py:37-54 | passing a breakpoint leaves some output in a worse band |
| Boundaries.NudgeSurvivesRendering | src/tradeup/discovery/boundaries.py:21-30 | the `EPSILON` nudge outlives the twelve-place rendering on every range wider than 0.0005 |
| FewBudgets.ServedBundleIsMatched | src/tradeup/discovery/boundaries.py:57-76 | an exact solve at a serving budget costs no more than the bundle and leaves no output more worn |
| FewBudgets.CandidateBudgetsSuffice | src/tradeup/discovery/boundaries.py:57-76 | outside the gaps, some candidate budget's exact solve is as cheap and as unworn as any bundle, also in the rendered wear |
| FewBudgets.FewBudgetsSufficeExactly | src/tradeup/discovery/boundaries.py:1-20 | for every contract, a set of budgets is good enough for an average, over all markets and even over those that list nothing twice, if and only if some budget at or above it has no breakpoint in between |
| FewBudgets.Undercut | src/tradeup/discovery/boundaries.py:1-20 | the market that shows the only-if half for any contract: dear listings at the average and cheap ones at the next breakpoint, none listed twice |
| FewBudgets.GapsAreUnserved | src/tradeup/discovery/boundaries.py:57-76 | just below an isolated breakpoint no candidate budget serves |
| FewBudgets.GapExample | src/tradeup/discovery/boundaries.py:57-76 | one output of the full range and an average of 0.0699999995: no candidate budget serves it |
| KeptBudgets.SelectBudgets | src/tradeup/pipeline/scan.py:546-570 | the loosest `limit` candidates, all of them for a limit of 0, none without an output |
| KeptBudgets.KeptServesExactly | src/tradeup/pipeline/scan.py:546-570 | an average served by the candidates stays served by the kept ones if and only if fewer than `limit` candidates lie at or beyond the next breakpoint |
| KeptBudgets.KeptBudgetsSufficeExactly | src/tradeup/pipeline/scan.py:546-570 | for any contract, that is also when the kept budgets match every bundle of the average on every market |
| KeptBudgets.DefaultCapMisses | src/tradeup/pipeline/scan.py:546-570 | two outputs, the default of six and an average of 0.01: outside every gap and served by a candidate, yet lost for any contract |
| Enumerator.PartitionsCorrect | src/tradeup/discovery/enumerator.py:47-64 | yields exactly the ways to write the total within the caps and the minimum, each once |
| Enumerator.CombinationsCorrect | src/tradeup/discovery/enumerator.py:67-106 | yields exactly the ascending subsets of a size, each once |
| Enumerator.EnumerationIsExact | src/tradeup/discovery/enumerator.py:67-106 | refuses an input count below one; otherwise yields each admissible shape exactly once and nothing else |
| EnumerationOrder.PartitionsRise | src/tradeup/discovery/enumerator.py:47-64 | the partitions come in strictly rising lexicographic order |
| EnumerationOrder.CombinationsRise | src/tradeup/discovery/enumerator.py:96-97 | so do the subsets of ascending collections |
| EnumerationOrder.EnumerationInOrder | src/tradeup/discovery/enumerator.py:67-106 | the enumeration is the only list that holds exactly the admissible shapes with fewer collections first, then by collections, then by counts |
| Search.SearchShapes | src/tradeup/pipeline/scan.py:418-456 | refuses an input count below one; otherwise the shapes are exactly those within the limits and the listings on offer, each has an answer of the solver for every budget kept for it, and each proposal is what the candidate builder makes of that answer, or nothing when there is none |
| Search.ShapesAreOnOffer | src/tradeup/pipeline/scan.py:415-427 | the shapes searched are exactly those of the contract size with few enough collections, each giving at least the minimum and at most what is listed, each once |
| Search.SearchReaches | src/tradeup/pipeline/scan.py:418-463 | for any bundle within the limits whose average a kept budget serves and whose frontiers do not overflow, its shape is enumerated and one of its answers costs no more and is no more worn; what the candidate builder makes of that answer is considered unless the candidate cap was reached before its shape |
| Search.LaterShapesAddNothing | src/tradeup/pipeline/scan.py:438-440 | once the candidate cap is reached, no later shape adds a candidate |
| Search.SearchDecides | src/tradeup/pipeline/scan.py:438-519 | a candidate proposed before the cap is reached is approved if and only if it passes both gates and neither another approved candidate nor a holder from before has one of its listings |
| Fees.NegativeFeeIsNegativeCap | src/tradeup/domain/fees.py:156-175 | a fee can be refused as negative only through a negative maximum, and then on every amount |
| Fees.FeeCoversTheRate | src/tradeup/domain/fees.py:156-175 | the fee covers percentage plus fixed part by less than one unit, except where the minimum or maximum decides it, the maximum winning |
| Fees.FeeMonotone | src/tradeup/domain/fees.py:156-175 | within one rule, rounding and clamping included, the fee never falls as the amount rises |
| Fees.ScheduleAnswersExactly | src/tradeup/domain/fees.py:195-217 | in the fields of the rules: a quote is the fee of the only rule for this venue, operation, balance type and currency, in force now and with the amount in its tier; it is unknown exactly when none is, ambiguous exactly when two entries are, and negative exactly when the only one has a negative maximum |
| Fees.UnrelatedRule | src/tradeup/domain/fees.py:130-154 | adding a rule that differs from a lookup in venue, operation, balance type or currency, or whose time window or tier leaves it out, changes no quote |
| Fees.AgreeingRule | src/tradeup/domain/fees.py:147-217 | adding one that agrees in all of these answers an unknown lookup with that rule's fee, or refuses it when its maximum is negative, and makes every other lookup ambiguous |
| EntryTargets.CapFromNeighbours | src/tradeup/valuation/entry_targets.py:74-139 | an amount that clears while its successor does not is the exact threshold over all positive spends |
| EntryTargets.MaxAcquisitionCost | src/tradeup/valuation/entry_targets.py:74-139 | refuses exactly the invalid targets; otherwise a positive spend a is at most the result if and only if (1 + target) a and the proportional overhead on a, rounded up, are within the value less the fixed overhead |
| EntryTargets.FloorIsRoi | src/tradeup/valuation/entry_targets.py:57-71 | that inequality is the same as a forward ROI, net of both overheads, at or above the target |
| EntryTargets.UnitTargetKeepsTheFloor | src/tradeup/valuation/entry_targets.py:142-155 | inputs each within the per-unit share keep the bundle within the cap and at the ROI floor |
| EntryTargets.AssessEntry | src/tradeup/valuation/entry_targets.py:302-341 | the target is the exact spending cap and the unit target its share; entry is met exactly when the observed bundle's own ROI, net of the fixed overhead, meets the target, and the shortfall is the least price cut after which it does |
| StickerPrice.AffordabilityIsNotMonotone | src/tradeup/valuation/entry_targets.py:175-210 | two tiers where sticker 100 fits a cap that sticker 99 does not |
| StickerPrice.PricedIsQuoted | src/tradeup/domain/fees.py:195-217 | a sticker is priced exactly when the schedule quotes every operation on it, and then at their sum |
| StickerPrice.TierPoints | src/tradeup/valuation/entry_targets.py:222-236 | ascending cut points from 1 to cap + 1 that hold every tier edge in between |
| StickerPrice.HighestInSegment | src/tradeup/valuation/entry_targets.py:250-275 | within a segment a sticker fits if and only if it is at most the result |
| StickerPrice.MaxStickerPrice | src/tradeup/valuation/entry_targets.py:175-279 | over all stickers up to the cap: the first fault if any, a refusal if none is covered, else the greatest affordable one, 0 if none; which rules count is stated field by field in the next two rows and `Fees.ScheduleAnswersExactly` |
| StickerPrice.UnrelatedRuleKeepsVerdict | src/tradeup/valuation/entry_targets.py:175-279 | adding a rule that bears on none of the operations at any sticker up to the cap leaves the answer as it is |
| StickerPrice.SecondRuleIsAmbiguous | src/tradeup/valuation/entry_targets.py:237-249 | adding one that bears on an operation already covered makes the sticker a fault |
| StickerPrice.AffordableStickersKeepTheFloor | src/tradeup/valuation/entry_targets.py:142-279 | both inversions compose: stickers affordable under the per-unit cap keep the bundle at the ROI floor, fees included |
| Reservations.ReleaseFreesExactlyTheUnbought | src/tradeup/execution/reservations.py:137-148 | releasing a candidate frees exactly its listings that are not bought |
| Reservations.ExpiryIsInvisible | src/tradeup/execution/reservations.py:150-159 | sweeping expired claims changes nobody's holdings |
| Reservations.PermittedSteps | src/tradeup/domain/execution.py:203-262 | the seven steps permitted, every other one refused, and all fields of the reservation after a step |
| Reservations.ClaimLastsItsTime | src/tradeup/execution/reservations.py:89-120 | a claim records who, what and when, and holds its listings exactly until its time to live is over |
| Reservations.HeldByFields | src/tradeup/execution/reservations.py:72-81 | a listing has a holder exactly while it is claimed, pending or bought and not expired |
| Reservations.ReleasedByFields | src/tradeup/execution/reservations.py:137-148 | a release ends exactly the candidate's claims and pending purchases |
| Reservations.ExpiredByFields | src/tradeup/execution/reservations.py:150-159 | the sweep ends exactly the claims and pending purchases that are over |
| Reservations.ReservationRegistry.ClaimBundle | src/tradeup/execution/reservations.py:89-120 | all or nothing: the conflicts, sorted, are exactly the listings another candidate holds, and with any the book is unchanged; otherwise every listing gets a fresh claim and nothing else changes |
| Reservations.ReservationRegistry.Transition | src/tradeup/execution/reservations.py:122-135 | succeeds exactly on a held listing and a permitted step, and changes that listing only |
| Reservations.ReservationRegistry.ReleaseCandidate | src/tradeup/execution/reservations.py:137-148 | releases everything the candidate still can, counts it, and touches nothing else |
| Reservations.ReservationRegistry.ExpireStale | src/tradeup/execution/reservations.py:150-159 | marks exactly the expired active claims stale and counts them |
| Purchasing.AutoBuyer.Reverify | src/tradeup/purchasing/auto_buyer.py:184-216 | stops at the first listing that is not confirmed as active at the quoted price or at none named, with the reason for it alone: refused, gone, or there but repriced; otherwise it has asked about every listing in order |
| Purchasing.AutoBuyer.BuyOne | src/tradeup/purchasing/auto_buyer.py:265-319 | one attempt: its result, its calls, and what it leaves of the listing's reservation, for any reply of the venue |
| Purchasing.AutoBuyer.BuySequentially | src/tradeup/purchasing/auto_buyer.py:247-321 | buys up to the first input the venue does not deliver; results, calls and every reservation are as that point determines |
| Purchasing.AutoBuyer.VerifyAndBuy | src/tradeup/purchasing/auto_buyer.py:176-182 | a claimed bundle: an abort submits nothing and releases the claim, otherwise the run buys in order up to the first failure; every intermediate transition is legal |
| Purchasing.AutoBuyer.ExecuteCandidate | src/tradeup/purchasing/auto_buyer.py:121-182 | the whole ladder: blocked or conflicted runs touch nothing, and otherwise the bundle is claimed and executed; a purchase is requested only if every venue answered that its listing is active, at the quoted price or without naming one |
| Purchasing.BuysOnlyAsQuoted | src/tradeup/purchasing/auto_buyer.py:184-216 | every executed run that requests a purchase has the confirmation of every listing, in the fields of the replies |
| Purchasing.FirstDoubtAborts | src/tradeup/purchasing/auto_buyer.py:184-246 | at the first reply that is none, that input alone is failed, gone or repriced according to the reply, nothing is requested and the claim is released |
| Purchasing.AutoBuyer.BookStep | src/tradeup/purchasing/auto_buyer.py:247-321 | settling one input extends the account of the registry by that input and disturbs no other |
| Purchasing.RunShape | src/tradeup/purchasing/auto_buyer.py:247-321 | successes, then at most one other outcome, then nothing attempted; purchased exactly where succeeded, pending exactly where reconciliation was refused, released elsewhere |
| Purchasing.StoppingResult | src/tradeup/purchasing/auto_buyer.py:54-62 | the result of the input a run stops at, for each of the venue's refusals, for a reconciliation in doubt and for the venue's own report |
| Purchasing.RunStepsAreLegal | src/tradeup/domain/execution.py:203-262 | every final reservation is reached from its claim along the transition table |
| Purchasing.VerifiedBeforeBuying | src/tradeup/purchasing/auto_buyer.py:176-182 | every listing is revalidated before the first purchase request, and none afterwards |
| Purchasing.RunAsksFor | src/tradeup/purchasing/auto_buyer.py:247-321 | a run requests each input up to its stop exactly once, never more than the bundle ceiling |
| Purchasing.DailyLimitHolds | src/tradeup/purchasing/auto_buyer.py:142-155 | what an ungated run asks for, with what was spent today, respects the daily limit |
| Purchasing.HonestVenuesKeepTheLimit | src/tradeup/purchasing/auto_buyer.py:247-321 | if the venues never report a delivery above its ceiling, every executed run pays each input within its ceiling and keeps the daily limit |
| Purchasing.OnlyEmptyBundlesAreSafe | src/tradeup/purchasing/auto_buyer.py:307-313 | over all venues, a bundle whose ceilings fit what is left of the limit is paid within that, and within its own ceilings, if and only if it has no inputs |
| Purchasing.OverchargedPastTheLimit | src/tradeup/purchasing/auto_buyer.py:307-313 | for every other bundle there are venues with which every rung passes and every executed run pays past the limit |
| Purchasing.CeilingIsNotEnforced | src/tradeup/purchasing/auto_buyer.py:307-313 | a listing quoted at 100, a limit of 100 and a venue that reports 101: every rung passes and 101 is paid |
| Purchasing.AbortFreesTheBundle | src/tradeup/purchasing/auto_buyer.py:176-180 | after an abort nobody holds a listing of the bundle |
| Purchasing.OthersAreUntouched | src/tradeup/purchasing/auto_buyer.py:163-180 | other candidates' holdings survive a claim and its release |
| Scan.NothingPassedOver | src/tradeup/pipeline/scan.py:438-463 | a proposal is passed over only if the cap was reached before its composition |
| Scan.ConsideredOnce | src/tradeup/pipeline/scan.py:459-463 | no candidate is offered twice |
| Scan.ScanPipeline.ClaimAndGate | src/tradeup/pipeline/scan.py:483-510 | approved exactly when all listings were available and the other rules agree; on refusal the claim is released |
| Scan.ScanPipeline.ClaimReservesAll | src/tradeup/execution/policy.py:227-234 | the rule that every input be reserved tells a successful claim from a refused one, though it compares listing ids only |
| Scan.ScanPipeline.Run | src/tradeup/pipeline/scan.py:438-519 | the loop with its cap, seen set, gates and releases allocates exactly the considered candidates, in order |
| Scan.EveryCandidateIsDecided | src/tradeup/pipeline/scan.py:465-519 | every considered candidate is approved or rejected, once |
| Scan.ApprovedBundlesAreDisjoint | src/tradeup/pipeline/scan.py:483-510 | approved candidates hold all their listings and no two share one, whatever the registry held before |
| Scan.OfferTakesAllOrNothing | src/tradeup/pipeline/scan.py:483-510 | an approval takes exactly its bundle; a rejection, whatever was claimed on the way, changes no holding |
| Scan.RejectedCandidatesLeaveNothing | src/tradeup/pipeline/scan.py:509-519 | after a run each listing is held by the approved candidate using it, else by whoever held it before |
| Scan.FreshRegistryHoldsExactlyTheApproved | src/tradeup/pipeline/scan.py:438-519 | from an empty registry the active reservations are exactly the union of the approved bundles |
| Scan.ApprovedExactlyWhenUnblocked | src/tradeup/pipeline/scan.py:438-519 | a candidate is approved if and only if it passes both gates and no other approved candidate or outsider has one of its listings |
| PartialFill.PriceFailureTree | src/tradeup/valuation/partial_fill.py:145-175 | the loop over the ordered purchases computes reach, expected loss, worst loss and every failure point |
| PartialFill.Assess | src/tradeup/valuation/partial_fill.py:127-185 | refuses an empty bundle; otherwise prices the fragile-first order of exactly its inputs |
| PartialFill.QuantisedIsNearest | src/tradeup/valuation/partial_fill.py:161-177 | a probability is reported at the nearest millionth, halfway at the even one |
| PartialFill.TreeSumsToOne | src/tradeup/valuation/partial_fill.py:151-177 | before quantising, all failure probabilities and completion add up to one |
| PartialFill.LossRoundsUp | src/tradeup/valuation/partial_fill.py:157-159 | with the salvage rounded down, the loss is the least whole amount covering the unrecovered share |
| PartialFill.LossesGrow | src/tradeup/valuation/partial_fill.py:157-159 | with non-negative costs, dying later never loses less, rounding of the salvage included |
| PartialFill.MaxExposureIsLastLoss | src/tradeup/valuation/partial_fill.py:172-182 | the largest exposure is the last step's loss |
| PartialFill.RoundingCharge | src/tradeup/valuation/partial_fill.py:171 | rounding each term up never understates the expectation and overstates it by at most n - 1 units, and by less from two inputs on |
| PartialFill.ExpectedLossBound | src/tradeup/valuation/partial_fill.py:171-185 | the expected loss is at most the largest exposure plus n - 1 |
| PurchaseOrder.LeastReach | src/tradeup/valuation/partial_fill.py:133-147 | at every position, fragile-first is the least likely of all orders to have got that far |
| PurchaseOrder.CompletionIgnoresOrder | src/tradeup/valuation/partial_fill.py:174-177 | no order changes the chance of completing or the bill |
| PurchaseOrder.EqualCostsFragileFirstIsBest | src/tradeup/valuation/partial_fill.py:133-171 | with equal costs no order has a smaller exact expected loss |
| PurchaseOrder.EqualCostsChargedLoss | src/tradeup/valuation/partial_fill.py:133-171 | with equal costs the charged loss of the fragile-first order exceeds that of no other order by more than n - 2 units |
| PurchaseOrder.RoundingCanReorder | src/tradeup/valuation/partial_fill.py:171 | three inputs of 5 where fragile-first is charged 3 and another order 2 |
| PurchaseOrder.SpendIsCommittedOrCompleted | src/tradeup/valuation/partial_fill.py:151-175 | expected spend splits into what is committed at a failure and what completes |
| PurchaseOrder.OddsOrderIsBest | src/tradeup/valuation/partial_fill.py:133-147 | an order with ascending odds-weighted prices has the least expected spend of all orders |
| PurchaseOrder.FragileFirstIsBestExactly | src/tradeup/valuation/partial_fill.py:133-147 | fragile-first minimises committed capital at discovery over all orders if and only if the first input is sure to be gone or adjacent odds-weighted prices ascend |
| PurchaseOrder.FragileFirstCanBeWorse | src/tradeup/valuation/partial_fill.py:133-147 | a two-listing bundle where the reverse order commits less |
| Conversion.RoundTrip | src/tradeup/domain/conversion.py:103-128 | in both directions of a pair, proceeds of a cost bring back at least the amount, and the cost of proceeds is at most it |
| Conversion.RateIsMajorPerMajor | src/tradeup/domain/conversion.py:111-121 | the rate prices whole base units in whole quote units, and back, for every pair of minor-unit scales |
| Conversion.OneUnitConvertsAtTheRate | src/tradeup/domain/money.py:91-98 | one whole unit (100000000 satoshi, 10^18 wei, 1000000 micro-tether, 100 cents) converts at the rate, rounded up as a cost and down as proceeds |
| Settlement.FiatIn | src/tradeup/valuation/settlement.py:175-194 | what went in is valued at no less than the capital with its fees |
| Settlement.FiatOut | src/tradeup/valuation/settlement.py:196-221 | what came back is valued at no more than the net proceeds, and at nothing when those are negative |
| Settlement.HaircutOnlyLoses | src/tradeup/valuation/settlement.py:211-212 | the haircut takes from a gain and only shrinks a debt |
| Settlement.DragCoversEveryFee | src/tradeup/valuation/settlement.py:139-171 | every plan's drag is at least the inbound fees and the outbound fees, the latter up to the capital, and never negative |
| Settlement.GuardsInOrder | src/tradeup/valuation/settlement.py:139-160 | a plan is refused for currency, capital, pair and a quote past its age limit, in this order, and for nothing else before the fees |
| Settlement.PlanRecords | src/tradeup/valuation/settlement.py:173-221 | the amounts a plan records: the capital at both ends, the crypto sent for it with its fees, the crypto that nets it after them, and what the haircut leaves |
| Settlement.PlanExistsExactly | src/tradeup/valuation/settlement.py:139-221 | a plan exists if and only if every guard holds and each of the five lookups, on the amount the earlier fees determine, has exactly one matching rule with a fee; a missing, ambiguous or negative fee is reported exactly when it is that of the first lookup without one |
| Settlement.PlanIsDue | src/tradeup/valuation/settlement.py:139-221 | a plan's fees are those of the only rules that match its lookups, and the spread is the same both ways |
| Settlement.DragChargesEverything | src/tradeup/valuation/settlement.py:139-171 | the drag is at least both legs' fees, both network fees and the haircut, valued at the quote |
| Settlement.DragChargesNothingElse | src/tradeup/valuation/settlement.py:139-171 | the drag stays below those fees, the network fees and haircut at the quote, and the rounding of three crypto and two fiat units |
| Outcomes.MassIsInputShare | src/tradeup/domain/mathematics.py:204-225 | each prefix of the collections has probability in proportion to its inputs |
| Outcomes.OutcomeProbabilities | src/tradeup/domain/mathematics.py:179-233 | fails exactly on an unsupported method, no collection or an unusable one, naming the least unless the counts add up to nothing, which has its own error; the total is exactly one and the final check is never reached |
| Outcomes.EveryOutcomeIsPossible | src/tradeup/domain/contracts.py:182-184 | every listed outcome has a probability in (0, 1] |
| Outcomes.AggregateBySkin | src/tradeup/domain/mathematics.py:236-249 | each skin gets the mass of all its outcomes |
| Outcomes.AggregationConservesMass | src/tradeup/domain/mathematics.py:236-249 | aggregation conserves probability |
| ExpectedValue.ProbabilityWeighted | src/tradeup/valuation/expected_value.py:34-53 | refuses another currency; otherwise the exact weighted sum, floored once |
| ExpectedValue.RoundedOnce | src/tradeup/valuation/expected_value.py:34-41 | flooring each term instead never gives more and loses at most one unit a term |
| ExpectedValue.ExpectationBetween | src/tradeup/valuation/expected_value.py:176-196 | with full mass the floored expectation lies between the least and the greatest value |
| ExpectedValue.ProfitMassBounds | src/tradeup/valuation/expected_value.py:187-190 | the probability of profit is 0 exactly when no outcome profits and 1 exactly when every one does |
| ExpectedValue.ProfitOrLoss | src/tradeup/valuation/expected_value.py:187-190 | the chances of a profit and of none add up to the whole mass |
| ExpectedValue.LowerBoundByConfidence | src/tradeup/domain/valuation.py:97-107 | 95, 85, 70 or no per cent of the proceeds count, by confidence, in whole units rounded down |
| ExpectedValue.AcquisitionIsPricesAndFees | src/tradeup/valuation/expected_value.py:98-122 | the bill is the prices with the buyer fees and the deposit fees |
| ExpectedValue.CarryIsRoundedUpTwice | src/tradeup/valuation/capital.py:91-107 | the carry is the principal times the yearly rate for days of 365, rounded up at eight places and then to whole units, so within stated bounds of the exact charge |
| ExpectedValue.ProfitIsSharedOut | src/tradeup/valuation/capital.py:132-139 | the profit per day is the profit over the days, at least one, rounded down; nothing on a loss |
| ExpectedValue.EvaluationIsConservative | src/tradeup/valuation/expected_value.py:174-196 | lower bound below expectation, expectation between worst and best, positive expectation only with a chance of profit |
| ExpectedValue.Evaluate | src/tradeup/valuation/expected_value.py:151-235 | refuses exactly foreign listings, a negative cost and a negative bill; otherwise the evaluation brackets and signs hold together with every component's definition |
| ExpectedValue.ContractIsBracketed | src/tradeup/pipeline/scan.py:309-371 | the outcomes of a contract, however valued, make a candidate, so its expectation lies between its extremes and profit is certain or excluded exactly when every outcome says so |
| LeadRotation.SelectLeads | src/tradeup/pipeline/confirm_batch.py:67-109 | the loop with its early stop and fallback returns the first `top` open distinct leads, or the first `top` of all when none is open |
| LeadRotation.LeadsAreBestVariants | src/tradeup/pipeline/confirm_batch.py:76-84 | a prospect is a lead exactly when it is the best-ranked above-floor variant of its key |
| LeadRotation.LeadsHaveDistinctKeys | src/tradeup/pipeline/confirm_batch.py:86-101 | no key occurs twice |
| LeadRotation.KeysOfDistinctLeads | src/tradeup/pipeline/confirm_batch.py:86-101 | exactly the above-floor keys are represented |
| LeadRotation.ConfirmationLog.RunBatch | src/tradeup/pipeline/confirm_batch.py:307-328 | excludes the keys confirmed within the window, selects, filters by rarity, and records every confirmed lead |
| Rotation.BatchTakesTheNextLeads | src/tradeup/pipeline/confirm_batch.py:307-328 | without a filter, batch b takes leads b * top up to (b + 1) * top; once all are reached, the best ones again |
| Rotation.EveryLeadHasItsBatch | src/tradeup/pipeline/confirm_batch.py:307-328 | lead i is confirmed in batch i / top and in no other before all are reached |
| Rotation.BlockedIsNeverConfirmed | src/tradeup/pipeline/confirm_batch.py:320-328 | behind `top` filtered-out leads nothing is ever confirmed |
| Rotation.BlockedRunMissesALead | src/tradeup/pipeline/confirm_batch.py:307-328 | two leads, batches of one and a filter that drops the first: no number of batches confirms the second |
| Rotation.RotationReachesExactly | src/tradeup/pipeline/confirm_batch.py:307-328 | under a rarity filter a permitted lead is confirmed if and only if fewer than `top` filtered-out leads rank above it |

## Left out

- `Decimal`'s 28-digit context: arithmetic is exact up to the explicit roundings.
- The survival curve of `PartialFillModel.survival_probability`: a survival probability is any number in [0, 1].
- Interleaving at `await` points: each buyer run and each scan runs alone, at one fixed moment.
- Several buyer runs on one registry: a later claim by the same candidate may overwrite its earlier states; each call is specified on its own, from whatever the registry held.
- The optimizer's explanation record and its binomial counts, and all detail and reason texts.
- Mixed currencies and balance types inside the entry-target functions, where `Money` itself raises: amounts there are minor units of one currency.
- Projection with an average outside [0, 1] or an unsupported float method, which the source refuses.
- Building candidates, exit prices, calibration and the other gate rules: branch-by-branch logic; the scan takes their outcomes as given.
- Adapters, transport, persistence, reporting, command line and demo code: input and output.
- An adapter that raises instead of answering: in the source the exception leaves the run there, with claims and pending reservations still in the registry.
- PurchaseOrder.EqualCostsFragileFirstIsBest: is about the exact sum of probability times rounded loss; EqualCostsChargedLoss bounds what the ceiling on each term adds.
- PurchaseOrder.FragileFirstIsBestExactly: is about the exact committed capital the comment speaks of, before salvage and the ceilings.
- Search.SearchDecides: assumes that equal candidate ids mean equal candidates, as the digest of src/tradeup/domain/contracts.py:247-260 intends; collisions of a digest are not modelled.
- Rotation.BatchTakesTheNextLeads: assumes an unchanged board and all batches within one rotation window, as the source's comment does.
