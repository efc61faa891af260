/**
 The same for contracts drawn from several collections: for every cap above one, a market on which only the last fold
 is cut, and the solver pays more than it has to; with a cap of one it buys the least float instead.
 */
module FoldLosses {
  import opened Bundle
  import opened BundleCorollaries
  import opened CapLosses
  import opened CollectionFrontiers
  import opened FewBudgets
  import opened Frontier
  import opened Pareto
  import opened Sorting
  import opened Wrappers

  // ----- the market: two stairs in the first collection, `cap` in the last, one in each of the others

  function StairsAt(i: nat, last: nat, first: int, cap: nat): seq<CandidateItem> {
    if i == 0 then [Listing(first, 1.0, 1), Listing(first + 1, 0.0, 1 + cap)]
    else Staircase(first, if i == last then cap else 1)
  }

  /** Identities left free for the collections so far. */
  function Base(keys: seq<int>, counts: Composition, cap: nat): nat {
    if keys == [] then 0 else Base(keys[..|keys| - 1], counts, cap) + Count(counts, keys[|keys| - 1]) + cap
  }

  function FreeAt(keys: seq<int>, i: nat, counts: Composition, cap: nat): seq<CandidateItem>
    requires i < |keys| && keys[i] in counts
  {
    var c := keys[i];
    assert c in counts && counts[c] > 0;
    Uniform(Base(keys[..i], counts, cap), counts[c] - 1, 0.0, 0)
  }

  function StepsAt(keys: seq<int>, i: nat, counts: Composition, cap: nat): seq<CandidateItem>
    requires i < |keys| && keys[i] in counts
  {
    StairsAt(i, |keys| - 1, Base(keys[..i], counts, cap) + counts[keys[i]] - 1, cap)
  }

  function Place(keys: seq<int>, c: int): (i: nat)
    requires c in keys
    ensures i < |keys| && keys[i] == c
  {
    if keys[0] == c then 0 else 1 + Place(keys[1..], c)
  }

  ghost function AcrossMarket(counts: Composition, cap: nat): Market {
    var keys := SortedKeys(counts.Keys);
    map c | c in counts :: FreeAt(keys, Place(keys, c), counts, cap) + StepsAt(keys, Place(keys, c), counts, cap)
  }

  /** The market as the lemmas below see it: the pools of the collections, by position. */
  ghost predicate IsAcross(market: Market, keys: seq<int>, counts: Composition, cap: nat) {
    && Ascending(keys) && |keys| >= 2 && cap >= 1
    && forall i | 0 <= i < |keys| ::
         keys[i] in counts && Pool(market, keys[i]) == FreeAt(keys, i, counts, cap) + StepsAt(keys, i, counts, cap)
  }

  lemma AcrossMarketIs(counts: Composition, cap: nat)
    requires |counts| >= 2 && cap >= 1
    ensures IsAcross(AcrossMarket(counts, cap), SortedKeys(counts.Keys), counts, cap)
  {
    var keys := SortedKeys(counts.Keys);
    assert |keys| == |counts.Keys| == |counts|;
    forall i | 0 <= i < |keys| ensures keys[i] in counts && Place(keys, keys[i]) == i {
      assert keys[i] in counts.Keys;
    }
  }

  lemma StepsAreStairs(keys: seq<int>, i: nat, counts: Composition, cap: nat)
    requires i < |keys| && keys[i] in counts && |keys| >= 2 && cap >= 1
    ensures Free(FreeAt(keys, i, counts, cap)) && Stairs(StepsAt(keys, i, counts, cap))
    ensures |FreeAt(keys, i, counts, cap)| + 1 == counts[keys[i]]
    ensures |StepsAt(keys, i, counts, cap)| == if i == 0 then 2 else if i == |keys| - 1 then cap else 1
  {
    var first := Base(keys[..i], counts, cap) + counts[keys[i]] - 1;
    StaircaseIsStairs(first, if i == |keys| - 1 then cap else 1);
  }

  // ----- no collection overflows

  lemma KitLevelsFit(free: seq<CandidateItem>, stairs: seq<CandidateItem>, i: nat, k: nat, budget: real, cap: nat)
    requires Free(free) && Stairs(stairs) && budget >= 1.0 && cap >= 1 && |stairs| <= cap
    requires i <= |free + stairs| && 0 < k <= |free| + 1
    ensures !LevelOverflows((free + stairs)[..i], k, budget, cap)
  {
    if i < |free + stairs| || k <= |free| {
      KitLevelFits(free, stairs, i, k, budget, cap);
    } else {
      WholePrefix(free + stairs);
      StairLevel(free, stairs, budget);
      FittingLevel(StairPoints(free, stairs), k, free + stairs, budget, cap);
    }
  }

  lemma KitNeverOverflows(free: seq<CandidateItem>, stairs: seq<CandidateItem>, budget: real, cap: nat)
    requires Free(free) && Stairs(stairs) && budget >= 1.0 && cap >= 1 && |stairs| <= cap
    requires forall i, j | 0 <= i < j < |free| :: free[i].id <= free[j].id
    ensures !CollectionOverflows(free + stairs, |free| + 1, budget, cap)
  {
    var pool: seq<CandidateItem> := free + stairs;
    KitIsSorted(free, stairs);
    forall i, k | 0 <= i <= |pool| && 0 < k <= |free| + 1 ensures !LevelOverflows(pool[..i], k, budget, cap) {
      KitLevelsFit(free, stairs, i, k, budget, cap);
    }
  }

  lemma CollectionFits(market: Market, keys: seq<int>, i: nat, counts: Composition, budget: real, cap: nat)
    requires IsAcross(market, keys, counts, cap) && cap >= 2 && i < |keys| && budget >= 1.0
    ensures !CollectionOverflows(Pool(market, keys[i]), Count(counts, keys[i]), budget, cap)
  {
    StepsAreStairs(keys, i, counts, cap);
    KitNeverOverflows(FreeAt(keys, i, counts, cap), StepsAt(keys, i, counts, cap), budget, cap);
  }

  lemma CollectionsFit(market: Market, keys: seq<int>, counts: Composition, budget: real, cap: nat)
    requires IsAcross(market, keys, counts, cap) && cap >= 2 && budget >= 1.0
    ensures !CollectionsOverflow(keys, |keys|, counts, market, budget, cap)
  {
    forall i | 0 <= i < |keys|
      ensures !CollectionOverflows(Pool(market, keys[i]), Count(counts, keys[i]), budget, cap)
    {
      CollectionFits(market, keys, i, counts, budget, cap);
    }
  }

  // ----- the folds

  /** The exact frontier of collection `i`. */
  ghost function LevelAt(keys: seq<int>, i: nat, counts: Composition, cap: nat): (f: seq<FrontierPoint>)
    requires i < |keys| && keys[i] in counts
  {
    StairPoints(FreeAt(keys, i, counts, cap), StepsAt(keys, i, counts, cap))
  }

  lemma LevelAtIsLevel(market: Market, keys: seq<int>, i: nat, counts: Composition, budget: real, cap: nat)
    requires IsAcross(market, keys, counts, cap) && i < |keys| && budget >= 1.0
    ensures Level(LevelAt(keys, i, counts, cap), Count(counts, keys[i]), Pool(market, keys[i]), budget, true)
  {
    StepsAreStairs(keys, i, counts, cap);
    StairLevel(FreeAt(keys, i, counts, cap), StepsAt(keys, i, counts, cap), budget);
  }

  /** Two points, a whole unit of float and `cap` units of cost apart. */
  ghost predicate Pair(f: seq<FrontierPoint>, bound: real, cap: nat) {
    && |f| == 2 && f[1].normalized == f[0].normalized + 1.0 && f[0].cost == f[1].cost + cap
    && f[1].normalized <= bound && f[1].cost as real <= bound
  }

  function Shifted(p: FrontierPoint, f: seq<FrontierPoint>): (g: seq<FrontierPoint>)
    ensures |g| == |f| && forall i | 0 <= i < |g| :: g[i] == Join(p, f[i])
  {
    seq(|f|, i requires 0 <= i < |f| => Join(p, f[i]))
  }

  ghost predicate WithinSpacing(level: seq<FrontierPoint>, cap: nat) {
    forall i | 0 <= i < |level| :: 0.0 < level[i].normalized <= 1.0 && 1 <= level[i].cost <= cap
  }

  function Copies(f: seq<FrontierPoint>, level: seq<FrontierPoint>): seq<FrontierPoint>
    requires |f| == 2
  {
    Shifted(f[0], level) + Shifted(f[1], level)
  }

  lemma CopiesAreStrict(f: seq<FrontierPoint>, level: seq<FrontierPoint>, bound: real, cap: nat)
    requires Pair(f, bound, cap) && StrictFrontier(level) && WithinSpacing(level, cap)
    ensures StrictFrontier(Copies(f, level))
  {
    var g, n := Copies(f, level), |level|;
    forall i, j | 0 <= i < j < |g| ensures g[i].normalized < g[j].normalized && g[i].cost > g[j].cost {
      assert g[i] == if i < n then Join(f[0], level[i]) else Join(f[1], level[i - n]);
      assert g[j] == if j < n then Join(f[0], level[j]) else Join(f[1], level[j - n]);
    }
  }

  lemma CopyOf(f: seq<FrontierPoint>, level: seq<FrontierPoint>, a: FrontierPoint, b: FrontierPoint)
    requires |f| == 2 && a in f && b in level
    ensures Join(a, b) in Copies(f, level)
  {
    var i :| 0 <= i < |level| && level[i] == b;
    if a == f[0] {
      assert Copies(f, level)[i] == Join(a, b);
    } else {
      assert Copies(f, level)[|level| + i] == Join(a, b);
    }
  }

  /** The exact frontier of a pair and a frontier within its spacing: one copy after the other. */
  lemma PairSums(f: seq<FrontierPoint>, level: seq<FrontierPoint>, bound: real, budget: real, cap: nat)
    requires Pair(f, bound, cap) && StrictFrontier(level) && WithinSpacing(level, cap) && bound + 1.0 <= budget
    ensures FrontierOf(Copies(f, level), Sums(f, level, Option.Some(budget)))
  {
    var g := Copies(f, level);
    CopiesAreStrict(f, level, bound, cap);
    forall p | p in Sums(f, level, Option.Some(budget)) ensures Covers(g, p.normalized, p.cost, true) {
      var a, b :| a in f && b in level && p == Join(a, b);
      CopyOf(f, level, a, b);
      var k :| 0 <= k < |g| && g[k] == p;
      assert NoWorse(g[k], p.normalized, p.cost, true);
    }
    forall i | 0 <= i < |g| ensures g[i] in Sums(f, level, Option.Some(budget)) {
      SumOfCopy(f, level, bound, budget, cap, i);
    }
  }

  lemma SumOfCopy(f: seq<FrontierPoint>, level: seq<FrontierPoint>, bound: real, budget: real, cap: nat, i: nat)
    requires Pair(f, bound, cap) && WithinSpacing(level, cap) && bound + 1.0 <= budget && i < |Copies(f, level)|
    ensures Copies(f, level)[i] in Sums(f, level, Option.Some(budget))
  {
    var a := if i < |level| then f[0] else f[1];
    var b := level[if i < |level| then i else i - |level|];
    assert a in f && b in level && Copies(f, level)[i] == Join(a, b);
  }

  lemma LevelWithinSpacing(keys: seq<int>, i: nat, counts: Composition, cap: nat)
    requires 0 < i < |keys| && keys[i] in counts && cap >= 1
    ensures WithinSpacing(LevelAt(keys, i, counts, cap), cap)
  {
  }

  lemma FirstFold(market: Market, keys: seq<int>, counts: Composition, budget: real, cap: nat)
      returns (f: seq<FrontierPoint>)
    requires IsAcross(market, keys, counts, cap) && budget >= 1.0
    ensures Folded(f, keys[..1], counts, market, budget, true) && Pair(f, 1.0, cap)
  {
    LevelAtIsLevel(market, keys, 0, counts, budget, cap);
    LevelIsFold(LevelAt(keys, 0, counts, cap), keys[0], counts, market, budget);
    f := Alone(LevelAt(keys, 0, counts, cap));
    assert keys[..1] == [keys[0]];
  }

  /** The fold over the first `i + 1` collections. */
  lemma NextFold(market: Market, keys: seq<int>, i: nat, counts: Composition, budget: real, cap: nat,
                 f: seq<FrontierPoint>) returns (g: seq<FrontierPoint>)
    requires IsAcross(market, keys, counts, cap) && 0 < i < |keys| && budget >= (i + 1) as real
    requires Folded(f, keys[..i], counts, market, budget, true) && Pair(f, i as real, cap)
    ensures Folded(g, keys[..i + 1], counts, market, budget, true)
    ensures g == Copies(f, LevelAt(keys, i, counts, cap))
  {
    var level := LevelAt(keys, i, counts, cap);
    LevelAtIsLevel(market, keys, i, counts, budget, cap);
    LevelWithinSpacing(keys, i, counts, cap);
    PairSums(f, level, i as real, budget, cap);
    g := Copies(f, level);
    FoldStep(f, keys[..i], keys[i], counts, market, budget, true, level, g);
    PrefixStep(keys, i);
  }

  ghost predicate OneStair(level: seq<FrontierPoint>) {
    |level| == 1 && level[0].normalized == 1.0 && level[0].cost == 1
  }

  lemma MiddleLevel(keys: seq<int>, i: nat, counts: Composition, cap: nat)
    requires 0 < i < |keys| && keys[i] in counts && (i < |keys| - 1 || cap == 1)
    ensures OneStair(LevelAt(keys, i, counts, cap))
  {
  }

  lemma PairStays(f: seq<FrontierPoint>, level: seq<FrontierPoint>, bound: real, cap: nat)
    requires Pair(f, bound, cap) && OneStair(level)
    ensures Pair(Copies(f, level), bound + 1.0, cap)
  {
  }

  lemma NextPair(market: Market, keys: seq<int>, i: nat, counts: Composition, budget: real, cap: nat,
                 f: seq<FrontierPoint>) returns (g: seq<FrontierPoint>)
    requires IsAcross(market, keys, counts, cap) && 0 < i < |keys| - 1 && budget >= (i + 1) as real
    requires Folded(f, keys[..i], counts, market, budget, true) && Pair(f, i as real, cap)
    ensures Folded(g, keys[..i + 1], counts, market, budget, true) && Pair(g, (i + 1) as real, cap)
  {
    g := NextFold(market, keys, i, counts, budget, cap, f);
    MiddleLevel(keys, i, counts, cap);
    PairStays(f, LevelAt(keys, i, counts, cap), i as real, cap);
  }

  lemma {:induction false} PairFold(market: Market, keys: seq<int>, i: nat, counts: Composition, budget: real, cap: nat)
      returns (f: seq<FrontierPoint>)
    requires IsAcross(market, keys, counts, cap) && 0 < i < |keys| && budget >= |keys| as real
    ensures Folded(f, keys[..i], counts, market, budget, true) && Pair(f, i as real, cap)
  {
    if i == 1 {
      f := FirstFold(market, keys, counts, budget, cap);
    } else {
      f := PairFold(market, keys, i - 1, counts, budget, cap);
      f := NextPair(market, keys, i - 1, counts, budget, cap, f);
    }
  }

  lemma FoldsFitTillLast(market: Market, keys: seq<int>, counts: Composition, budget: real, cap: nat)
    requires IsAcross(market, keys, counts, cap) && cap >= 2 && budget >= |keys| as real
    ensures forall i | 0 < i < |keys| :: !FoldOverflows(keys[..i], counts, market, budget, cap)
  {
    forall i | 0 < i < |keys| ensures !FoldOverflows(keys[..i], counts, market, budget, cap) {
      var f := PairFold(market, keys, i, counts, budget, cap);
      FittingFold(f, keys[..i], counts, market, budget, cap);
    }
  }

  lemma LastFold(market: Market, keys: seq<int>, counts: Composition, budget: real, cap: nat)
      returns (f: seq<FrontierPoint>)
    requires IsAcross(market, keys, counts, cap) && budget >= |keys| as real
    ensures Folded(f, keys, counts, market, budget, true) && |f| == 2 * cap
    ensures cap == 1 ==> Pair(f, |keys| as real, 1)
  {
    var last := |keys| - 1;
    var before := PairFold(market, keys, last, counts, budget, cap);
    f := NextFold(market, keys, last, counts, budget, cap, before);
    StepsAreStairs(keys, last, counts, cap);
    WholePrefix(keys);
    if cap == 1 {
      MiddleLevel(keys, last, counts, cap);
      PairStays(before, LevelAt(keys, last, counts, cap), last as real, cap);
    }
  }

  // ----- nothing is listed twice

  ghost predicate Numbered(s: seq<CandidateItem>, first: int, end: int) {
    && (forall i | 0 <= i < |s| :: first <= s[i].id < end)
    && forall i, j | 0 <= i < j < |s| :: s[i].id < s[j].id
  }

  lemma NumberedAppend(a: seq<CandidateItem>, b: seq<CandidateItem>, first: int, middle: int, end: int)
    requires Numbered(a, first, middle) && Numbered(b, middle, end) && first <= middle <= end
    ensures Numbered(a + b, first, end)
  {
  }

  lemma KitIsNumbered(first: int, n: nat, i: nat, last: nat, cap: nat)
    requires cap >= 1
    ensures Numbered(Uniform(first, n, 0.0, 0) + StairsAt(i, last, first + n, cap), first, first + n + 1 + cap)
  {
    assert Numbered(Uniform(first, n, 0.0, 0), first, first + n);
    assert Numbered(StairsAt(i, last, first + n, cap), first + n, first + n + 1 + cap);
    NumberedAppend(Uniform(first, n, 0.0, 0), StairsAt(i, last, first + n, cap), first, first + n, first + n + 1 + cap);
  }

  lemma PoolIsNumbered(market: Market, keys: seq<int>, i: nat, counts: Composition, cap: nat)
    requires IsAcross(market, keys, counts, cap) && i < |keys|
    ensures Numbered(Pool(market, keys[i]), Base(keys[..i], counts, cap), Base(keys[..i + 1], counts, cap))
  {
    assert keys[..i + 1][..i] == keys[..i];
    KitIsNumbered(Base(keys[..i], counts, cap), counts[keys[i]] - 1, i, |keys| - 1, cap);
  }

  lemma FlattenNext(keys: seq<int>, i: nat, market: Market)
    requires i < |keys|
    ensures Flatten(keys[..i + 1], market) == Flatten(keys[..i], market) + Pool(market, keys[i])
  {
    assert keys[..i + 1][..i] == keys[..i];
  }

  lemma OneMoreNumbered(market: Market, keys: seq<int>, i: nat, middle: int, end: int)
    requires i < |keys| && 0 <= middle <= end
    requires Numbered(Flatten(keys[..i], market), 0, middle) && Numbered(Pool(market, keys[i]), middle, end)
    ensures Numbered(Flatten(keys[..i + 1], market), 0, end)
  {
    FlattenNext(keys, i, market);
    NumberedAppend(Flatten(keys[..i], market), Pool(market, keys[i]), 0, middle, end);
  }

  lemma BaseGrows(keys: seq<int>, i: nat, counts: Composition, cap: nat)
    requires i < |keys|
    ensures Base(keys[..i], counts, cap) <= Base(keys[..i + 1], counts, cap)
  {
    assert keys[..i + 1][..i] == keys[..i];
  }

  lemma {:induction false} OfferIsNumbered(market: Market, keys: seq<int>, i: nat, counts: Composition, cap: nat)
    requires IsAcross(market, keys, counts, cap) && i <= |keys|
    ensures Numbered(Flatten(keys[..i], market), 0, Base(keys[..i], counts, cap))
  {
    if i > 0 {
      OfferIsNumbered(market, keys, i - 1, counts, cap);
      PoolIsNumbered(market, keys, i - 1, counts, cap);
      BaseGrows(keys, i - 1, counts, cap);
      OneMoreNumbered(market, keys, i - 1, Base(keys[..i - 1], counts, cap), Base(keys[..i], counts, cap));
    }
  }

  lemma NumberedIsDistinct(s: seq<CandidateItem>, first: int, end: int)
    requires Numbered(s, first, end)
    ensures Distinct(Identities(s))
  {
  }

  lemma OfferIsDistinct(market: Market, keys: seq<int>, counts: Composition, cap: nat)
    requires IsAcross(market, keys, counts, cap)
    ensures Distinct(Identities(Flatten(keys, market)))
  {
    OfferIsNumbered(market, keys, |keys|, counts, cap);
    WholePrefix(keys);
    NumberedIsDistinct(Flatten(keys, market), 0, Base(keys, counts, cap));
  }

  // ----- the result

  lemma AcrossFitsTillLast(market: Market, keys: seq<int>, counts: Composition, budget: real, cap: nat)
    requires IsAcross(market, keys, counts, cap) && keys == SortedKeys(counts.Keys) && budget >= |keys| as real
    requires cap >= 2
    ensures !OverflowsEarly(counts, market, budget, cap)
  {
    CollectionsFit(market, keys, counts, budget, cap);
    FoldsFitTillLast(market, keys, counts, budget, cap);
  }

  lemma AcrossOverflowsLast(market: Market, keys: seq<int>, counts: Composition, budget: real, cap: nat)
      returns (parts: Market)
    requires IsAcross(market, keys, counts, cap) && keys == SortedKeys(counts.Keys) && budget >= |keys| as real
    ensures FoldOverflows(SortedKeys(counts.Keys), counts, market, budget, cap)
    ensures Feasible(counts, market, budget, parts)
  {
    var f := LastFold(market, keys, counts, budget, cap);
    parts := PointIsFeasible(f, |f| - 1, counts, market, budget);
  }

  // ----- with a cap of one, the least float is bought

  /** Whatever fills the collections takes a stair of each: dear ones, or a whole unit of float each. */
  lemma {:induction false} StairOfEach(market: Market, keys: seq<int>, i: nat, counts: Composition, parts: Market)
    requires IsAcross(market, keys, counts, 1) && i <= |keys| && Fills(keys[..i], counts, market, parts)
    ensures Cost(Flatten(keys[..i], parts)) >= i
    ensures Cost(Flatten(keys[..i], parts)) > i || Float(Flatten(keys[..i], parts)) >= i as real
  {
    if i > 0 {
      var m := i - 1;
      assert keys[..i][..m] == keys[..m];
      FillsPrefix(keys[..i], counts, market, parts, m);
      StairOfEach(market, keys, m, counts, parts);
      FlattenNext(keys, m, parts);
      TotalsAppend(Flatten(keys[..m], parts), Pool(parts, keys[m]));
      assert Selection(Pool(parts, keys[..i][m]), Count(counts, keys[..i][m]), Pool(market, keys[..i][m]));
      StairTaken(market, keys, m, counts, Pool(parts, keys[m]));
    }
  }

  lemma StepsAreDearOrLoose(keys: seq<int>, i: nat, counts: Composition)
    requires i < |keys| && keys[i] in counts
    ensures forall u | 0 <= u < |StepsAt(keys, i, counts, 1)| ::
      var x := StepsAt(keys, i, counts, 1)[u]; x.cost >= 1 && (x.cost > 1 || x.normalized >= 1.0)
  {
  }

  lemma StairTaken(market: Market, keys: seq<int>, i: nat, counts: Composition, s: seq<CandidateItem>)
    requires IsAcross(market, keys, counts, 1) && i < |keys|
    requires Selection(s, Count(counts, keys[i]), Pool(market, keys[i]))
    ensures Cost(s) >= 1 && (Cost(s) > 1 || Float(s) >= 1.0)
  {
    StepsAreStairs(keys, i, counts, 1);
    StepsAreDearOrLoose(keys, i, counts);
    var u := SomeStair(s, FreeAt(keys, i, counts, 1), StepsAt(keys, i, counts, 1));
  }

  lemma CapOneOverpays(market: Market, keys: seq<int>, counts: Composition, budget: real, b: BundleSolution)
    requires IsAcross(market, keys, counts, 1) && keys == SortedKeys(counts.Keys) && budget >= |keys| as real
    requires Solves(counts, market, budget, Option.Some(b), false) && LeastFloat(counts, market, budget, b)
    ensures CheaperExists(counts, market, budget, b.totalCost)
  {
    var f := LastFold(market, keys, counts, budget, 1);
    var cheap := PointIsFeasible(f, 1, counts, market, budget);
    var tight := PointIsFeasible(f, 0, counts, market, budget);
    assert b.totalNormalized <= Float(Listings(counts, tight));
    var parts :| Feasible(counts, market, budget, parts) && Buys(b, Listings(counts, parts));
    WholePrefix(keys);
    StairOfEach(market, keys, |keys|, counts, parts);
  }

  lemma AcrossIsOverpaid(market: Market, keys: seq<int>, counts: Composition, budget: real, cap: nat,
                         r: Option<BundleSolution>)
    requires IsAcross(market, keys, counts, cap) && keys == SortedKeys(counts.Keys) && budget >= |keys| as real
    requires Promised(counts, market, budget, cap, r)
    ensures r.Some? && CheaperExists(counts, market, budget, r.value.totalCost)
  {
    var parts := AcrossOverflowsLast(market, keys, counts, budget, cap);
    if cap == 1 {
      CapOneOverpays(market, keys, counts, budget, r.value);
    } else {
      AcrossFitsTillLast(market, keys, counts, budget, cap);
    }
  }

  /**
   For every cap and every contract drawn from several collections there is a market, listing nothing twice,
   on which a bundle is returned though a cheaper one fits.
   */
  lemma EveryCapLosesAcross(counts: Composition, cap: nat, budget: real, r: Option<BundleSolution>)
    requires |counts| >= 2 && cap >= 1 && budget >= |counts| as real
    requires Promised(counts, AcrossMarket(counts, cap), budget, cap, r)
    ensures r.Some? && CheaperExists(counts, AcrossMarket(counts, cap), budget, r.value.totalCost)
    ensures Distinct(Identities(Offer(counts, AcrossMarket(counts, cap))))
  {
    var market, keys := AcrossMarket(counts, cap), SortedKeys(counts.Keys);
    AcrossMarketIs(counts, cap);
    assert |keys| == |counts.Keys| == |counts|;
    AcrossIsOverpaid(market, keys, counts, budget, cap, r);
    OfferIsDistinct(market, keys, counts, cap);
  }
}
