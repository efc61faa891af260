/**
 What `max_frontier_points` costs (src/tradeup/optimizer/bundle.py): for every cap, and every contract drawn from one
 collection, a market on which the solver pays more than it has to.
 */
module CapLosses {
  import opened Bundle
  import opened BundleCorollaries
  import opened CollectionFrontiers
  import opened FewBudgets
  import opened Frontier
  import opened Pareto
  import opened Rounding
  import opened Sorting
  import opened Wrappers

  // ----- free listings, and a staircase of dear ones with little float down to cheap ones with much

  ghost predicate Free(s: seq<CandidateItem>) {
    forall i | 0 <= i < |s| :: s[i].normalized == 0.0 && s[i].cost == 0
  }

  ghost predicate Stairs(s: seq<CandidateItem>) {
    && (forall i | 0 <= i < |s| :: s[i].cost > 0)
    && forall i, j | 0 <= i < j < |s| :: s[i].cost < s[j].cost && s[i].normalized > s[j].normalized
  }

  lemma {:induction false} FreeTotals(s: seq<CandidateItem>)
    requires Free(s)
    ensures Float(s) == 0.0 && Cost(s) == 0
  {
    if s != [] {
      FreeTotals(s[1..]);
    }
  }

  lemma OneMoreTotals(free: seq<CandidateItem>, x: CandidateItem)
    requires Free(free)
    ensures Float(free + [x]) == x.normalized && Cost(free + [x]) == x.cost
  {
    FreeTotals(free);
    TotalsAppend(free, [x]);
    assert Float([x]) == x.normalized && Cost([x]) == x.cost;
  }

  /** A few free listings are the whole frontier. */
  lemma FreeLevel(free: seq<CandidateItem>, rest: seq<CandidateItem>, k: nat, budget: real)
    requires Free(free) && k <= |free| && budget >= 0.0
    ensures Level([FrontierPoint(0.0, 0, free[..k])], k, free + rest, budget, true)
  {
    var level := [FrontierPoint(0.0, 0, free[..k])];
    FreeTotals(free[..k]);
    assert free + rest == free[..k] + (free[k..] + rest);
    forall s ensures Matched(level, k, free + rest, budget, true, s) {
      assert NoWorse(level[0], Float(s), Cost(s), true);
    }
  }

  lemma NoLevel(pool: seq<CandidateItem>, k: nat, budget: real)
    requires k > |pool|
    ensures Level([], k, pool, budget, true)
  {
    NoOversizedSelection(k, pool);
  }

  /** One listing more than there are free ones: each stair in turn, the least float first. */
  ghost function StairPoints(free: seq<CandidateItem>, stairs: seq<CandidateItem>): (f: seq<FrontierPoint>)
    ensures |f| == |stairs|
    ensures forall i | 0 <= i < |f| ::
      var x := stairs[|stairs| - 1 - i]; f[i] == FrontierPoint(x.normalized, x.cost, free + [x])
  {
    seq(|stairs|, i requires 0 <= i < |stairs| =>
      var x := stairs[|stairs| - 1 - i]; FrontierPoint(x.normalized, x.cost, free + [x]))
  }

  /** More listings than are free take some stair. */
  lemma SomeStair(s: seq<CandidateItem>, free: seq<CandidateItem>, stairs: seq<CandidateItem>) returns (u: nat)
    requires Selection(s, |free| + 1, free + stairs)
    ensures u < |stairs| && stairs[u].normalized <= Float(s) && stairs[u].cost <= Cost(s)
  {
    if forall x | x in s :: x !in stairs {
      forall x: CandidateItem ensures multiset(s)[x] <= multiset(free)[x] {
        assert multiset(free + stairs)[x] == multiset(free)[x] + multiset(stairs)[x];
        assert x in s || multiset(s)[x] == 0;
      }
      SubsetSize(multiset(s), multiset(free));
    }
    var x :| x in s && x in stairs;
    u := IndexOf(stairs, x);
    Removal(s, IndexOf(s, x));
  }

  lemma StairRealised(free: seq<CandidateItem>, stairs: seq<CandidateItem>, u: nat)
    requires Free(free) && u < |stairs|
    ensures var x := stairs[u];
            Realised(FrontierPoint(x.normalized, x.cost, free + [x]), |free| + 1, free + stairs)
  {
    OneMoreTotals(free, stairs[u]);
    assert stairs == stairs[..u] + [stairs[u]] + stairs[u + 1..];
  }

  lemma StairsComplete(free: seq<CandidateItem>, stairs: seq<CandidateItem>, budget: real)
    ensures Complete(StairPoints(free, stairs), |free| + 1, free + stairs, budget, true)
  {
    var level, n := StairPoints(free, stairs), |free| + 1;
    forall s ensures Matched(level, n, free + stairs, budget, true, s) {
      if Selection(s, n, free + stairs) {
        var u := SomeStair(s, free, stairs);
        assert NoWorse(level[|stairs| - 1 - u], Float(s), Cost(s), true);
      }
    }
  }

  lemma StairsAreStrict(free: seq<CandidateItem>, stairs: seq<CandidateItem>)
    requires Stairs(stairs)
    ensures StrictFrontier(StairPoints(free, stairs))
  {
  }

  lemma StairLevel(free: seq<CandidateItem>, stairs: seq<CandidateItem>, budget: real)
    requires Free(free) && Stairs(stairs) && budget >= 1.0
    ensures Level(StairPoints(free, stairs), |free| + 1, free + stairs, budget, true)
  {
    var level, n := StairPoints(free, stairs), |free| + 1;
    StairsComplete(free, stairs, budget);
    StairsAreStrict(free, stairs);
    forall i | 0 <= i < |level| ensures Realised(level[i], n, free + stairs) && level[i].normalized <= budget {
      var x := stairs[|stairs| - 1 - i];
      StairRealised(free, stairs, |stairs| - 1 - i);
      assert level[i] == FrontierPoint(x.normalized, x.cost, free + [x]);
    }
  }

  // ----- only the last level overflows

  lemma KitLevelFits(free: seq<CandidateItem>, stairs: seq<CandidateItem>, i: nat, k: nat, budget: real, cap: nat)
    requires Free(free) && Stairs(stairs) && budget >= 1.0 && cap >= 1 && |stairs| <= cap + 1
    requires i <= |free + stairs| && 0 < k <= |free| + 1 && (i < |free + stairs| || k <= |free|)
    ensures !LevelOverflows((free + stairs)[..i], k, budget, cap)
  {
    var pool := (free + stairs)[..i];
    if k > i {
      NoLevel(pool, k, budget);
      FittingLevel([], k, pool, budget, cap);
    } else if i <= |free| {
      assert pool == free[..i] + [];
      FreeLevel(free[..i], [], k, budget);
      FittingLevel([FrontierPoint(0.0, 0, free[..i][..k])], k, pool, budget, cap);
    } else {
      var some := stairs[..i - |free|];
      assert pool == free + some;
      if k <= |free| {
        FreeLevel(free, some, k, budget);
        FittingLevel([FrontierPoint(0.0, 0, free[..k])], k, pool, budget, cap);
      } else {
        StairLevel(free, some, budget);
        FittingLevel(StairPoints(free, some), k, pool, budget, cap);
      }
    }
  }

  lemma KitFitsEarly(free: seq<CandidateItem>, stairs: seq<CandidateItem>, budget: real, cap: nat)
    requires Free(free) && Stairs(stairs) && budget >= 1.0 && cap >= 1 && |stairs| <= cap + 1
    ensures !EarlierOverflows(free + stairs, |free + stairs|, |free| + 1, budget, cap)
  {
    var pool: seq<CandidateItem> := free + stairs;
    forall i, k | 0 <= i <= |pool| && 0 < k <= |free| + 1 && (i < |pool| || k < |free| + 1)
      ensures !LevelOverflows(pool[..i], k, budget, cap)
    {
      KitLevelFits(free, stairs, i, k, budget, cap);
    }
  }

  lemma {:induction false} NoDominators(s: seq<CandidateItem>, x: CandidateItem)
    requires forall y | y in s :: !Dominates(y, x)
    ensures DominatorCount(s, x) == 0
  {
    if s != [] {
      assert s == s[..|s| - 1] + [s[|s| - 1]];
      NoDominators(s[..|s| - 1], x);
    }
  }

  lemma StairsDominateNothing(free: seq<CandidateItem>, stairs: seq<CandidateItem>, y: CandidateItem, x: CandidateItem)
    requires Free(free) && Stairs(stairs) && y in stairs && x in free + stairs
    ensures !Dominates(y, x)
  {
    var u := IndexOf(stairs, y);
    if x in stairs {
      var v := IndexOf(stairs, x);
      assert u < v || u == v || v < u;
    } else {
      assert x in free;
    }
  }

  /** Nothing is pruned: only the free listings dominate a stair, one fewer than the slots. */
  lemma KitSurvives(free: seq<CandidateItem>, stairs: seq<CandidateItem>, x: CandidateItem)
    requires Free(free) && Stairs(stairs) && x in free + stairs
    ensures Survives(free + stairs, |free| + 1, x)
  {
    DominatorCountAppend(free, stairs, x);
    forall y | y in stairs ensures !Dominates(y, x) {
      StairsDominateNothing(free, stairs, y, x);
    }
    NoDominators(stairs, x);
  }

  lemma KitIsSorted(free: seq<CandidateItem>, stairs: seq<CandidateItem>)
    requires Free(free) && Stairs(stairs) && forall i, j | 0 <= i < j < |free| :: free[i].id <= free[j].id
    ensures SortedSurvivors(free + stairs, |free| + 1) == free + stairs
  {
    var pool: seq<CandidateItem> := free + stairs;
    forall x: CandidateItem ensures
      multiset(pool)[x] == if Survives(pool, |free| + 1, x) then multiset(pool)[x] else 0
    {
      if x in pool {
        KitSurvives(free, stairs, x);
      }
    }
    SurvivorsAreSorted(pool, pool, |free| + 1);
  }

  // ----- a market for every cap

  /** Stair `u` costs `u + 1` and has float `1 / (u + 1)`. */
  function Staircase(first: int, n: nat): (s: seq<CandidateItem>)
    ensures |s| == n && forall u | 0 <= u < n :: s[u].id == first + u && s[u].cost == u + 1
    ensures forall u | 0 <= u < n :: s[u].normalized == 1.0 / (u + 1) as real
  {
    seq(n, u requires 0 <= u < n => var x: CandidateItem := Listing(first + u, 1.0 / (u + 1) as real, u + 1); x)
  }

  lemma Reciprocals(a: real, b: real)
    requires 0.0 < a < b
    ensures 1.0 / a > 1.0 / b
  {
    var x, y := 1.0 / a, 1.0 / b;
    assert x * a == 1.0 && y * b == 1.0;
    assert y > 0.0;
    StrictProduct(a, b, y);
    assert a * y == y * a && b * y == y * b;
    if x <= y {
      ProductMonotone(x, y, a);
    }
  }

  lemma StaircaseIsStairs(first: int, n: nat)
    ensures Stairs(Staircase(first, n))
  {
    var s := Staircase(first, n);
    forall i, j | 0 <= i < j < |s| ensures s[i].normalized > s[j].normalized {
      Reciprocals((i + 1) as real, (j + 1) as real);
    }
  }

  /** All slots but one can be filled for nothing; `cap + 1` stairs compete for the last. */
  function Kit(slots: nat, cap: nat): (pool: seq<CandidateItem>)
    requires slots > 0
    ensures |pool| == slots + cap && forall i | 0 <= i < |pool| :: pool[i].id == i
  {
    Uniform(0, slots - 1, 0.0, 0) + Staircase(slots - 1, cap + 1)
  }

  function KitMarket(counts: Composition, c: int, cap: nat): Market
    requires c in counts
  {
    map[c := Kit(counts[c], cap)]
  }

  lemma LoneKey(counts: Composition, c: int)
    requires |counts| == 1 && c in counts
    ensures SortedKeys(counts.Keys) == [c]
  {
    var keys := SortedKeys(counts.Keys);
    assert |keys| == |counts.Keys| == |counts| && c in counts.Keys;
    assert c in keys;
  }

  /** Every bundle takes a stair. */
  lemma KitCosts(counts: Composition, c: int, cap: nat, budget: real, parts: Market)
    requires |counts| == 1 && c in counts && Feasible(counts, KitMarket(counts, c, cap), budget, parts)
    ensures Cost(Listings(counts, parts)) >= 1
  {
    LoneKey(counts, c);
    var free, stairs := Uniform(0, counts[c] - 1, 0.0, 0), Staircase(counts[c] - 1, cap + 1);
    assert Listings(counts, parts) == Pool(parts, c) by { LonePool(c, parts); }
    assert Selection(Pool(parts, c), |free| + 1, free + stairs);
    var u := SomeStair(Pool(parts, c), free, stairs);
  }

  lemma LonePool(c: int, parts: Market)
    ensures Flatten([c], parts) == Pool(parts, c)
  {
    assert [c][..0] == [] && Flatten([], parts) == [];
  }

  function CheapParts(counts: Composition, c: int): Market
    requires c in counts
  {
    map[c := Uniform(0, counts[c] - 1, 0.0, 0) + [Staircase(counts[c] - 1, 1)[0]]]
  }

  lemma CheapPartsFill(counts: Composition, c: int, cap: nat)
    requires c in counts
    ensures Fills([c], counts, KitMarket(counts, c, cap), CheapParts(counts, c))
  {
    var free, stairs := Uniform(0, counts[c] - 1, 0.0, 0), Staircase(counts[c] - 1, cap + 1);
    var first := Staircase(counts[c] - 1, 1)[0];
    assert stairs == [first] + stairs[1..];
    assert free + stairs == free + [first] + stairs[1..];
  }

  /** Taking the first stair is a bundle of cost one. */
  lemma CheapPartsCostOne(counts: Composition, c: int, cap: nat, budget: real)
    requires |counts| == 1 && c in counts && budget >= 1.0
    ensures Feasible(counts, KitMarket(counts, c, cap), budget, CheapParts(counts, c))
    ensures Cost(Listings(counts, CheapParts(counts, c))) == 1
  {
    LoneKey(counts, c);
    LonePool(c, CheapParts(counts, c));
    CheapPartsFill(counts, c, cap);
    OneMoreTotals(Uniform(0, counts[c] - 1, 0.0, 0), Staircase(counts[c] - 1, 1)[0]);
  }

  lemma KitCheapest(counts: Composition, c: int, cap: nat, budget: real)
    requires |counts| == 1 && c in counts && budget >= 1.0
    ensures CheapestPrice(counts, KitMarket(counts, c, cap), budget, 1)
  {
    CheapPartsCostOne(counts, c, cap, budget);
    forall other | Feasible(counts, KitMarket(counts, c, cap), budget, other)
      ensures Cost(Listings(counts, other)) >= 1
    {
      KitCosts(counts, c, cap, budget, other);
    }
  }

  lemma LoneOverflowsEarly(counts: Composition, c: int, market: Market, budget: real, cap: nat)
    requires |counts| == 1 && c in counts
    requires !CollectionOverflowsEarly(Pool(market, c), counts[c], budget, cap)
    ensures !OverflowsEarly(counts, market, budget, cap)
  {
    LoneKey(counts, c);
  }

  lemma KitFits(slots: nat, budget: real, cap: nat)
    requires slots > 0 && budget >= 1.0 && cap >= 1
    ensures !CollectionOverflowsEarly(Kit(slots, cap), slots, budget, cap)
  {
    var free, stairs := Uniform(0, slots - 1, 0.0, 0), Staircase(slots - 1, cap + 1);
    StaircaseIsStairs(slots - 1, cap + 1);
    KitIsSorted(free, stairs);
    KitFitsEarly(free, stairs, budget, cap);
  }

  lemma KitOverflowsLast(counts: Composition, c: int, cap: nat, budget: real)
    requires |counts| == 1 && c in counts && budget >= 1.0
    ensures FoldOverflows(SortedKeys(counts.Keys), counts, KitMarket(counts, c, cap), budget, cap)
  {
    var free, stairs := Uniform(0, counts[c] - 1, 0.0, 0), Staircase(counts[c] - 1, cap + 1);
    LoneKey(counts, c);
    StaircaseIsStairs(counts[c] - 1, cap + 1);
    StairLevel(free, stairs, budget);
    LevelIsFold(StairPoints(free, stairs), c, counts, KitMarket(counts, c, cap), budget);
  }

  lemma KitIsAnswered(counts: Composition, c: int, cap: nat, budget: real, r: Option<BundleSolution>)
    requires |counts| == 1 && c in counts && budget >= 1.0
    requires Promised(counts, KitMarket(counts, c, cap), budget, cap, r)
    ensures r.Some?
  {
    CheapPartsCostOne(counts, c, cap, budget);
  }

  lemma KitListsNothingTwice(slots: nat, cap: nat)
    requires slots > 0
    ensures Distinct(Identities(Kit(slots, cap)))
  {
  }

  lemma CheaperThanDear(counts: Composition, market: Market, budget: real, price: int)
    requires CheapestPrice(counts, market, budget, 1) && CheaperExists(counts, market, budget, price)
    ensures price >= 2
  {
  }

  /** The solver cuts the cheap end of the stairs. */
  lemma KitIsOverpaid(counts: Composition, c: int, cap: nat, budget: real, b: BundleSolution)
    requires |counts| == 1 && c in counts && cap >= 1 && budget >= 1.0
    requires Promised(counts, KitMarket(counts, c, cap), budget, cap, Option.Some(b))
    ensures CheaperExists(counts, KitMarket(counts, c, cap), budget, b.totalCost)
  {
    KitFits(counts[c], budget, cap);
    LoneOverflowsEarly(counts, c, KitMarket(counts, c, cap), budget, cap);
    KitOverflowsLast(counts, c, cap, budget);
    BestExactlyWhenLastFits(counts, KitMarket(counts, c, cap), budget, cap, b);
  }

  /**
   For every cap and every contract drawn from one collection there is a market, listing nothing twice, on which the
   answer costs at least twice the cheapest bundle.
   */
  lemma EveryCapLoses(counts: Composition, c: int, cap: nat, budget: real, r: Option<BundleSolution>)
    requires |counts| == 1 && c in counts && cap >= 1 && budget >= 1.0
    requires Promised(counts, KitMarket(counts, c, cap), budget, cap, r)
    ensures r.Some? && r.value.totalCost >= 2
    ensures CheapestPrice(counts, KitMarket(counts, c, cap), budget, 1)
    ensures Distinct(Identities(KitMarket(counts, c, cap)[c]))
  {
    KitIsAnswered(counts, c, cap, budget, r);
    KitIsOverpaid(counts, c, cap, budget, r.value);
    KitListsNothingTwice(counts[c], cap);
    KitCheapest(counts, c, cap, budget);
    CheaperThanDear(counts, KitMarket(counts, c, cap), budget, r.value.totalCost);
  }
}
