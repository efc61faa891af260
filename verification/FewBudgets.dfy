/**
 The claim behind src/tradeup/discovery/boundaries.py: solving at a handful of float budgets is enough.
 It is proved for exactly the averages it holds for, over every market.
 */
module FewBudgets {
  import opened Boundaries
  import opened Bundle
  import opened BundleCorollaries
  import opened Pareto
  import opened Rounding
  import opened Sorting
  import opened Wear
  import opened Wrappers

  lemma {:induction false} FloatAtMostSize(s: seq<CandidateItem>)
    ensures 0.0 <= Float(s) <= |s| as real
  {
    if s != [] {
      FloatAtMostSize(s[1..]);
    }
  }

  /** Every way of filling the contract, whatever its float. */
  ghost predicate FillsContract(counts: Composition, market: Market, parts: Market) {
    Fills(SortedKeys(counts.Keys), counts, market, parts)
  }

  ghost function BundleMean(counts: Composition, parts: Market): real {
    SomeInput(counts);
    Mean(Float(Listings(counts, parts)), TotalInputs(counts))
  }

  lemma MeanInUnit(total: real, n: nat)
    requires n > 0 && 0.0 <= total <= n as real
    ensures 0.0 <= Mean(total, n) <= 1.0
  {
    MeanWithin(total, 1.0, n);
  }

  lemma BundleMeanInUnit(counts: Composition, market: Market, parts: Market)
    requires FillsContract(counts, market, parts)
    ensures 0.0 <= BundleMean(counts, parts) <= 1.0
  {
    SomeInput(counts);
    BundleSize(SortedKeys(counts.Keys), counts, market, parts);
    FloatAtMostSize(Listings(counts, parts));
    MeanInUnit(Float(Listings(counts, parts)), TotalInputs(counts));
  }

  /** At average `z'` every output lands in a wear band no worse than at average `z`. */
  ghost predicate NoMoreWear(ranges: seq<FloatRange>, z': real, z: real) {
    forall r | r in ranges :: NoMoreWorn(ClassifyWear(Project(z', r)), ClassifyWear(Project(z, r)))
  }

  /** The same for the rendered outputs, as the pipeline values them. */
  ghost predicate NoMoreRenderedWear(ranges: seq<FloatRange>, z': real, z: real) {
    forall r | r in ranges :: NoMoreWorn(RenderedWear(z', r), RenderedWear(z, r))
  }

  /** The solved bundle costs no more than `cost` and wears no output more than average `z` does. */
  ghost predicate AsGood(ranges: seq<FloatRange>, counts: Composition, r: Option<BundleSolution>, cost: int, z: real) {
    SomeInput(counts);
    && r.Some? && r.value.totalCost <= cost
    && NoMoreWear(ranges, Mean(r.value.totalNormalized, TotalInputs(counts)), z)
  }

  /** An exact solve at a budget at or above a bundle's average costs no more, and keeps within the budget. */
  lemma SolvedAtBudget(counts: Composition, market: Market, parts: Market, total: real,
                       r: Option<BundleSolution>)
    requires FillsContract(counts, market, parts) && Float(Listings(counts, parts)) <= total
    requires Solves(counts, market, total, r, true)
    ensures r.Some? && r.value.totalCost <= Cost(Listings(counts, parts))
    ensures 0.0 <= r.value.totalNormalized <= total && r.value.totalNormalized <= TotalInputs(counts) as real
  {
    NoDearer(counts, market, total, parts, r);
    BoughtFloat(counts, market, total, r.value);
  }

  lemma NoDearer(counts: Composition, market: Market, total: real, parts: Market, r: Option<BundleSolution>)
    requires Feasible(counts, market, total, parts) && Solves(counts, market, total, r, true)
    ensures r.Some? && r.value.totalCost <= Cost(Listings(counts, parts))
  {
    assert r.Some?;
    assert NoBetter(counts, market, total, r.value, parts);
  }

  lemma BoughtFloat(counts: Composition, market: Market, total: real, b: BundleSolution)
    requires Solves(counts, market, total, Option.Some(b), true)
    ensures 0.0 <= b.totalNormalized <= total && b.totalNormalized <= TotalInputs(counts) as real
  {
    var bought :| Feasible(counts, market, total, bought) && Buys(b, Listings(counts, bought));
    BundleSize(SortedKeys(counts.Keys), counts, market, bought);
    FloatAtMostSize(Listings(counts, bought));
  }

  /** The total float budget for an average of `budget`. */
  ghost predicate IsTotal(total: real, budget: real, counts: Composition) {
    total == Spread(budget, TotalInputs(counts))
  }

  lemma TotalAndMean(x: real, total: real, budget: real, counts: Composition)
    requires IsTotal(total, budget, counts)
    ensures TotalInputs(counts) > 0 && (x <= total <==> Mean(x, TotalInputs(counts)) <= budget)
  {
    SomeInput(counts);
    MeanWithin(x, budget, TotalInputs(counts));
  }

  /** A budget that serves a bundle's average yields a solved bundle as cheap and as unworn. */
  lemma ServedBundleIsMatched(ranges: seq<FloatRange>, counts: Composition, market: Market, parts: Market,
                              budget: real, total: real, r: Option<BundleSolution>)
    requires FillsContract(counts, market, parts)
    requires ServedBy(Breakpoints(ranges), BundleMean(counts, parts), budget)
    requires IsTotal(total, budget, counts) && Solves(counts, market, total, r, true)
    ensures AsGood(ranges, counts, r, Cost(Listings(counts, parts)), BundleMean(counts, parts))
    ensures Mean(r.value.totalNormalized, TotalInputs(counts)) <= budget
  {
    var z := BundleMean(counts, parts);
    TotalAndMean(Float(Listings(counts, parts)), total, budget, counts);
    SolvedAtBudget(counts, market, parts, total, r);
    TotalAndMean(r.value.totalNormalized, total, budget, counts);
    BundleMeanInUnit(counts, market, parts);
    MeanInUnit(r.value.totalNormalized, TotalInputs(counts));
    var z' := Mean(r.value.totalNormalized, TotalInputs(counts));
    forall range | range in ranges
      ensures NoMoreWorn(ClassifyWear(Project(z', range)), ClassifyWear(Project(z, range)))
    {
      NoCrossingNoWear(ranges, range, z, z');
    }
  }

  /** Whatever the market, some exact solve at one of the budgets is as good as any bundle of average `z`. */
  ghost predicate WellServed(ranges: seq<FloatRange>, counts: Composition, budgets: set<real>, z: real) {
    forall market :: WellServedOn(ranges, counts, market, budgets, z)
  }

  /** The same, of markets that list nothing twice only. */
  ghost predicate WellServedByListings(ranges: seq<FloatRange>, counts: Composition, budgets: set<real>, z: real) {
    forall market | Distinct(Identities(Offer(counts, market))) :: WellServedOn(ranges, counts, market, budgets, z)
  }

  ghost predicate WellServedOn(ranges: seq<FloatRange>, counts: Composition, market: Market, budgets: set<real>,
                               z: real)
  {
    forall parts, results | IsCase(counts, market, parts, results, budgets, z) ::
      SomeAsGood(ranges, counts, budgets, results, Cost(Listings(counts, parts)), z)
  }

  /** A bundle of average `z`, and one exact answer per budget. */
  ghost predicate IsCase(counts: Composition, market: Market, parts: Market, results: map<real, Option<BundleSolution>>,
                         budgets: set<real>, z: real)
  {
    && budgets <= results.Keys && (forall b | b in budgets :: SolvedAt(counts, market, b, results[b]))
    && FillsContract(counts, market, parts) && BundleMean(counts, parts) == z
  }

  ghost predicate SolvedAt(counts: Composition, market: Market, b: real, r: Option<BundleSolution>) {
    exists total :: IsTotal(total, b, counts) && Solves(counts, market, total, r, true)
  }

  ghost predicate SomeAsGood(ranges: seq<FloatRange>, counts: Composition, budgets: set<real>,
                             results: map<real, Option<BundleSolution>>, cost: int, z: real)
    requires budgets <= results.Keys
  {
    exists b | b in budgets :: AsGood(ranges, counts, results[b], cost, z)
  }

  lemma ServedIsWellServed(ranges: seq<FloatRange>, counts: Composition, budgets: set<real>, z: real)
    requires Served(Breakpoints(ranges), budgets, z)
    ensures WellServed(ranges, counts, budgets, z)
  {
    var budget :| budget in budgets && ServedBy(Breakpoints(ranges), z, budget);
    forall market ensures WellServedOn(ranges, counts, market, budgets, z) {
      forall parts, results | IsCase(counts, market, parts, results, budgets, z)
        ensures SomeAsGood(ranges, counts, budgets, results, Cost(Listings(counts, parts)), z)
      {
        assert SolvedAt(counts, market, budget, results[budget]);
        var total :| IsTotal(total, budget, counts) && Solves(counts, market, total, results[budget], true);
        ServedBundleIsMatched(ranges, counts, market, parts, budget, total, results[budget]);
      }
    }
  }

  // ----- and no other average is served

  /** The listing numbers a market has used up before the collections after `keys`. */
  function Offset(keys: seq<int>, counts: Composition): nat {
    2 * CountsOver(keys, counts)
  }

  function DearAndCheap(first: int, n: nat, z: real, next: real): seq<CandidateItem>
    requires 0.0 <= z <= 1.0 && 0.0 <= next <= 1.0
  {
    Uniform(first, n, z, 5) + Uniform(first + n, n, next, 1)
  }

  /** In every collection as many dear listings of float `z` as the contract needs, and as many cheap ones of `next`. */
  ghost function UndercutMarket(keys: seq<int>, counts: Composition, z: real, next: real): Market
    requires 0.0 <= z <= 1.0 && 0.0 <= next <= 1.0
  {
    if keys == [] then map[]
    else
      var init, c := keys[..|keys| - 1], keys[|keys| - 1];
      var first, n := Offset(init, counts), Count(counts, c);
      UndercutMarket(init, counts, z, next)[c := DearAndCheap(first, n, z, next)]
  }

  /** The dear listings of one collection, or the cheap ones. */
  function Half(first: int, n: nat, z: real, next: real, cheap: bool): (s: seq<CandidateItem>)
    requires 0.0 <= z <= 1.0 && 0.0 <= next <= 1.0
  {
    if cheap then Uniform(first + n, n, next, 1) else Uniform(first, n, z, 5)
  }

  ghost function Halves(keys: seq<int>, counts: Composition, z: real, next: real, cheap: bool): Market
    requires 0.0 <= z <= 1.0 && 0.0 <= next <= 1.0
  {
    if keys == [] then map[]
    else
      var init, c := keys[..|keys| - 1], keys[|keys| - 1];
      Halves(init, counts, z, next, cheap)[c := Half(Offset(init, counts), Count(counts, c), z, next, cheap)]
  }

  function Uniform(first: int, n: nat, z: real, cost: nat): (s: seq<CandidateItem>)
    requires 0.0 <= z <= 1.0
    ensures |s| == n && forall i | 0 <= i < n :: s[i] == Listing(first + i, z, cost)
  {
    seq(n, i => Listing(first + i, z, cost))
  }

  lemma {:induction false} UniformTotals(first: int, n: nat, z: real, cost: nat)
    requires 0.0 <= z <= 1.0
    ensures Float(Uniform(first, n, z, cost)) == Spread(z, n) && Cost(Uniform(first, n, z, cost)) == cost * n
    decreases n
  {
    if n > 0 {
      UniformTotals(first + 1, n - 1, z, cost);
      assert Uniform(first, n, z, cost)[1..] == Uniform(first + 1, n - 1, z, cost);
      SpreadAdds(z, 1, n - 1);
    }
  }

  lemma SpreadAdds(z: real, m: nat, n: nat)
    ensures Spread(z, m) + Spread(z, n) == Spread(z, m + n)
    ensures Spread(z, 1) == z
  {
  }

  lemma NewKeyKeepsPools(keys: seq<int>, c: int, m: Market, pool: seq<CandidateItem>)
    requires c !in keys
    ensures Flatten(keys, m[c := pool]) == Flatten(keys, m)
  {
    FlattenLocal(keys, m[c := pool], m);
  }

  lemma LastIsNew(keys: seq<int>)
    requires keys != [] && Ascending(keys)
    ensures keys[|keys| - 1] !in keys[..|keys| - 1] && Ascending(keys[..|keys| - 1])
  {
  }

  /** The listings on offer are numbered in order, so none occurs twice, and are of the two kinds only. */
  lemma {:induction false} UndercutOffer(keys: seq<int>, counts: Composition, z: real, next: real)
    requires Ascending(keys) && 0.0 <= z <= 1.0 && 0.0 <= next <= 1.0
    ensures var offer := Flatten(keys, UndercutMarket(keys, counts, z, next));
            && |offer| == Offset(keys, counts)
            && (forall i | 0 <= i < |offer| :: offer[i].id == i && IsKind(offer[i], z, next))
  {
    if keys != [] {
      var init, c := keys[..|keys| - 1], keys[|keys| - 1];
      var first, n := Offset(init, counts), Count(counts, c);
      LastIsNew(keys);
      UndercutOffer(init, counts, z, next);
      NewKeyKeepsPools(init, c, UndercutMarket(init, counts, z, next), DearAndCheap(first, n, z, next));
    }
  }

  predicate IsKind(x: CandidateItem, z: real, next: real) {
    (x.normalized == z && x.cost == 5) || (x.normalized == next && x.cost == 1)
  }

  ghost predicate HalfTotalled(s: seq<CandidateItem>, n: nat, z: real, next: real, cheap: bool) {
    if cheap then Float(s) == Spread(next, n) && Cost(s) == n else Float(s) == Spread(z, n) && Cost(s) == 5 * n
  }

  lemma HalfOf(first: int, n: nat, z: real, next: real, cheap: bool)
    requires 0.0 <= z <= 1.0 && 0.0 <= next <= 1.0
    ensures HalfTotalled(Half(first, n, z, next, cheap), n, z, next, cheap)
    ensures Selection(Half(first, n, z, next, cheap), n, DearAndCheap(first, n, z, next))
  {
    UniformTotals(first, n, z, 5);
    UniformTotals(first + n, n, next, 1);
  }

  lemma {:induction false} HalfTotals(keys: seq<int>, counts: Composition, z: real, next: real, cheap: bool)
    requires Ascending(keys) && 0.0 <= z <= 1.0 && 0.0 <= next <= 1.0
    ensures HalfTotalled(Flatten(keys, Halves(keys, counts, z, next, cheap)), CountsOver(keys, counts), z, next, cheap)
  {
    if keys == [] {
      assert Spread(z, 0) == 0.0 && Spread(next, 0) == 0.0;
    } else {
      var init, c := keys[..|keys| - 1], keys[|keys| - 1];
      var n, before := Count(counts, c), Halves(init, counts, z, next, cheap);
      var half := Half(Offset(init, counts), n, z, next, cheap);
      LastIsNew(keys);
      HalfTotals(init, counts, z, next, cheap);
      HalfOf(Offset(init, counts), n, z, next, cheap);
      NewKeyKeepsPools(init, c, before, half);
      assert Flatten(keys, Halves(keys, counts, z, next, cheap)) == Flatten(init, before) + half;
      AddTotals(Flatten(init, before), half, CountsOver(init, counts), n, z, next, cheap, CountsOver(keys, counts));
    }
  }

  lemma AddTotals(a: seq<CandidateItem>, b: seq<CandidateItem>, m: nat, n: nat, z: real, next: real, cheap: bool,
                  total: nat)
    requires HalfTotalled(a, m, z, next, cheap) && HalfTotalled(b, n, z, next, cheap) && total == m + n
    ensures HalfTotalled(a + b, total, z, next, cheap)
  {
    TotalsAppend(a, b);
    SpreadAdds(z, m, n);
    SpreadAdds(next, m, n);
  }

  /** Each half of the market fills the contract. */
  lemma {:induction false} HalfFills(keys: seq<int>, counts: Composition, z: real, next: real, cheap: bool)
    requires Ascending(keys) && 0.0 <= z <= 1.0 && 0.0 <= next <= 1.0
    ensures Fills(keys, counts, UndercutMarket(keys, counts, z, next), Halves(keys, counts, z, next, cheap))
  {
    if keys != [] {
      var init, c := keys[..|keys| - 1], keys[|keys| - 1];
      var first, n := Offset(init, counts), Count(counts, c);
      LastIsNew(keys);
      HalfFills(init, counts, z, next, cheap);
      HalfOf(first, n, z, next, cheap);
      FillsOneMore(init, c, counts, UndercutMarket(init, counts, z, next), Halves(init, counts, z, next, cheap),
                   DearAndCheap(first, n, z, next), Half(first, n, z, next, cheap));
      OneMoreCollection(init, c, counts, z, next, cheap);
      assert init + [c] == keys;
    }
  }

  lemma OneMoreCollection(init: seq<int>, c: int, counts: Composition, z: real, next: real, cheap: bool)
    requires 0.0 <= z <= 1.0 && 0.0 <= next <= 1.0
    ensures UndercutMarket(init + [c], counts, z, next)
         == UndercutMarket(init, counts, z, next)[c := DearAndCheap(Offset(init, counts), Count(counts, c), z, next)]
    ensures Halves(init + [c], counts, z, next, cheap)
         == Halves(init, counts, z, next, cheap)[c := Half(Offset(init, counts), Count(counts, c), z, next, cheap)]
  {
    assert (init + [c])[..|init|] == init;
  }

  lemma FillsOneMore(keys: seq<int>, c: int, counts: Composition, market: Market, parts: Market,
                     pool: seq<CandidateItem>, part: seq<CandidateItem>)
    requires c !in keys && Fills(keys, counts, market, parts) && Selection(part, Count(counts, c), pool)
    ensures Fills(keys + [c], counts, market[c := pool], parts[c := part])
  {
    forall i | 0 <= i < |keys|
      ensures Pool(parts[c := part], keys[i]) == Pool(parts, keys[i])
      ensures Pool(market[c := pool], keys[i]) == Pool(market, keys[i])
    {
      assert keys[i] in keys;
    }
  }

  /** What a choice from the two kinds comes to: every unit of float below `next` costs more. */
  lemma {:induction false} KindTotals(s: seq<CandidateItem>, z: real, next: real)
    requires z <= next && forall i | 0 <= i < |s| :: IsKind(s[i], z, next)
    ensures Float(s) >= Spread(z, |s|) && Cost(s) >= |s|
    ensures Cost(s) == |s| ==> Float(s) == Spread(next, |s|)
  {
    if s != [] {
      KindTotals(s[1..], z, next);
      SpreadAdds(z, 1, |s| - 1);
      SpreadAdds(next, 1, |s| - 1);
    } else {
      assert Spread(z, 0) == 0.0 && Spread(next, 0) == 0.0;
    }
  }

  /** Every way of filling the contract from the market. */
  lemma AnyFill(counts: Composition, z: real, next: real, parts: Market)
    requires 0.0 <= z <= next <= 1.0
    requires FillsContract(counts, UndercutMarket(SortedKeys(counts.Keys), counts, z, next), parts)
    ensures var s, n := Listings(counts, parts), TotalInputs(counts);
            && Float(s) >= Spread(z, n) && Cost(s) >= n
            && (Cost(s) == n ==> Float(s) == Spread(next, n))
  {
    var keys := SortedKeys(counts.Keys);
    var market := UndercutMarket(keys, counts, z, next);
    var s, offer := Listings(counts, parts), Flatten(keys, market);
    BundleSize(keys, counts, market, parts);
    PartsWithinOffer(keys, counts, market, parts);
    UndercutOffer(keys, counts, z, next);
    forall i | 0 <= i < |s| ensures IsKind(s[i], z, next) {
      assert s[i] in multiset(s) && s[i] in multiset(offer);
      var k := IndexOf(offer, s[i]);
    }
    KindTotals(s, z, next);
  }

  lemma SpreadStrict(b: real, z: real, n: nat)
    requires b < z && n > 0
    ensures Spread(b, n) < Spread(z, n)
  {
    StrictProduct(b, z, n as real);
  }

  lemma SpreadMonotone(z: real, b: real, n: nat)
    requires z <= b
    ensures Spread(z, n) <= Spread(b, n)
  {
    ProductMonotone(z, b, n as real);
  }

  /** A budget below `z` buys nothing. */
  lemma TooTight(counts: Composition, z: real, next: real, b: real, total: real)
    requires 0.0 <= z <= next <= 1.0 && b < z && IsTotal(total, b, counts)
    ensures Solves(counts, UndercutMarket(SortedKeys(counts.Keys), counts, z, next), total, None, true)
  {
    var market := UndercutMarket(SortedKeys(counts.Keys), counts, z, next);
    SomeInput(counts);
    SpreadStrict(b, z, TotalInputs(counts));
    forall parts ensures !Feasible(counts, market, total, parts) {
      if FillsContract(counts, market, parts) {
        AnyFill(counts, z, next, parts);
      }
    }
  }

  /** What a budget at or above `next` buys: the cheap half. */
  ghost function CheapHalf(counts: Composition, z: real, next: real, total: real): BundleSolution
    requires 0.0 <= z <= 1.0 && 0.0 <= next <= 1.0
  {
    var keys := SortedKeys(counts.Keys);
    BundleSolution(Identities(Flatten(keys, Halves(keys, counts, z, next, true))), TotalInputs(counts),
                   Spread(next, TotalInputs(counts)), total)
  }

  lemma CheapHalfIsBought(counts: Composition, z: real, next: real, b: real, total: real)
    requires 0.0 <= z <= next <= 1.0 && b >= next && IsTotal(total, b, counts)
    ensures Solves(counts, UndercutMarket(SortedKeys(counts.Keys), counts, z, next), total,
                   Option.Some(CheapHalf(counts, z, next, total)), true)
  {
    var market := UndercutMarket(SortedKeys(counts.Keys), counts, z, next);
    CheapHalfFits(counts, z, next, b, total);
    forall other ensures NoBetter(counts, market, total, CheapHalf(counts, z, next, total), other) {
      if Feasible(counts, market, total, other) {
        AnyFill(counts, z, next, other);
      }
    }
  }

  lemma CheapHalfFits(counts: Composition, z: real, next: real, b: real, total: real)
    requires 0.0 <= z <= next <= 1.0 && b >= next && IsTotal(total, b, counts)
    ensures var keys := SortedKeys(counts.Keys);
            var market, parts := UndercutMarket(keys, counts, z, next), Halves(keys, counts, z, next, true);
            Feasible(counts, market, total, parts) && Buys(CheapHalf(counts, z, next, total), Listings(counts, parts))
  {
    HalfFills(SortedKeys(counts.Keys), counts, z, next, true);
    CheapTotals(counts, z, next);
    SpreadMonotone(next, b, TotalInputs(counts));
  }

  lemma CheapTotals(counts: Composition, z: real, next: real)
    requires 0.0 <= z <= next <= 1.0
    ensures var s := Listings(counts, Halves(SortedKeys(counts.Keys), counts, z, next, true));
            Float(s) == Spread(next, TotalInputs(counts)) && Cost(s) == TotalInputs(counts)
  {
    HalfTotals(SortedKeys(counts.Keys), counts, z, next, true);
  }

  lemma MeanOfSpread(z: real, n: nat)
    requires n > 0
    ensures Mean(Spread(z, n), n) == z
  {
  }

  ghost function UndercutResults(counts: Composition, budgets: set<real>, z: real, next: real)
      : map<real, Option<BundleSolution>>
    requires 0.0 <= z <= 1.0 && 0.0 <= next <= 1.0
  {
    map b | b in budgets ::
      if b < z then None else Option.Some(CheapHalf(counts, z, next, Spread(b, TotalInputs(counts))))
  }

  lemma UndercutIsCase(counts: Composition, budgets: set<real>, z: real, next: real)
    requires 0.0 <= z <= next <= 1.0 && forall b | b in budgets :: b < z || b >= next
    ensures IsCase(counts, UndercutMarket(SortedKeys(counts.Keys), counts, z, next),
                   Halves(SortedKeys(counts.Keys), counts, z, next, false),
                   UndercutResults(counts, budgets, z, next), budgets, z)
  {
    var keys := SortedKeys(counts.Keys);
    var market, results := UndercutMarket(keys, counts, z, next), UndercutResults(counts, budgets, z, next);
    forall b | b in budgets ensures SolvedAt(counts, market, b, results[b]) {
      var total := Spread(b, TotalInputs(counts));
      assert IsTotal(total, b, counts);
      if b < z {
        TooTight(counts, z, next, b, total);
      } else {
        CheapHalfIsBought(counts, z, next, b, total);
      }
    }
    HalfFills(keys, counts, z, next, false);
    HalfTotals(keys, counts, z, next, false);
    SomeInput(counts);
    MeanOfSpread(z, TotalInputs(counts));
  }

  /** What such a market sells at any of the budgets is worse than the dear half. */
  lemma UndercutIsWorse(ranges: seq<FloatRange>, counts: Composition, budgets: set<real>, z: real, next: real, b: real,
                        cost: int)
    requires 0.0 <= z <= next <= 1.0 && b in budgets && (b < z || (z < next && next in Breakpoints(ranges)))
    ensures !AsGood(ranges, counts, UndercutResults(counts, budgets, z, next)[b], cost, z)
  {
    SomeInput(counts);
    MeanOfSpread(next, TotalInputs(counts));
    if b >= z {
      var r := CrossingWears(ranges, next, z, next);
    }
  }

  /**
   A market with distinct listings on which the dear half has average `z` and no budget does as well: either none
   reaches `z`, or each that does also admits the cheap half, which lies on the next breakpoint.
   */
  lemma Undercut(ranges: seq<FloatRange>, counts: Composition, budgets: set<real>, z: real, next: real)
    requires 0.0 <= z <= next <= 1.0 && forall b | b in budgets :: b < z || b >= next
    requires (z < next && next in Breakpoints(ranges)) || forall b | b in budgets :: b < z
    ensures !WellServedByListings(ranges, counts, budgets, z)
  {
    var keys := SortedKeys(counts.Keys);
    var market := UndercutMarket(keys, counts, z, next);
    var parts, results := Halves(keys, counts, z, next, false), UndercutResults(counts, budgets, z, next);
    UndercutOffer(keys, counts, z, next);
    assert Distinct(Identities(Offer(counts, market)));
    UndercutIsCase(counts, budgets, z, next);
    forall b | b in budgets ensures !AsGood(ranges, counts, results[b], Cost(Listings(counts, parts)), z) {
      UndercutIsWorse(ranges, counts, budgets, z, next, b, Cost(Listings(counts, parts)));
    }
    assert !SomeAsGood(ranges, counts, budgets, results, Cost(Listings(counts, parts)), z);
    assert !WellServedOn(ranges, counts, market, budgets, z);
  }

  /**
   The exact reach of a set of budgets, for any contract: over every market, the solved bundles match any bundle
   of average `z` on cost and wear if and only if some budget at or above `z` has no breakpoint in between.  When
   none has, a market that lists nothing twice already shows it.
   */
  lemma FewBudgetsSufficeExactly(ranges: seq<FloatRange>, counts: Composition, budgets: set<real>, z: real)
    requires 0.0 <= z <= 1.0
    ensures WellServed(ranges, counts, budgets, z) <==> Served(Breakpoints(ranges), budgets, z)
    ensures WellServedByListings(ranges, counts, budgets, z) <==> Served(Breakpoints(ranges), budgets, z)
  {
    var breakpoints := Breakpoints(ranges);
    if Served(breakpoints, budgets, z) {
      ServedIsWellServed(ranges, counts, budgets, z);
    } else if exists b | b in breakpoints :: b > z {
      var next := NextBreakpoint(breakpoints, z);
      BreakpointsInUnit(ranges);
      forall b | b in budgets ensures b < z || b >= next {
        assert !ServedBy(breakpoints, z, b);
      }
      Undercut(ranges, counts, budgets, z, next);
    } else {
      forall b | b in budgets ensures b < z {
        assert !ServedBy(breakpoints, z, b);
      }
      Undercut(ranges, counts, budgets, z, z);
    }
  }

  /** Outside the EPSILON gaps the candidate budgets serve every bundle, in the wear the pipeline renders. */
  lemma CandidateBudgetsSuffice(ranges: seq<FloatRange>, counts: Composition, market: Market, parts: Market)
      returns (budget: real)
    requires FillsContract(counts, market, parts)
    requires OutsideGaps(Breakpoints(ranges), BundleMean(counts, parts))
    requires BundleMean(counts, parts) > 0.0 || 0.000000001 !in Breakpoints(ranges)
    ensures budget in Budgets(ranges, true)
    ensures forall total, r | IsTotal(total, budget, counts) && Solves(counts, market, total, r, true) ::
      && AsGood(ranges, counts, r, Cost(Listings(counts, parts)), BundleMean(counts, parts))
      && RendersAsGood(ranges, counts, r, BundleMean(counts, parts))
  {
    var z := BundleMean(counts, parts);
    BundleMeanInUnit(counts, market, parts);
    budget := OutsideGapsIsServed(ranges, z);
    forall total, r | IsTotal(total, budget, counts) && Solves(counts, market, total, r, true)
      ensures AsGood(ranges, counts, r, Cost(Listings(counts, parts)), z) && RendersAsGood(ranges, counts, r, z)
    {
      ServedBundleIsMatched(ranges, counts, market, parts, budget, total, r);
      BoughtFloat(counts, market, total, r.value);
      SomeInput(counts);
      MeanInUnit(r.value.totalNormalized, TotalInputs(counts));
      RenderedNoWorse(ranges, budget, z, Mean(r.value.totalNormalized, TotalInputs(counts)));
    }
  }

  ghost predicate RendersAsGood(ranges: seq<FloatRange>, counts: Composition, r: Option<BundleSolution>, z: real) {
    SomeInput(counts);
    && r.Some?
    && ((forall range | range in ranges :: WideEnough(range)) ==>
          NoMoreRenderedWear(ranges, Mean(r.value.totalNormalized, TotalInputs(counts)), z))
  }

  lemma RenderedNoWorse(ranges: seq<FloatRange>, budget: real, z: real, z': real)
    requires 0.0 <= z <= 1.0 && 0.0 <= z' <= budget && z' <= 1.0
    requires forall b | b in Breakpoints(ranges) :: b > z ==> budget <= b - EPSILON
    ensures (forall range | range in ranges :: WideEnough(range)) ==> NoMoreRenderedWear(ranges, z', z)
  {
    if forall range | range in ranges :: WideEnough(range) {
      forall range | range in ranges ensures NoMoreWorn(RenderedWear(z', range), RenderedWear(z, range)) {
        NudgeSurvivesRendering(ranges, range, z, z');
        RenderingChangesWear(z, range);
      }
    }
  }

  /** The gaps are real: just below an isolated breakpoint, no candidate budget serves the average. */
  lemma GapsAreUnserved(ranges: seq<FloatRange>, b: real, z: real)
    requires b in Breakpoints(ranges) && b - EPSILON < z < b
    requires forall c | c in Breakpoints(ranges) :: !(b < c < b + EPSILON)
    ensures !Served(Breakpoints(ranges), Budgets(ranges, true), z)
  {
    BreakpointsInUnit(ranges);
    forall budget | budget in Budgets(ranges, true) ensures !ServedBy(Breakpoints(ranges), z, budget) {
      if budget != 1.0 {
        var c :| c in Breakpoints(ranges) && budget == c - EPSILON;
        assert c <= b || c >= b + EPSILON;
      }
      assert budget < z || b <= budget;
    }
  }

  const FULL_RANGE: FloatRange := Range(0.0, 1.0)

  lemma FullRangeBreakpoints()
    ensures Breakpoints([FULL_RANGE]) == {0.07, 0.15, 0.38, 0.45}
  {
    FullRangeCrossings();
    OneOutput(FULL_RANGE);
  }

  lemma FullRangeCrossings()
    ensures CrossingsOf(FULL_RANGE, INTERIOR_BOUNDARIES) == {0.07, 0.15, 0.38, 0.45}
  {
    CrossingsOfUnit(FULL_RANGE, INTERIOR_BOUNDARIES);
  }

  lemma CrossingsOfUnit(r: FloatRange, boundaries: set<real>)
    requires r == FULL_RANGE && forall w | w in boundaries :: 0.0 < w <= 1.0
    ensures CrossingsOf(r, boundaries) == boundaries
  {
    forall w | w in boundaries ensures w in CrossingsOf(r, boundaries) {
      assert Crossing(r, w) == w;
    }
    forall b | b in CrossingsOf(r, boundaries) ensures b in boundaries {
      var w :| w in boundaries && r.minimum < w <= r.maximum && Crossing(r, w) == b;
    }
  }

  lemma {:induction false} AscendingRealsUnique(a: seq<real>, b: seq<real>)
    requires forall i, j | 0 <= i < j < |a| :: a[i] < a[j]
    requires forall i, j | 0 <= i < j < |b| :: b[i] < b[j]
    requires forall x :: x in a <==> x in b
    ensures a == b
  {
    if a == [] {
      NoElements(b);
    } else {
      assert a[0] in b && b != [] && b[0] in a;
      assert a[0] == b[0];
      forall x ensures x in a[1..] <==> x in b[1..] {
        if x in a[1..] { assert x in a && x != a[0]; assert x in b; }
        if x in b[1..] { assert x in b && x != b[0]; assert x in a; }
      }
      AscendingRealsUnique(a[1..], b[1..]);
      assert a == [a[0]] + a[1..] && b == [b[0]] + b[1..];
    }
  }

  lemma SortedRealsAre(budgets: set<real>, listed: seq<real>)
    requires forall i, j | 0 <= i < j < |listed| :: listed[i] < listed[j]
    requires forall x :: x in listed <==> x in budgets
    ensures SortedReals(budgets) == listed
  {
    AscendingRealsUnique(SortedReals(budgets), listed);
  }

  lemma BelowFourBoundaries(breakpoints: set<real>)
    requires breakpoints == {0.07, 0.15, 0.38, 0.45}
    ensures JustBelow(breakpoints) == {0.069999999, 0.149999999, 0.379999999, 0.449999999}
  {
    forall x ensures x in JustBelow(breakpoints) <==> x in {0.069999999, 0.149999999, 0.379999999, 0.449999999} {
      assert x + EPSILON in breakpoints ==> x in {0.069999999, 0.149999999, 0.379999999, 0.449999999};
      if x in {0.069999999, 0.149999999, 0.379999999, 0.449999999} {
        var b := x + EPSILON;
        assert b in breakpoints && b - EPSILON == x;
      }
    }
  }

  /** For one output of the full range, the candidate budgets to the last digit. */
  lemma FullRangeBudgets(ranges: seq<FloatRange>, unconstrained: bool)
    requires ranges == [FULL_RANGE]
    ensures SortedReals(Budgets(ranges, unconstrained))
         == [0.069999999, 0.149999999, 0.379999999, 0.449999999] + if unconstrained then [1.0] else []
  {
    FullRangeBreakpoints();
    BelowFourBoundaries(Breakpoints(ranges));
    ListedBudgets(Budgets(ranges, unconstrained), unconstrained);
  }

  lemma ListedBudgets(budgets: set<real>, unconstrained: bool)
    requires budgets == {0.069999999, 0.149999999, 0.379999999, 0.449999999} + if unconstrained then {1.0} else {}
    ensures SortedReals(budgets)
         == [0.069999999, 0.149999999, 0.379999999, 0.449999999] + if unconstrained then [1.0] else []
  {
    SortedRealsAre(budgets, [0.069999999, 0.149999999, 0.379999999, 0.449999999] + if unconstrained then [1.0] else []);
  }

  /** They are met by real ranges: an average half of EPSILON below 0.07, with one output of the full range. */
  lemma GapExample(ranges: seq<FloatRange>, z: real)
    requires ranges == [FULL_RANGE] && z == 0.0699999995
    ensures 0.0 <= z <= 1.0 && !Served(Breakpoints(ranges), Budgets(ranges, true), z)
  {
    FullRangeBreakpoints();
    IsolatedBreakpoint(Breakpoints(ranges));
    GapsAreUnserved(ranges, 0.07, z);
  }

  lemma IsolatedBreakpoint(breakpoints: set<real>)
    requires breakpoints == {0.07, 0.15, 0.38, 0.45}
    ensures 0.07 in breakpoints && forall c | c in breakpoints :: !(0.07 < c < 0.07 + EPSILON)
  {
  }
}
