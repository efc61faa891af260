/**
 The cheapest-bundle solver (src/tradeup/optimizer/bundle.py, `solve`): prune each collection, build its
 frontier, fold the frontiers over the shared float budget, and take the cheapest point left.
 */
module Bundle {
  import opened CollectionFrontiers
  import opened Frontier
  import opened Pareto
  import opened Sorting
  import opened Wrappers

  /** collection id -> number of inputs drawn from it (`counts_by_collection`). */
  type Composition = c: map<int, nat> | |c| > 0 && forall k | k in c :: c[k] > 0 witness map[0 := 1]

  /** collection id -> usable listings (`items_by_collection`). */
  type Market = map<int, seq<CandidateItem>>

  function Pool(market: Market, c: int): seq<CandidateItem> {
    if c in market then market[c] else []
  }

  function Count(counts: Composition, c: int): nat {
    if c in counts then counts[c] else 0
  }

  function CountsOver(keys: seq<int>, counts: Composition): nat {
    if keys == [] then 0 else CountsOver(keys[..|keys| - 1], counts) + Count(counts, keys[|keys| - 1])
  }

  function TotalInputs(counts: Composition): nat {
    CountsOver(SortedKeys(counts.Keys), counts)
  }

  lemma SomeKey(counts: Composition)
    ensures SortedKeys(counts.Keys) != []
  {
    assert |SortedKeys(counts.Keys)| == |counts.Keys| == |counts|;
  }

  // ----- bundles: one selection per collection

  /** The bundle's listings, collection by collection; `parts` maps a collection to what is picked from it. */
  ghost function Flatten(keys: seq<int>, parts: Market): seq<CandidateItem> {
    if keys == [] then [] else Flatten(keys[..|keys| - 1], parts) + Pool(parts, keys[|keys| - 1])
  }

  ghost predicate Fills(keys: seq<int>, counts: Composition, market: Market, parts: Market) {
    forall i | 0 <= i < |keys| :: Selection(Pool(parts, keys[i]), Count(counts, keys[i]), Pool(market, keys[i]))
  }

  ghost function Listings(counts: Composition, parts: Market): seq<CandidateItem> {
    Flatten(SortedKeys(counts.Keys), parts)
  }

  /** Exactly the demanded number of listings from every collection, within the total float budget. */
  ghost predicate Feasible(counts: Composition, market: Market, budget: real, parts: Market) {
    Fills(SortedKeys(counts.Keys), counts, market, parts) && Float(Listings(counts, parts)) <= budget
  }

  // ----- the fold over collections

  ghost predicate Folded(combined: seq<FrontierPoint>, keys: seq<int>, counts: Composition, market: Market,
                         budget: real, exact: bool)
  {
    && StrictFrontier(combined)
    && (forall i | 0 <= i < |combined| :: FoldedPoint(combined, i, keys, counts, market, budget))
    && (forall parts :: PartsMatched(combined, keys, counts, market, budget, exact, parts))
  }

  ghost predicate FoldedPoint(combined: seq<FrontierPoint>, i: nat, keys: seq<int>, counts: Composition,
                              market: Market, budget: real)
    requires i < |combined|
  {
    FromParts(combined[i], keys, counts, market) && (keys != [] ==> combined[i].normalized <= budget)
  }

  ghost predicate PartsMatched(combined: seq<FrontierPoint>, keys: seq<int>, counts: Composition, market: Market,
                               budget: real, exact: bool, parts: Market)
  {
    Fills(keys, counts, market, parts) && Float(Flatten(keys, parts)) <= budget
    ==> Covers(combined, Float(Flatten(keys, parts)), Cost(Flatten(keys, parts)), exact)
  }

  ghost predicate FromParts(p: FrontierPoint, keys: seq<int>, counts: Composition, market: Market)
  {
    exists parts :: Fills(keys, counts, market, parts) && Matches(p, Flatten(keys, parts))
  }

  ghost predicate Matches(p: FrontierPoint, s: seq<CandidateItem>) {
    p.selection == s && p.normalized == Float(s) && p.cost == Cost(s)
  }

  lemma {:induction false} FlattenLocal(keys: seq<int>, a: Market, b: Market)
    requires forall i | 0 <= i < |keys| :: Pool(a, keys[i]) == Pool(b, keys[i])
    ensures Flatten(keys, a) == Flatten(keys, b)
  {
    if keys != [] {
      FlattenLocal(keys[..|keys| - 1], a, b);
    }
  }

  lemma ByParts(p: FrontierPoint, keys: seq<int>, counts: Composition, market: Market, parts: Market)
    requires Fills(keys, counts, market, parts) && Matches(p, Flatten(keys, parts))
    ensures FromParts(p, keys, counts, market)
  {
  }

  lemma JoinFromParts(a: FrontierPoint, b: FrontierPoint, keys: seq<int>, c: int, counts: Composition, market: Market)
    requires c !in keys
    requires FromParts(a, keys, counts, market) && Realised(b, Count(counts, c), Pool(market, c))
    ensures FromParts(Join(a, b), keys + [c], counts, market)
  {
    var parts :| Fills(keys, counts, market, parts) && Matches(a, Flatten(keys, parts));
    OneMorePart(keys, c, counts, market, parts, b.selection);
    JoinMatches(a, b, Flatten(keys, parts));
    ByParts(Join(a, b), keys + [c], counts, market, parts[c := b.selection]);
  }

  lemma JoinMatches(a: FrontierPoint, b: FrontierPoint, s: seq<CandidateItem>)
    requires Matches(a, s) && b.normalized == Float(b.selection) && b.cost == Cost(b.selection)
    ensures Matches(Join(a, b), s + b.selection)
  {
    TotalsAppend(s, b.selection);
  }

  lemma OneMorePart(keys: seq<int>, c: int, counts: Composition, market: Market, parts: Market, s: seq<CandidateItem>)
    requires c !in keys
    requires Fills(keys, counts, market, parts) && Selection(s, Count(counts, c), Pool(market, c))
    ensures Fills(keys + [c], counts, market, parts[c := s])
    ensures Flatten(keys + [c], parts[c := s]) == Flatten(keys, parts) + s
  {
    FlattenLocal(keys, parts, parts[c := s]);
    assert (keys + [c])[..|keys|] == keys;
  }

  lemma FoldStep(combined: seq<FrontierPoint>, keys: seq<int>, c: int, counts: Composition, market: Market,
                 budget: real, exact: bool, frontier: seq<FrontierPoint>, merged: seq<FrontierPoint>)
    requires c !in keys
    requires Folded(combined, keys, counts, market, budget, exact)
    requires Level(frontier, Count(counts, c), Pool(market, c), budget, exact)
    requires FrontierOf(merged, Sums(combined, frontier, Option.Some(budget)))
    ensures Folded(merged, keys + [c], counts, market, budget, exact)
  {
    forall i | 0 <= i < |merged|
      ensures FoldedPoint(merged, i, keys + [c], counts, market, budget)
    {
      FoldPointFromParts(combined, keys, c, counts, market, budget, exact, frontier, merged[i]);
    }
    forall parts ensures PartsMatched(merged, keys + [c], counts, market, budget, exact, parts) {
      if Fills(keys + [c], counts, market, parts) && Float(Flatten(keys + [c], parts)) <= budget {
        FoldCovers(combined, keys, c, counts, market, budget, exact, frontier, merged, parts);
      }
    }
  }

  lemma FoldPointFromParts(combined: seq<FrontierPoint>, keys: seq<int>, c: int, counts: Composition, market: Market,
                           budget: real, exact: bool, frontier: seq<FrontierPoint>, p: FrontierPoint)
    requires c !in keys
    requires Folded(combined, keys, counts, market, budget, exact)
    requires Level(frontier, Count(counts, c), Pool(market, c), budget, exact)
    requires p in Sums(combined, frontier, Option.Some(budget))
    ensures FromParts(p, keys + [c], counts, market) && p.normalized <= budget
  {
    var a, b :| a in combined && b in frontier && Fits(Join(a, b), Option.Some(budget)) && p == Join(a, b);
    var m :| 0 <= m < |combined| && combined[m] == a;
    var n :| 0 <= n < |frontier| && frontier[n] == b;
    assert FoldedPoint(combined, m, keys, counts, market, budget);
    JoinFromParts(combined[m], frontier[n], keys, c, counts, market);
  }

  lemma FoldCovers(combined: seq<FrontierPoint>, keys: seq<int>, c: int, counts: Composition, market: Market,
                   budget: real, exact: bool, frontier: seq<FrontierPoint>, merged: seq<FrontierPoint>, parts: Market)
    requires c !in keys
    requires Folded(combined, keys, counts, market, budget, exact)
    requires Level(frontier, Count(counts, c), Pool(market, c), budget, exact)
    requires FrontierOf(merged, Sums(combined, frontier, Option.Some(budget)))
    requires Fills(keys + [c], counts, market, parts) && Float(Flatten(keys + [c], parts)) <= budget
    ensures Covers(merged, Float(Flatten(keys + [c], parts)), Cost(Flatten(keys + [c], parts)), exact)
  {
    assert (keys + [c])[..|keys|] == keys && (keys + [c])[|keys|] == c;
    assert forall i | 0 <= i < |keys| :: (keys + [c])[i] == keys[i];
    assert Fills(keys, counts, market, parts);
    var s, t := Flatten(keys, parts), Pool(parts, c);
    TotalsAppend(s, t);
    assert PartsMatched(combined, keys, counts, market, budget, exact, parts);
    assert Matched(frontier, Count(counts, c), Pool(market, c), budget, exact, t);
    var i := Witness(combined, Float(s), Cost(s), exact);
    var j := Witness(frontier, Float(t), Cost(t), exact);
    var p := Join(combined[i], frontier[j]);
    assert combined[i] in combined && frontier[j] in frontier && Fits(p, Option.Some(budget));
    assert p in Sums(combined, frontier, Option.Some(budget));
    CoversTransfer(merged, p, Float(s + t), Cost(s + t), exact);
  }

  lemma TruncatedFold(combined: seq<FrontierPoint>, keys: seq<int>, counts: Composition, market: Market,
                      budget: real, exact: bool, cap: nat)
    requires cap >= 1 && Folded(combined, keys, counts, market, budget, exact)
    ensures Folded(FirstPoints(combined, cap), keys, counts, market, budget, exact && |combined| <= cap)
  {
    var kept := FirstPoints(combined, cap);
    var stillExact := exact && |combined| <= cap;
    forall i | 0 <= i < |kept| ensures FoldedPoint(kept, i, keys, counts, market, budget) {
      assert FoldedPoint(combined, i, keys, counts, market, budget);
    }
    forall parts ensures PartsMatched(kept, keys, counts, market, budget, stillExact, parts) {
      assert PartsMatched(combined, keys, counts, market, budget, exact, parts);
      var s := Flatten(keys, parts);
      if Fills(keys, counts, market, parts) && Float(s) <= budget {
        var i := Witness(combined, Float(s), Cost(s), exact);
        assert NoWorse(kept[if i < |kept| then i else 0], Float(s), Cost(s), stillExact);
      }
    }
  }

  lemma WeakenedFold(combined: seq<FrontierPoint>, keys: seq<int>, counts: Composition, market: Market,
                     budget: real, exact: bool, weaker: bool)
    requires Folded(combined, keys, counts, market, budget, exact) && (weaker ==> exact)
    ensures Folded(combined, keys, counts, market, budget, weaker)
  {
    forall parts ensures PartsMatched(combined, keys, counts, market, budget, weaker, parts) {
      assert PartsMatched(combined, keys, counts, market, budget, exact, parts);
      var s := Flatten(keys, parts);
      if Fills(keys, counts, market, parts) && Float(s) <= budget {
        var i := Witness(combined, Float(s), Cost(s), exact);
        assert NoWorse(combined[i], Float(s), Cost(s), weaker);
      }
    }
  }

  // ----- carrying a pruned collection's frontier back to the whole collection

  lemma PrunedLevel(frontier: seq<FrontierPoint>, k: nat, ordered: seq<CandidateItem>, survivors: seq<CandidateItem>,
                    pool: seq<CandidateItem>, budget: real, exact: bool)
    requires PrunedTo(survivors, pool, k) && multiset(ordered) == multiset(survivors)
    requires Level(frontier, k, ordered, budget, exact)
    ensures Level(frontier, k, pool, budget, exact)
  {
    SurvivorsWithin(survivors, pool, k);
    forall s ensures Matched(frontier, k, pool, budget, exact, s) {
      if Selection(s, k, pool) && Float(s) <= budget {
        var t := PruningIsSound(pool, k, survivors, s);
        assert Matched(frontier, k, ordered, budget, exact, t);
        var i := Witness(frontier, Float(t), Cost(t), exact);
        assert NoWorse(frontier[i], Float(s), Cost(s), exact);
      }
    }
  }

  lemma SurvivorsWithin(survivors: seq<CandidateItem>, pool: seq<CandidateItem>, k: int)
    requires PrunedTo(survivors, pool, k)
    ensures multiset(survivors) <= multiset(pool)
  {
    forall x: CandidateItem ensures multiset(survivors)[x] <= multiset(pool)[x] {
    }
  }

  /** An affordable bundle spends on each collection no more float than the whole budget. */
  lemma {:induction false} PartWithinBudget(keys: seq<int>, parts: Market, i: nat)
    requires i < |keys|
    ensures Float(Pool(parts, keys[i])) <= Float(Flatten(keys, parts))
  {
    FlattenLast(keys, parts);
    if i < |keys| - 1 {
      PartWithinBudget(keys[..|keys| - 1], parts, i);
    }
  }

  lemma FlattenLast(keys: seq<int>, parts: Market)
    requires keys != []
    ensures Float(Flatten(keys, parts))
         == Float(Flatten(keys[..|keys| - 1], parts)) + Float(Pool(parts, keys[|keys| - 1]))
    ensures Cost(Flatten(keys, parts))
         == Cost(Flatten(keys[..|keys| - 1], parts)) + Cost(Pool(parts, keys[|keys| - 1]))
  {
    TotalsAppend(Flatten(keys[..|keys| - 1], parts), Pool(parts, keys[|keys| - 1]));
  }

  /** A collection whose frontier is empty rules out every bundle. */
  lemma NothingFeasible(counts: Composition, market: Market, budget: real, c: int)
    requires c in counts
    requires forall s | Selection(s, Count(counts, c), Pool(market, c)) :: Float(s) > budget
    ensures forall parts :: !Feasible(counts, market, budget, parts)
  {
    forall parts ensures !Feasible(counts, market, budget, parts) {
      var keys := SortedKeys(counts.Keys);
      assert c in keys;
      var i :| 0 <= i < |keys| && keys[i] == c;
      if Fills(keys, counts, market, parts) {
        PartWithinBudget(keys, parts, i);
      }
    }
  }

  // ----- the answer

  datatype BundleSolution = BundleSolution(
    selection: seq<int>, totalCost: int, totalNormalized: real, floatBudget: real)

  function Identities(s: seq<CandidateItem>): (ids: seq<int>)
    ensures |ids| == |s| && forall i | 0 <= i < |s| :: ids[i] == s[i].id
  {
    seq(|s|, i requires 0 <= i < |s| => s[i].id)
  }

  /** What the caller is told: which listings to buy, and their totals. */
  ghost predicate Buys(b: BundleSolution, s: seq<CandidateItem>) {
    b.selection == Identities(s) && b.totalCost == Cost(s) && b.totalNormalized == Float(s)
  }

  ghost predicate LexNoWorse(cost: int, z: real, cost': int, z': real) {
    cost < cost' || (cost == cost' && z <= z')
  }

  /**
   The solver's promise.  A bundle is returned exactly when a feasible one exists, and it is one; if `exact`,
   it is least in (cost, float) over every feasible bundle of the unpruned listings.
   */
  ghost predicate Solves(counts: Composition, market: Market, budget: real, r: Option<BundleSolution>, exact: bool) {
    && (r.None? ==> forall parts :: !Feasible(counts, market, budget, parts))
    && (r.Some? ==>
          && r.value.floatBudget == budget
          && (exists parts :: Feasible(counts, market, budget, parts) && Buys(r.value, Listings(counts, parts)))
          && (exact ==> forall parts :: NoBetter(counts, market, budget, r.value, parts)))
  }

  /** `parts`, if affordable at all, is not lexicographically better than `b` in (cost, float). */
  ghost predicate NoBetter(counts: Composition, market: Market, budget: real, b: BundleSolution, parts: Market) {
    Feasible(counts, market, budget, parts)
    ==> LexNoWorse(b.totalCost, b.totalNormalized, Cost(Listings(counts, parts)), Float(Listings(counts, parts)))
  }

  /** Total price of every listing the composition could draw on. */
  ghost function MarketCost(keys: seq<int>, market: Market): nat {
    Cost(Flatten(keys, market))
  }

  lemma {:induction false} MarketCostPrefix(keys: seq<int>, market: Market, i: nat)
    requires i <= |keys|
    ensures MarketCost(keys[..i], market) <= MarketCost(keys, market)
    ensures i < |keys| ==> Cost(Pool(market, keys[i])) <= MarketCost(keys, market)
  {
    if i == |keys| {
      assert keys[..i] == keys;
    } else {
      assert keys[..|keys| - 1][..i] == keys[..i];
      FlattenLast(keys, market);
      MarketCostPrefix(keys[..|keys| - 1], market, i);
    }
  }

  lemma {:induction false} PartsCost(keys: seq<int>, counts: Composition, market: Market, parts: Market)
    requires Fills(keys, counts, market, parts)
    ensures 0 <= Cost(Flatten(keys, parts)) <= MarketCost(keys, market)
  {
    if keys != [] {
      var init, c := keys[..|keys| - 1], keys[|keys| - 1];
      PartsCost(init, counts, market, parts);
      SelectionCost(Pool(parts, c), Pool(market, c));
      FlattenLast(keys, parts);
      FlattenLast(keys, market);
    }
  }

  lemma FoldLength(combined: seq<FrontierPoint>, keys: seq<int>, counts: Composition, market: Market,
                   budget: real, exact: bool)
    requires Folded(combined, keys, counts, market, budget, exact)
    ensures |combined| <= MarketCost(keys, market) + 1
  {
    forall i | 0 <= i < |combined| ensures 0 <= combined[i].cost <= MarketCost(keys, market) {
      assert FoldedPoint(combined, i, keys, counts, market, budget);
      var parts :| Fills(keys, counts, market, parts) && Matches(combined[i], Flatten(keys, parts));
      PartsCost(keys, counts, market, parts);
    }
    FrontierLength(combined, MarketCost(keys, market));
  }

  // ----- the frontier of a fold does not depend on the order

  lemma {:induction false} FlattenAppend(a: seq<int>, b: seq<int>, parts: Market)
    ensures Flatten(a + b, parts) == Flatten(a, parts) + Flatten(b, parts)
  {
    if b == [] {
      assert a + b == a;
    } else {
      assert (a + b)[..|a + b| - 1] == a + b[..|b| - 1];
      FlattenAppend(a, b[..|b| - 1], parts);
    }
  }

  lemma FlattenMiddle(a: seq<int>, c: int, b: seq<int>, parts: Market)
    ensures Float(Flatten(a + [c] + b, parts)) == Float(Flatten(a + b, parts)) + Float(Pool(parts, c))
    ensures Cost(Flatten(a + [c] + b, parts)) == Cost(Flatten(a + b, parts)) + Cost(Pool(parts, c))
  {
    FlattenAppend(a + [c], b, parts);
    FlattenAppend(a, b, parts);
    FlattenLast(a + [c], parts);
    assert (a + [c])[..|a|] == a;
    TotalsAppend(Flatten(a + [c], parts), Flatten(b, parts));
    TotalsAppend(Flatten(a, parts), Flatten(b, parts));
  }

  lemma {:induction false} TotalsIgnoreOrder(keys: seq<int>, keys': seq<int>, parts: Market)
    requires multiset(keys) == multiset(keys')
    ensures Float(Flatten(keys, parts)) == Float(Flatten(keys', parts))
    ensures Cost(Flatten(keys, parts)) == Cost(Flatten(keys', parts))
  {
    if keys == [] {
      assert |multiset(keys')| == |keys'|;
    } else {
      var init, c := keys[..|keys| - 1], keys[|keys| - 1];
      var i := DropLast(keys, keys');
      var a, b := keys'[..i], keys'[i + 1..];
      assert keys' == a + [c] + b;
      TotalsIgnoreOrder(init, a + b, parts);
      FlattenLast(keys, parts);
      FlattenMiddle(a, c, b, parts);
    }
  }

  lemma FillsIgnoresOrder(keys: seq<int>, keys': seq<int>, counts: Composition, market: Market, parts: Market)
    requires multiset(keys) == multiset(keys') && Fills(keys, counts, market, parts)
    ensures Fills(keys', counts, market, parts)
  {
    forall i | 0 <= i < |keys'|
      ensures Selection(Pool(parts, keys'[i]), Count(counts, keys'[i]), Pool(market, keys'[i]))
    {
      assert keys'[i] in multiset(keys);
    }
  }

  lemma FoldCoversFold(f: seq<FrontierPoint>, keys: seq<int>, g: seq<FrontierPoint>, keys': seq<int>,
                       counts: Composition, market: Market, budget: real)
    requires keys' != [] && multiset(keys) == multiset(keys')
    requires Folded(f, keys, counts, market, budget, true) && Folded(g, keys', counts, market, budget, true)
    ensures CoversAll(f, g)
  {
    forall i | 0 <= i < |g| ensures CoversAt(f, g, i) {
      assert FoldedPoint(g, i, keys', counts, market, budget);
      var parts :| Fills(keys', counts, market, parts) && Matches(g[i], Flatten(keys', parts));
      FillsIgnoresOrder(keys', keys, counts, market, parts);
      TotalsIgnoreOrder(keys, keys', parts);
      assert PartsMatched(f, keys, counts, market, budget, true, parts);
    }
  }

  /**
   Folding the same collections over the budget in any two orders gives frontiers with the same coordinates.
   `FoldStep` makes no assumption on the order either, so this covers every way of folding them one by one.
   */
  lemma FoldOrderIrrelevant(f: seq<FrontierPoint>, keys: seq<int>, g: seq<FrontierPoint>, keys': seq<int>,
                            counts: Composition, market: Market, budget: real)
    requires keys != [] && multiset(keys) == multiset(keys')
    requires Folded(f, keys, counts, market, budget, true) && Folded(g, keys', counts, market, budget, true)
    ensures SameCoordinates(f, g)
  {
    assert keys[0] in multiset(keys');
    FoldCoversFold(f, keys, g, keys', counts, market, budget);
    FoldCoversFold(g, keys', f, keys, counts, market, budget);
    FrontierUnique(f, g);
  }

  // ----- when a frontier does not fit

  function KeepSurvivors(items: seq<CandidateItem>, pool: seq<CandidateItem>, keep: int): (kept: seq<CandidateItem>)
    ensures forall x: CandidateItem :: multiset(kept)[x] == if Survives(pool, keep, x) then multiset(items)[x] else 0
  {
    if items == [] then []
    else
      assert items == items[..|items| - 1] + [items[|items| - 1]];
      var rest := KeepSurvivors(items[..|items| - 1], pool, keep);
      if Survives(pool, keep, items[|items| - 1]) then rest + [items[|items| - 1]] else rest
  }

  /** The survivors of dominance pruning in the order the solver feeds them to the dynamic program. */
  function SortedSurvivors(raw: seq<CandidateItem>, slots: nat): (ordered: seq<CandidateItem>)
    ensures SortedBy(ItemLe, ordered) && PrunedTo(ordered, raw, slots)
  {
    ItemLeIsTotal();
    Sort(ItemLe, KeepSurvivors(raw, raw, slots))
  }

  /** Some exact frontier inside the dynamic program of this collection has more than `cap` points. */
  ghost predicate CollectionOverflows(raw: seq<CandidateItem>, slots: nat, budget: real, cap: nat) {
    PrefixOverflows(SortedSurvivors(raw, slots), |SortedSurvivors(raw, slots)|, slots, budget, cap)
  }

  ghost predicate CollectionsOverflow(keys: seq<int>, n: nat, counts: Composition, market: Market, budget: real,
                                      cap: nat)
    requires n <= |keys|
  {
    exists i :: 0 <= i < n && CollectionOverflows(Pool(market, keys[i]), Count(counts, keys[i]), budget, cap)
  }

  /** The exact frontier of the fold over `keys` has more than `cap` points. */
  ghost predicate FoldOverflows(keys: seq<int>, counts: Composition, market: Market, budget: real, cap: nat) {
    exists f :: Folded(f, keys, counts, market, budget, true) && |f| > cap
  }

  ghost predicate FoldsOverflow(keys: seq<int>, n: nat, counts: Composition, market: Market, budget: real, cap: nat)
    requires n <= |keys|
  {
    exists i :: 0 < i <= n && FoldOverflows(keys[..i], counts, market, budget, cap)
  }

  /** Some exact frontier, of a collection or of the fold over the first of them, does not fit `cap` points. */
  ghost predicate Overflows(counts: Composition, market: Market, budget: real, cap: nat) {
    var keys := SortedKeys(counts.Keys);
    || CollectionsOverflow(keys, |keys|, counts, market, budget, cap)
    || FoldsOverflow(keys, |keys|, counts, market, budget, cap)
  }

  /** `kept` is the lowest-float end of the exact frontier of the fold, which has more points. */
  ghost predicate FoldCutTo(kept: seq<FrontierPoint>, keys: seq<int>, counts: Composition, market: Market, budget: real,
                            cap: nat)
  {
    exists f :: Folded(f, keys, counts, market, budget, true) && |f| > cap && kept == FirstPoints(f, cap)
  }

  /** Before its last level, some exact frontier of this collection overflows. */
  ghost predicate CollectionOverflowsEarly(raw: seq<CandidateItem>, slots: nat, budget: real, cap: nat) {
    EarlierOverflows(SortedSurvivors(raw, slots), |SortedSurvivors(raw, slots)|, slots, budget, cap)
  }

  /** Some exact frontier overflows before the last one: the whole fold, or a lone collection's last level. */
  ghost predicate OverflowsEarly(counts: Composition, market: Market, budget: real, cap: nat) {
    var keys := SortedKeys(counts.Keys);
    if |keys| == 1 then
      CollectionOverflowsEarly(Pool(market, keys[0]), Count(counts, keys[0]), budget, cap)
    else
      || CollectionsOverflow(keys, |keys|, counts, market, budget, cap)
      || exists i :: 0 < i < |keys| && FoldOverflows(keys[..i], counts, market, budget, cap)
  }

  lemma FittingFold(combined: seq<FrontierPoint>, keys: seq<int>, counts: Composition, market: Market, budget: real,
                    cap: nat)
    requires keys != [] && Folded(combined, keys, counts, market, budget, true) && |combined| <= cap
    ensures !FoldOverflows(keys, counts, market, budget, cap)
  {
    forall f | Folded(f, keys, counts, market, budget, true) ensures |f| <= cap {
      FoldOrderIrrelevant(f, keys, combined, keys, counts, market, budget);
    }
  }

  lemma CheapCollectionFits(raw: seq<CandidateItem>, slots: nat, budget: real, cap: nat)
    requires Cost(raw) < cap
    ensures !CollectionOverflows(raw, slots, budget, cap)
  {
    var survivors := SortedSurvivors(raw, slots);
    SurvivorsWithin(survivors, raw, slots);
    SelectionCost(survivors, raw);
    CheapNeverOverflows(survivors, slots, budget, cap);
  }

  lemma CheapFoldFits(keys: seq<int>, counts: Composition, market: Market, budget: real, cap: nat)
    requires MarketCost(keys, market) < cap
    ensures !FoldOverflows(keys, counts, market, budget, cap)
  {
    forall f | Folded(f, keys, counts, market, budget, true) ensures |f| <= cap {
      FoldLength(f, keys, counts, market, budget, true);
    }
  }

  lemma CheapCollectionsFit(keys: seq<int>, counts: Composition, market: Market, budget: real, cap: nat)
    requires MarketCost(keys, market) < cap
    ensures !CollectionsOverflow(keys, |keys|, counts, market, budget, cap)
  {
    forall i | 0 <= i < |keys|
      ensures !CollectionOverflows(Pool(market, keys[i]), Count(counts, keys[i]), budget, cap)
    {
      MarketCostPrefix(keys, market, i);
      CheapCollectionFits(Pool(market, keys[i]), Count(counts, keys[i]), budget, cap);
    }
  }

  lemma CheapFoldsFit(keys: seq<int>, counts: Composition, market: Market, budget: real, cap: nat)
    requires MarketCost(keys, market) < cap
    ensures !FoldsOverflow(keys, |keys|, counts, market, budget, cap)
  {
    forall i | 0 < i <= |keys| ensures !FoldOverflows(keys[..i], counts, market, budget, cap) {
      MarketCostPrefix(keys, market, i);
      CheapFoldFits(keys[..i], counts, market, budget, cap);
    }
  }

  /** When all the listings on offer together cost less than the cap, nothing overflows. */
  lemma CheapMarketsNeverOverflow(counts: Composition, market: Market, budget: real, cap: nat)
    requires MarketCost(SortedKeys(counts.Keys), market) < cap
    ensures !Overflows(counts, market, budget, cap)
  {
    CheapCollectionsFit(SortedKeys(counts.Keys), counts, market, budget, cap);
    CheapFoldsFit(SortedKeys(counts.Keys), counts, market, budget, cap);
  }

  // ----- the program itself

  lemma SamePruned(a: seq<CandidateItem>, b: seq<CandidateItem>, raw: seq<CandidateItem>, slots: nat)
    requires PrunedTo(a, raw, slots) && PrunedTo(b, raw, slots)
    ensures multiset(a) == multiset(b)
  {
    assert forall x: CandidateItem :: multiset(a)[x] == multiset(b)[x];
  }

  lemma SurvivorsAreSorted(ordered: seq<CandidateItem>, raw: seq<CandidateItem>, slots: nat)
    requires SortedBy(ItemLe, ordered) && PrunedTo(ordered, raw, slots)
    ensures ordered == SortedSurvivors(raw, slots)
  {
    var survivors := SortedSurvivors(raw, slots);
    SamePruned(ordered, survivors, raw, slots);
    assert TotalOrder(ItemLe);
    SortedUnique(ItemLe, ordered, survivors);
  }

  lemma PrunedCut(kept: seq<FrontierPoint>, k: nat, ordered: seq<CandidateItem>, survivors: seq<CandidateItem>,
                  pool: seq<CandidateItem>, budget: real, cap: nat)
    requires PrunedTo(survivors, pool, k) && multiset(ordered) == multiset(survivors)
    ensures CutTo(kept, k, ordered, budget, cap) ==> CutTo(kept, k, pool, budget, cap)
  {
    if CutTo(kept, k, ordered, budget, cap) {
      var f :| Level(f, k, ordered, budget, true) && |f| > cap && kept == FirstPoints(f, cap);
      PrunedLevel(f, k, ordered, survivors, pool, budget, true);
    }
  }

  /** Prunes one collection and builds its frontier; `None` when no affordable selection of it exists. */
  method BuildFrontier(raw: seq<CandidateItem>, slots: nat, budget: real, cap: nat)
      returns (r: Option<seq<FrontierPoint>>, ghost truncated: bool)
    requires slots >= 1 && cap >= 1
    ensures r.None? ==> forall s | Selection(s, slots, raw) :: Float(s) > budget
    ensures r.Some? ==> Level(r.value, slots, raw, budget, !truncated)
    ensures truncated ==> CollectionOverflows(raw, slots, budget, cap)
    ensures r.Some? ==> (truncated <==> CollectionOverflows(raw, slots, budget, cap))
    ensures r.Some? && truncated && !CollectionOverflowsEarly(raw, slots, budget, cap) ==>
      CutTo(r.value, slots, raw, budget, cap)
  {
    if |raw| < slots {
      NoOversizedSelection(slots, raw);
      return None, false;
    }
    var pruned := PruneDominated(raw, slots);
    var kept := pruned.value.0;
    ItemLeIsTotal();
    var ordered := Sort(ItemLe, kept);
    SurvivorsAreSorted(ordered, raw, slots);
    EnoughSurvive(raw, slots, ordered);
    var frontier;
    frontier, truncated := CollectionFrontier(ordered, slots, budget, cap);
    PrunedLevel(frontier, slots, ordered, kept, raw, budget, !truncated);
    PrunedCut(frontier, slots, ordered, kept, raw, budget, cap);
    if frontier == [] {
      forall s | Selection(s, slots, raw) ensures Float(s) > budget {
        assert Matched(frontier, slots, raw, budget, !truncated, s);
      }
      return None, truncated;
    }
    return Option.Some(frontier), truncated;
  }

  /** `[p for p in combined if p.total_normalized <= budget]`. */
  function WithinBudget(points: seq<FrontierPoint>, budget: real): (kept: seq<FrontierPoint>)
    ensures (forall i | 0 <= i < |points| :: points[i].normalized <= budget) ==> kept == points
  {
    if points == [] then []
    else
      var rest := WithinBudget(points[..|points| - 1], budget);
      if points[|points| - 1].normalized <= budget then rest + [points[|points| - 1]] else rest
  }

  /** `min(feasible, key=(cost, float))`. */
  method Cheapest(points: seq<FrontierPoint>) returns (best: FrontierPoint)
    requires points != []
    ensures best in points
    ensures LexLeast(best, points)
  {
    best := points[0];
    for i := 1 to |points|
      invariant best in points
      invariant LexLeast(best, points[..i])
    {
      if points[i].cost < best.cost || (points[i].cost == best.cost && points[i].normalized < best.normalized) {
        best := points[i];
      }
      PrefixStep(points, i);
    }
    WholePrefix(points);
  }

  ghost predicate LexLeast(best: FrontierPoint, points: seq<FrontierPoint>) {
    forall i | 0 <= i < |points| :: LexNoWorse(best.cost, best.normalized, points[i].cost, points[i].normalized)
  }

  lemma {:induction false} FlattenPrefixFloat(keys: seq<int>, parts: Market, i: nat)
    requires i <= |keys|
    ensures Float(Flatten(keys[..i], parts)) <= Float(Flatten(keys, parts))
  {
    if i == |keys| {
      assert keys[..i] == keys;
    } else {
      var init := keys[..|keys| - 1];
      assert init[..i] == keys[..i];
      FlattenPrefixFloat(init, parts, i);
      FlattenLast(keys, parts);
    }
  }

  lemma FillsPrefix(keys: seq<int>, counts: Composition, market: Market, parts: Market, i: nat)
    requires i <= |keys| && Fills(keys, counts, market, parts)
    ensures Fills(keys[..i], counts, market, parts)
  {
  }

  /** An empty fold, at whatever collection, rules out every bundle. */
  lemma EmptyFold(counts: Composition, market: Market, budget: real, i: nat, exact: bool)
    requires i <= |SortedKeys(counts.Keys)|
    requires Folded([], SortedKeys(counts.Keys)[..i], counts, market, budget, exact)
    ensures forall parts :: !Feasible(counts, market, budget, parts)
  {
    forall parts ensures !Feasible(counts, market, budget, parts) {
      if Fills(SortedKeys(counts.Keys), counts, market, parts) {
        assert PartsMatched([], SortedKeys(counts.Keys)[..i], counts, market, budget, exact, parts);
        PrefixTooDear(SortedKeys(counts.Keys), counts, market, budget, i, exact, parts);
      }
    }
  }

  lemma PrefixTooDear(keys: seq<int>, counts: Composition, market: Market, budget: real, i: nat, exact: bool,
                      parts: Market)
    requires i <= |keys| && Fills(keys, counts, market, parts)
    requires PartsMatched([], keys[..i], counts, market, budget, exact, parts)
    ensures Float(Flatten(keys, parts)) > budget
  {
    FlattenPrefixFloat(keys, parts, i);
    FillsPrefix(keys, counts, market, parts, i);
  }

  lemma StartOfFold(counts: Composition, market: Market, budget: real)
    ensures Folded([FrontierPoint(0.0, 0, [])], [], counts, market, budget, true)
  {
    var start := [FrontierPoint(0.0, 0, [])];
    assert Fills([], counts, market, map[]) && Matches(start[0], Flatten([], map[]));
    assert FoldedPoint(start, 0, [], counts, market, budget);
    forall parts ensures PartsMatched(start, [], counts, market, budget, true, parts) {
      assert NoWorse(start[0], Float(Flatten([], parts)), Cost(Flatten([], parts)), true);
    }
  }

  /** The cheapest point of the finished fold is the answer. */
  lemma CheapestSolves(counts: Composition, market: Market, budget: real, combined: seq<FrontierPoint>,
                       exact: bool, best: FrontierPoint)
    requires Folded(combined, SortedKeys(counts.Keys), counts, market, budget, exact)
    requires best in combined && LexLeast(best, combined)
    ensures Solves(counts, market, budget,
                   Option.Some(BundleSolution(Identities(best.selection), best.cost, best.normalized, budget)), exact)
  {
    var keys := SortedKeys(counts.Keys);
    var b := BundleSolution(Identities(best.selection), best.cost, best.normalized, budget);
    var m :| 0 <= m < |combined| && combined[m] == best;
    assert FoldedPoint(combined, m, keys, counts, market, budget);
    var parts :| Fills(keys, counts, market, parts) && Matches(best, Flatten(keys, parts));
    SomeKey(counts);
    assert Feasible(counts, market, budget, parts) && Buys(b, Listings(counts, parts));
    if exact {
      forall other ensures NoBetter(counts, market, budget, b, other) {
        if Feasible(counts, market, budget, other) {
          LexBest(counts, market, budget, combined, best, other);
        }
      }
    }
  }

  lemma LexBest(counts: Composition, market: Market, budget: real, combined: seq<FrontierPoint>,
                best: FrontierPoint, parts: Market)
    requires Folded(combined, SortedKeys(counts.Keys), counts, market, budget, true) && LexLeast(best, combined)
    requires Feasible(counts, market, budget, parts)
    ensures LexNoWorse(best.cost, best.normalized, Cost(Listings(counts, parts)), Float(Listings(counts, parts)))
  {
    var s := Listings(counts, parts);
    assert PartsMatched(combined, SortedKeys(counts.Keys), counts, market, budget, true, parts);
    var i := Witness(combined, Float(s), Cost(s), true);
    assert LexNoWorse(best.cost, best.normalized, combined[i].cost, combined[i].normalized);
  }

  /** The fold always keeps a least-float point, so with room for one point only that is what is bought. */
  ghost predicate LeastFloat(counts: Composition, market: Market, budget: real, b: BundleSolution) {
    forall parts | Feasible(counts, market, budget, parts) :: b.totalNormalized <= Float(Listings(counts, parts))
  }

  ghost predicate Built(perCollection: map<int, seq<FrontierPoint>>, c: int, counts: Composition, market: Market,
                        budget: real, exact: bool)
  {
    && c in perCollection
    && Level(perCollection[c], Count(counts, c), Pool(market, c), budget, exact)
  }

  lemma FoldAdvance(combined: seq<FrontierPoint>, keys: seq<int>, c: int, counts: Composition, market: Market,
                    budget: real, exact: bool, frontier: seq<FrontierPoint>, merged: seq<FrontierPoint>, cap: nat)
    requires c !in keys && cap >= 1
    requires Folded(combined, keys, counts, market, budget, exact)
    requires Level(frontier, Count(counts, c), Pool(market, c), budget, exact)
    requires FrontierOf(merged, Sums(combined, frontier, Option.Some(budget)))
    ensures Folded(FirstPoints(merged, cap), keys + [c], counts, market, budget, exact && |merged| <= cap)
    ensures exact && |merged| > cap ==> FoldCutTo(FirstPoints(merged, cap), keys + [c], counts, market, budget, cap)
  {
    FoldStep(combined, keys, c, counts, market, budget, exact, frontier, merged);
    TruncatedFold(merged, keys + [c], counts, market, budget, exact, cap);
  }

  /** Folds in one collection. */
  method FoldOne(combined: seq<FrontierPoint>, ghost keys: seq<int>, ghost c: int, ghost counts: Composition,
                 ghost market: Market, frontier: seq<FrontierPoint>, budget: real, cap: nat, ghost exact: bool)
      returns (next: seq<FrontierPoint>, ghost stillExact: bool)
    requires c !in keys && cap >= 1
    requires Folded(combined, keys, counts, market, budget, exact)
    requires Level(frontier, Count(counts, c), Pool(market, c), budget, exact)
    ensures |next| <= cap && Folded(next, keys + [c], counts, market, budget, stillExact)
    ensures stillExact ==> exact
    ensures exact && !stillExact ==> FoldCutTo(next, keys + [c], counts, market, budget, cap)
    ensures forall i | 0 <= i < |next| :: next[i] in Sums(combined, frontier, Option.Some(budget))
  {
    var merged := MergeFrontier(combined, frontier, Option.Some(budget));
    FoldAdvance(combined, keys, c, counts, market, budget, exact, frontier, merged, cap);
    next := FirstPoints(merged, cap);
    stillExact := exact && |merged| <= cap;
  }

  /** One more fold: the account of what overflowed extends by one prefix of the collections. */
  lemma FoldOverflowStep(keys: seq<int>, i: nat, counts: Composition, market: Market, budget: real, cap: nat,
                         next: seq<FrontierPoint>, start: bool, before: bool, after: bool)
    requires i < |keys|
    requires before <==> start || FoldsOverflow(keys, i, counts, market, budget, cap)
    requires before ==> after
    requires !before && after ==> FoldCutTo(next, keys[..i + 1], counts, market, budget, cap)
    requires !after ==> Folded(next, keys[..i + 1], counts, market, budget, true) && |next| <= cap
    ensures after <==> start || FoldsOverflow(keys, i + 1, counts, market, budget, cap)
  {
    if before && !start {
      var m :| 0 < m <= i && FoldOverflows(keys[..m], counts, market, budget, cap);
      assert m <= i + 1;
    }
    if !after {
      FittingFold(next, keys[..i + 1], counts, market, budget, cap);
    }
  }

  lemma FoldsOverflowLater(keys: seq<int>, i: nat, counts: Composition, market: Market, budget: real, cap: nat)
    requires i <= |keys|
    ensures FoldsOverflow(keys, i, counts, market, budget, cap)
        ==> FoldsOverflow(keys, |keys|, counts, market, budget, cap)
  {
    if FoldsOverflow(keys, i, counts, market, budget, cap) {
      var m :| 0 < m <= i && FoldOverflows(keys[..m], counts, market, budget, cap);
      assert m <= |keys|;
    }
  }

  lemma StartFold(counts: Composition, market: Market, budget: real, exact: bool)
    ensures Folded([FrontierPoint(0.0, 0, [])], [], counts, market, budget, exact)
  {
    StartOfFold(counts, market, budget);
    WeakenedFold([FrontierPoint(0.0, 0, [])], [], counts, market, budget, true, exact);
  }

  ghost predicate AllBuilt(perCollection: map<int, seq<FrontierPoint>>, keys: seq<int>, counts: Composition,
                           market: Market, budget: real, exact: bool)
  {
    forall i | 0 <= i < |keys| :: Built(perCollection, keys[i], counts, market, budget, exact)
  }

  /** The frontier of the next collection, at the exactness the fold has left. */
  lemma NextBuilt(perCollection: map<int, seq<FrontierPoint>>, keys: seq<int>, i: nat, counts: Composition,
                  market: Market, budget: real, exact: bool, weaker: bool)
    requires i < |keys| && AllBuilt(perCollection, keys, counts, market, budget, exact) && (weaker ==> exact)
    requires Ascending(keys)
    ensures keys[i] in perCollection && keys[i] !in keys[..i]
    ensures Level(perCollection[keys[i]], Count(counts, keys[i]), Pool(market, keys[i]), budget, weaker)
  {
    assert Built(perCollection, keys[i], counts, market, budget, exact);
    Weakened(perCollection[keys[i]], Count(counts, keys[i]), Pool(market, keys[i]), budget, exact, weaker);
  }

  /** Unless a shorter fold overflows too, the fold was cut to `combined`. */
  ghost predicate CutLast(combined: seq<FrontierPoint>, keys: seq<int>, counts: Composition, market: Market,
                          budget: real, cap: nat)
  {
    || FoldCutTo(combined, keys, counts, market, budget, cap)
    || exists i :: 0 < i < |keys| && FoldOverflows(keys[..i], counts, market, budget, cap)
  }

  lemma CutLastStep(combined: seq<FrontierPoint>, next: seq<FrontierPoint>, keys: seq<int>, i: nat, counts: Composition,
                    market: Market, budget: real, cap: nat, before: bool, after: bool)
    requires i < |keys| && (before ==> i > 0 && CutLast(combined, keys[..i], counts, market, budget, cap))
    requires !before && after ==> FoldCutTo(next, keys[..i + 1], counts, market, budget, cap)
    ensures before || after ==> CutLast(next, keys[..i + 1], counts, market, budget, cap)
  {
    if before && FoldCutTo(combined, keys[..i], counts, market, budget, cap) {
      assert keys[..i] == keys[..i + 1][..i];
    } else if before {
      var m :| 0 < m < i && FoldOverflows(keys[..i][..m], counts, market, budget, cap);
      assert keys[..i][..m] == keys[..i + 1][..m];
    }
  }

  /** The fold over a lone collection: its frontier, point by point. */
  ghost predicate SumsWithFirst(combined: seq<FrontierPoint>, keys: seq<int>,
                                perCollection: map<int, seq<FrontierPoint>>, budget: real)
  {
    keys != [] && keys[0] in perCollection
    && forall m | 0 <= m < |combined| ::
         combined[m] in Sums([FrontierPoint(0.0, 0, [])], perCollection[keys[0]], Option.Some(budget))
  }

  /** The fold over the first `i` collections, whether anything was cut up to there, and where. */
  ghost predicate FoldedSoFar(combined: seq<FrontierPoint>, keys: seq<int>, i: nat, counts: Composition, market: Market,
                              perCollection: map<int, seq<FrontierPoint>>, budget: real, cap: nat, before: bool,
                              truncated: bool)
    requires i <= |keys|
  {
    && |combined| <= cap && Folded(combined, keys[..i], counts, market, budget, !truncated)
    && (truncated <==> before || FoldsOverflow(keys, i, counts, market, budget, cap))
    && (!before && truncated ==> CutLast(combined, keys[..i], counts, market, budget, cap))
    && (i == 0 ==> combined == [FrontierPoint(0.0, 0, [])] && truncated == before)
    && (i == 1 ==> SumsWithFirst(combined, keys, perCollection, budget))
  }

  /** The same as a value, so that the loop over the collections need not look inside it. */
  ghost function FoldTest(keys: seq<int>, counts: Composition, market: Market,
                          perCollection: map<int, seq<FrontierPoint>>, budget: real, cap: nat, before: bool)
      : (seq<FrontierPoint>, nat, bool) -> bool
  {
    (combined: seq<FrontierPoint>, i: nat, truncated: bool) =>
      i <= |keys| && FoldedSoFar(combined, keys, i, counts, market, perCollection, budget, cap, before, truncated)
  }

  lemma NothingFolded(keys: seq<int>, counts: Composition, market: Market, perCollection: map<int, seq<FrontierPoint>>,
                      budget: real, cap: nat, before: bool)
    requires cap >= 1
    ensures FoldTest(keys, counts, market, perCollection, budget, cap, before)([FrontierPoint(0.0, 0, [])], 0, before)
  {
    StartFold(counts, market, budget, !before);
    assert keys[..0] == [];
  }

  lemma TestPassed(next: seq<FrontierPoint>, keys: seq<int>, i: nat, counts: Composition, market: Market,
                   perCollection: map<int, seq<FrontierPoint>>, budget: real, cap: nat, before: bool, truncated: bool)
    requires 0 < i <= |keys| && |next| <= cap && Folded(next, keys[..i], counts, market, budget, !truncated)
    requires truncated <==> before || FoldsOverflow(keys, i, counts, market, budget, cap)
    requires !before && truncated ==> CutLast(next, keys[..i], counts, market, budget, cap)
    requires i == 1 ==> SumsWithFirst(next, keys, perCollection, budget)
    ensures FoldTest(keys, counts, market, perCollection, budget, cap, before)(next, i, truncated)
  {
  }

  lemma SoFarStep(combined: seq<FrontierPoint>, next: seq<FrontierPoint>, keys: seq<int>, i: nat, counts: Composition,
                  market: Market, perCollection: map<int, seq<FrontierPoint>>, budget: real, cap: nat, before: bool,
                  truncated: bool, truncated': bool)
    requires i < |keys| && keys[i] in perCollection && (truncated ==> truncated')
    requires FoldedSoFar(combined, keys, i, counts, market, perCollection, budget, cap, before, truncated)
    requires |next| <= cap && Folded(next, keys[..i + 1], counts, market, budget, !truncated')
    requires !truncated && truncated' ==> FoldCutTo(next, keys[..i + 1], counts, market, budget, cap)
    requires forall m | 0 <= m < |next| :: next[m] in Sums(combined, perCollection[keys[i]], Option.Some(budget))
    ensures FoldTest(keys, counts, market, perCollection, budget, cap, before)(next, i + 1, truncated')
  {
    FoldOverflowStep(keys, i, counts, market, budget, cap, next, before, truncated, truncated');
    if !before {
      CutLastStep(combined, next, keys, i, counts, market, budget, cap, truncated, truncated');
    }
    TestPassed(next, keys, i + 1, counts, market, perCollection, budget, cap, before, truncated');
  }

  method FoldNext(combined: seq<FrontierPoint>, keys: seq<int>, i: nat, counts: Composition, market: Market,
                  perCollection: map<int, seq<FrontierPoint>>, budget: real, cap: nat, ghost before: bool,
                  ghost truncated: bool)
      returns (next: seq<FrontierPoint>, ghost truncated': bool)
    requires cap >= 1 && i < |keys| && Ascending(keys)
    requires AllBuilt(perCollection, keys, counts, market, budget, !before)
    requires FoldTest(keys, counts, market, perCollection, budget, cap, before)(combined, i, truncated)
    ensures FoldTest(keys, counts, market, perCollection, budget, cap, before)(next, i + 1, truncated')
  {
    NextBuilt(perCollection, keys, i, counts, market, budget, !before, !truncated);
    ghost var stillExact;
    next, stillExact :=
      FoldOne(combined, keys[..i], keys[i], counts, market, perCollection[keys[i]], budget, cap, !truncated);
    truncated' := !stillExact;
    PrefixStep(keys, i);
    SoFarStep(combined, next, keys, i, counts, market, perCollection, budget, cap, before, truncated, truncated');
  }

  /** Folds the collections together over the one shared budget, up to the first that leaves nothing. */
  method FoldAll(counts: Composition, market: Market, keys: seq<int>, perCollection: map<int, seq<FrontierPoint>>,
                 budget: real, cap: nat, ghost before: bool)
      returns (combined: seq<FrontierPoint>, ghost truncated: bool, ghost folded: nat)
    requires cap >= 1 && Ascending(keys)
    requires AllBuilt(perCollection, keys, counts, market, budget, !before)
    ensures folded <= |keys| && (combined != [] ==> folded == |keys|)
    ensures FoldTest(keys, counts, market, perCollection, budget, cap, before)(combined, folded, truncated)
  {
    ghost var soFar := FoldTest(keys, counts, market, perCollection, budget, cap, before);
    truncated, folded := before, 0;
    combined := [FrontierPoint(0.0, 0, [])];
    NothingFolded(keys, counts, market, perCollection, budget, cap, before);
    for i := 0 to |keys|
      invariant combined != [] && folded == i && soFar(combined, folded, truncated)
    {
      combined, truncated :=
        FoldNext(combined, keys, i, counts, market, perCollection, budget, cap, before, truncated);
      folded := i + 1;
      if combined == [] {
        return;
      }
    }
  }

  /** Folds the collections in ascending order. */
  method FoldCollections(counts: Composition, market: Market, perCollection: map<int, seq<FrontierPoint>>,
                         budget: real, cap: nat, ghost before: bool)
      returns (combined: seq<FrontierPoint>, ghost truncated: bool)
    requires cap >= 1
    requires AllBuilt(perCollection, SortedKeys(counts.Keys), counts, market, budget, !before)
    ensures combined == [] ==> forall parts :: !Feasible(counts, market, budget, parts)
    ensures |combined| <= cap
    ensures combined != [] ==> Folded(combined, SortedKeys(counts.Keys), counts, market, budget, !truncated)
    ensures var keys := SortedKeys(counts.Keys);
      var overflows := before || FoldsOverflow(keys, |keys|, counts, market, budget, cap);
      (truncated ==> overflows) && (combined != [] ==> (truncated <==> overflows))
    ensures combined != [] && !before && truncated ==>
      CutLast(combined, SortedKeys(counts.Keys), counts, market, budget, cap)
    ensures combined != [] && |SortedKeys(counts.Keys)| == 1 ==>
      SumsWithFirst(combined, SortedKeys(counts.Keys), perCollection, budget)
  {
    var keys := SortedKeys(counts.Keys);
    ghost var folded;
    combined, truncated, folded := FoldAll(counts, market, keys, perCollection, budget, cap, before);
    assert FoldedSoFar(combined, keys, folded, counts, market, perCollection, budget, cap, before, truncated);
    FoldsOverflowLater(keys, folded, counts, market, budget, cap);
    if combined == [] {
      EmptyFold(counts, market, budget, folded, !truncated);
    } else {
      WholePrefix(keys);
    }
  }

  lemma OneMoreBuilt(perCollection: map<int, seq<FrontierPoint>>, keys: seq<int>, c: int, counts: Composition,
                     market: Market, budget: real, exact: bool, frontier: seq<FrontierPoint>, cut: bool)
    requires AllBuilt(perCollection, keys, counts, market, budget, exact) && c !in keys
    requires Level(frontier, Count(counts, c), Pool(market, c), budget, !cut)
    ensures AllBuilt(perCollection[c := frontier], keys + [c], counts, market, budget, exact && !cut)
  {
    var after := perCollection[c := frontier];
    var stillExact := exact && !cut;
    forall i | 0 <= i < |keys + [c]| ensures Built(after, (keys + [c])[i], counts, market, budget, stillExact) {
      if i < |keys| {
        assert Built(perCollection, keys[i], counts, market, budget, exact);
        Weakened(perCollection[keys[i]], Count(counts, keys[i]), Pool(market, keys[i]), budget, exact, stillExact);
      } else {
        Weakened(frontier, Count(counts, c), Pool(market, c), budget, !cut, stillExact);
      }
    }
  }

  lemma CollectionsOverflowStep(keys: seq<int>, i: nat, counts: Composition, market: Market, budget: real, cap: nat)
    requires i < |keys|
    ensures CollectionsOverflow(keys, i + 1, counts, market, budget, cap)
       <==> CollectionsOverflow(keys, i, counts, market, budget, cap)
            || CollectionOverflows(Pool(market, keys[i]), Count(counts, keys[i]), budget, cap)
  {
  }

  lemma EachKeyOnce(counts: Composition, i: nat)
    requires i < |SortedKeys(counts.Keys)|
    ensures SortedKeys(counts.Keys)[i] in counts && SortedKeys(counts.Keys)[i] !in SortedKeys(counts.Keys)[..i]
  {
    assert SortedKeys(counts.Keys)[i] in counts.Keys;
  }

  /** Unless it overflows earlier too, the collection's frontier was cut at its last level. */
  ghost predicate LoneCut(perCollection: map<int, seq<FrontierPoint>>, c: int, counts: Composition, market: Market,
                          budget: real, cap: nat)
  {
    c in perCollection
    && (!CollectionOverflowsEarly(Pool(market, c), Count(counts, c), budget, cap) ==>
          CutTo(perCollection[c], Count(counts, c), Pool(market, c), budget, cap))
  }

  /** The frontiers of the first `i` collections, and whether anything was cut for them. */
  ghost predicate BuiltSoFar(perCollection: map<int, seq<FrontierPoint>>, keys: seq<int>, i: nat, counts: Composition,
                             market: Market, budget: real, cap: nat, truncated: bool)
    requires i <= |keys|
  {
    && AllBuilt(perCollection, keys[..i], counts, market, budget, !truncated)
    && (truncated <==> CollectionsOverflow(keys, i, counts, market, budget, cap))
    && (i == 1 && truncated ==> LoneCut(perCollection, keys[0], counts, market, budget, cap))
  }

  ghost function BuildTest(keys: seq<int>, counts: Composition, market: Market, budget: real, cap: nat)
      : (map<int, seq<FrontierPoint>>, nat, bool) -> bool
  {
    (perCollection: map<int, seq<FrontierPoint>>, i: nat, truncated: bool) =>
      i <= |keys| && BuiltSoFar(perCollection, keys, i, counts, market, budget, cap, truncated)
  }

  lemma BuildTestPassed(perCollection: map<int, seq<FrontierPoint>>, keys: seq<int>, i: nat, counts: Composition,
                        market: Market, budget: real, cap: nat, truncated: bool)
    requires i <= |keys| && AllBuilt(perCollection, keys[..i], counts, market, budget, !truncated)
    requires truncated <==> CollectionsOverflow(keys, i, counts, market, budget, cap)
    requires i == 1 && truncated ==> LoneCut(perCollection, keys[0], counts, market, budget, cap)
    ensures BuildTest(keys, counts, market, budget, cap)(perCollection, i, truncated)
  {
  }

  lemma BuiltStep(perCollection: map<int, seq<FrontierPoint>>, keys: seq<int>, i: nat, counts: Composition,
                  market: Market, budget: real, cap: nat, truncated: bool, frontier: seq<FrontierPoint>, cut: bool)
    requires i < |keys| && keys[i] !in keys[..i]
    requires BuiltSoFar(perCollection, keys, i, counts, market, budget, cap, truncated)
    requires Level(frontier, Count(counts, keys[i]), Pool(market, keys[i]), budget, !cut)
    requires cut <==> CollectionOverflows(Pool(market, keys[i]), Count(counts, keys[i]), budget, cap)
    requires cut ==> LoneCut(map[keys[i] := frontier], keys[i], counts, market, budget, cap)
    ensures BuildTest(keys, counts, market, budget, cap)(perCollection[keys[i] := frontier], i + 1, truncated || cut)
  {
    CollectionsOverflowStep(keys, i, counts, market, budget, cap);
    PrefixStep(keys, i);
    OneMoreBuilt(perCollection, keys[..i], keys[i], counts, market, budget, !truncated, frontier, cut);
    BuildTestPassed(perCollection[keys[i] := frontier], keys, i + 1, counts, market, budget, cap, truncated || cut);
  }

  lemma CutOverflows(keys: seq<int>, i: nat, counts: Composition, market: Market, budget: real, cap: nat)
    requires i < |keys|
    ensures CollectionsOverflow(keys, i, counts, market, budget, cap)
            || CollectionOverflows(Pool(market, keys[i]), Count(counts, keys[i]), budget, cap)
        ==> CollectionsOverflow(keys, |keys|, counts, market, budget, cap)
  {
  }

  method BuildNext(perCollection: map<int, seq<FrontierPoint>>, keys: seq<int>, i: nat, counts: Composition,
                   market: Market, budget: real, cap: nat, ghost truncated: bool)
      returns (r: Option<map<int, seq<FrontierPoint>>>, ghost truncated': bool)
    requires cap >= 1 && i < |keys| && keys[i] in counts && keys[i] !in keys[..i]
    requires BuildTest(keys, counts, market, budget, cap)(perCollection, i, truncated)
    ensures r.None? ==> forall parts :: !Feasible(counts, market, budget, parts)
    ensures r.None? && truncated' ==> CollectionsOverflow(keys, |keys|, counts, market, budget, cap)
    ensures r.Some? ==> BuildTest(keys, counts, market, budget, cap)(r.value, i + 1, truncated')
  {
    ghost var cut;
    var built;
    built, cut := BuildFrontier(Pool(market, keys[i]), Count(counts, keys[i]), budget, cap);
    truncated' := truncated || cut;
    if built.None? {
      NothingFeasible(counts, market, budget, keys[i]);
      CutOverflows(keys, i, counts, market, budget, cap);
      return None, truncated';
    }
    BuiltStep(perCollection, keys, i, counts, market, budget, cap, truncated, built.value, cut);
    r := Option.Some(perCollection[keys[i] := built.value]);
  }

  /** Builds the frontiers in the order of `keys`, up to the first collection that cannot be filled. */
  method BuildAll(counts: Composition, market: Market, keys: seq<int>, budget: real, cap: nat)
      returns (r: Option<map<int, seq<FrontierPoint>>>, ghost truncated: bool)
    requires cap >= 1 && forall i | 0 <= i < |keys| :: keys[i] in counts && keys[i] !in keys[..i]
    ensures r.None? ==> forall parts :: !Feasible(counts, market, budget, parts)
    ensures r.None? && truncated ==> CollectionsOverflow(keys, |keys|, counts, market, budget, cap)
    ensures r.Some? ==> BuildTest(keys, counts, market, budget, cap)(r.value, |keys|, truncated)
  {
    r, truncated := Option.Some(map[]), false;
    BuildTestPassed(map[], keys, 0, counts, market, budget, cap, false);
    for i := 0 to |keys|
      invariant r.Some? && BuildTest(keys, counts, market, budget, cap)(r.value, i, truncated)
    {
      r, truncated := BuildNext(r.value, keys, i, counts, market, budget, cap, truncated);
      if r.None? {
        return;
      }
    }
  }

  /** The frontiers of all the collections, or `None` when one of them cannot be filled. */
  method BuildFrontiers(counts: Composition, market: Market, budget: real, cap: nat)
      returns (r: Option<map<int, seq<FrontierPoint>>>, ghost truncated: bool)
    requires cap >= 1
    ensures r.None? ==> forall parts :: !Feasible(counts, market, budget, parts)
    ensures r.Some? ==> AllBuilt(r.value, SortedKeys(counts.Keys), counts, market, budget, !truncated)
    ensures var keys := SortedKeys(counts.Keys);
      var overflows := CollectionsOverflow(keys, |keys|, counts, market, budget, cap);
      (truncated ==> overflows) && (r.Some? ==> (truncated <==> overflows))
    ensures r.Some? && truncated && |SortedKeys(counts.Keys)| == 1 ==>
      LoneCut(r.value, SortedKeys(counts.Keys)[0], counts, market, budget, cap)
  {
    var keys := SortedKeys(counts.Keys);
    forall i | 0 <= i < |keys| ensures keys[i] in counts && keys[i] !in keys[..i] {
      EachKeyOnce(counts, i);
    }
    r, truncated := BuildAll(counts, market, keys, budget, cap);
    WholePrefix(keys);
    if r.Some? {
      assert BuiltSoFar(r.value, keys, |keys|, counts, market, budget, cap, truncated);
    }
  }

  // ----- what the last cut costs

  ghost predicate CostIsIn(cost: int, points: seq<FrontierPoint>) {
    exists i :: 0 <= i < |points| && points[i].cost == cost
  }

  ghost predicate AllDearer(points: seq<FrontierPoint>, cost: int) {
    forall i | 0 <= i < |points| :: points[i].cost > cost
  }

  /** Every point left costs more than some feasible bundle. */
  ghost predicate MissesCheapest(combined: seq<FrontierPoint>, counts: Composition, market: Market, budget: real) {
    exists parts :: Feasible(counts, market, budget, parts) && AllDearer(combined, Cost(Listings(counts, parts)))
  }

  lemma PointIsFeasible(f: seq<FrontierPoint>, i: nat, counts: Composition, market: Market, budget: real)
      returns (parts: Market)
    requires Folded(f, SortedKeys(counts.Keys), counts, market, budget, true) && i < |f|
    ensures Feasible(counts, market, budget, parts)
    ensures Cost(Listings(counts, parts)) == f[i].cost && Float(Listings(counts, parts)) == f[i].normalized
  {
    var keys := SortedKeys(counts.Keys);
    SomeKey(counts);
    assert FoldedPoint(f, i, keys, counts, market, budget);
    parts :| Fills(keys, counts, market, parts) && Matches(f[i], Flatten(keys, parts));
  }

  /** The points cut off are the cheap ones. */
  lemma CutMissesCheapest(f: seq<FrontierPoint>, combined: seq<FrontierPoint>, counts: Composition, market: Market,
                          budget: real)
    requires Folded(f, SortedKeys(counts.Keys), counts, market, budget, true) && f != []
    requires AllDearer(combined, f[|f| - 1].cost)
    ensures MissesCheapest(combined, counts, market, budget)
  {
    var parts := PointIsFeasible(f, |f| - 1, counts, market, budget);
    assert AllDearer(combined, Cost(Listings(counts, parts)));
  }

  lemma KeptAreDearer(f: seq<FrontierPoint>, cap: nat)
    requires StrictFrontier(f) && |f| > cap
    ensures AllDearer(FirstPoints(f, cap), f[|f| - 1].cost)
  {
  }

  lemma FoldCutMissesCheapest(combined: seq<FrontierPoint>, counts: Composition, market: Market, budget: real, cap: nat)
    requires FoldCutTo(combined, SortedKeys(counts.Keys), counts, market, budget, cap)
    ensures MissesCheapest(combined, counts, market, budget)
  {
    var f :| Folded(f, SortedKeys(counts.Keys), counts, market, budget, true) && |f| > cap
             && combined == FirstPoints(f, cap);
    KeptAreDearer(f, cap);
    CutMissesCheapest(f, combined, counts, market, budget);
  }

  /** A lone collection's frontier, with nothing joined to it. */
  ghost function Alone(f: seq<FrontierPoint>): (g: seq<FrontierPoint>)
    ensures |g| == |f| && forall i | 0 <= i < |g| :: g[i] == Join(FrontierPoint(0.0, 0, []), f[i])
  {
    seq(|f|, i requires 0 <= i < |f| => Join(FrontierPoint(0.0, 0, []), f[i]))
  }

  lemma AloneIsFrontier(f: seq<FrontierPoint>, budget: real)
    requires StrictFrontier(f) && forall i | 0 <= i < |f| :: f[i].normalized <= budget
    ensures FrontierOf(Alone(f), Sums([FrontierPoint(0.0, 0, [])], f, Option.Some(budget)))
  {
    var origin, g := FrontierPoint(0.0, 0, []), Alone(f);
    forall p | p in Sums([origin], f, Option.Some(budget)) ensures Covers(g, p.normalized, p.cost, true) {
      var b :| b in f && p == Join(origin, b);
      var i :| 0 <= i < |f| && f[i] == b;
      assert NoWorse(g[i], p.normalized, p.cost, true);
    }
    forall i | 0 <= i < |g| ensures g[i] in Sums([origin], f, Option.Some(budget)) {
      assert f[i] in f && origin in [origin];
    }
  }

  /** It is the frontier of the fold. */
  lemma LevelIsFold(f: seq<FrontierPoint>, c: int, counts: Composition, market: Market, budget: real)
    requires Count(counts, c) > 0 && Level(f, Count(counts, c), Pool(market, c), budget, true)
    ensures Folded(Alone(f), [c], counts, market, budget, true)
  {
    StartOfFold(counts, market, budget);
    AloneIsFrontier(f, budget);
    FoldStep([FrontierPoint(0.0, 0, [])], [], c, counts, market, budget, true, f, Alone(f));
    assert [] + [c] == [c];
  }

  lemma SumsAreDearer(combined: seq<FrontierPoint>, kept: seq<FrontierPoint>, budget: real, cost: int)
    requires AllDearer(kept, cost)
    requires forall m | 0 <= m < |combined| ::
      combined[m] in Sums([FrontierPoint(0.0, 0, [])], kept, Option.Some(budget))
    ensures AllDearer(combined, cost)
  {
    forall m | 0 <= m < |combined| ensures combined[m].cost > cost {
      var a, b :| a in [FrontierPoint(0.0, 0, [])] && b in kept && combined[m] == Join(a, b);
      var i :| 0 <= i < |kept| && kept[i] == b;
    }
  }

  lemma LoneCutMissesCheapest(combined: seq<FrontierPoint>, perCollection: map<int, seq<FrontierPoint>>, c: int,
                              counts: Composition, market: Market, budget: real, cap: nat)
    requires SortedKeys(counts.Keys) == [c] && Count(counts, c) > 0 && c in perCollection
    requires CutTo(perCollection[c], Count(counts, c), Pool(market, c), budget, cap)
    requires SumsWithFirst(combined, [c], perCollection, budget)
    ensures MissesCheapest(combined, counts, market, budget)
    ensures FoldOverflows(SortedKeys(counts.Keys), counts, market, budget, cap)
  {
    var f: seq<FrontierPoint> :| Level(f, Count(counts, c), Pool(market, c), budget, true) && |f| > cap
             && perCollection[c] == FirstPoints(f, cap);
    KeptAreDearer(f, cap);
    SumsAreDearer(combined, perCollection[c], budget, f[|f| - 1].cost);
    LevelIsFold(f, c, counts, market, budget);
    CutMissesCheapest(Alone(f), combined, counts, market, budget);
  }

  ghost predicate CheaperExists(counts: Composition, market: Market, budget: real, price: int) {
    exists parts :: Feasible(counts, market, budget, parts) && Cost(Listings(counts, parts)) < price
  }

  lemma MissingCheapest(combined: seq<FrontierPoint>, counts: Composition, market: Market, budget: real, price: int)
    requires MissesCheapest(combined, counts, market, budget) && CostIsIn(price, combined)
    ensures CheaperExists(counts, market, budget, price)
  {
    var parts :| Feasible(counts, market, budget, parts) && AllDearer(combined, Cost(Listings(counts, parts)));
  }

  /** If a bundle is cheaper, the answer is not the best. */
  lemma CheaperIsBetter(counts: Composition, market: Market, budget: real, b: BundleSolution)
    requires CheaperExists(counts, market, budget, b.totalCost)
    ensures !Solves(counts, market, budget, Option.Some(b), true)
  {
    var parts :| Feasible(counts, market, budget, parts) && Cost(Listings(counts, parts)) < b.totalCost;
    NotBest(counts, market, budget, b, parts);
  }

  lemma NotBest(counts: Composition, market: Market, budget: real, b: BundleSolution, parts: Market)
    requires Feasible(counts, market, budget, parts) && Cost(Listings(counts, parts)) < b.totalCost
    ensures !Solves(counts, market, budget, Option.Some(b), true)
  {
    assert !NoBetter(counts, market, budget, b, parts);
  }

  lemma LoneCutDecides(counts: Composition, market: Market, perCollection: map<int, seq<FrontierPoint>>, c: int,
                       budget: real, cap: nat, combined: seq<FrontierPoint>, b: BundleSolution)
    requires SortedKeys(counts.Keys) == [c] && LoneCut(perCollection, c, counts, market, budget, cap)
    requires !CollectionOverflowsEarly(Pool(market, c), Count(counts, c), budget, cap)
    requires SumsWithFirst(combined, [c], perCollection, budget) && CostIsIn(b.totalCost, combined)
    ensures FoldOverflows(SortedKeys(counts.Keys), counts, market, budget, cap)
    ensures CheaperExists(counts, market, budget, b.totalCost)
  {
    assert c in counts by { EachKeyOnce(counts, 0); }
    LoneCutMissesCheapest(combined, perCollection, c, counts, market, budget, cap);
    MissingCheapest(combined, counts, market, budget, b.totalCost);
  }

  lemma FoldCutDecides(counts: Composition, market: Market, budget: real, cap: nat, combined: seq<FrontierPoint>,
                       b: BundleSolution)
    requires FoldCutTo(combined, SortedKeys(counts.Keys), counts, market, budget, cap)
    requires CostIsIn(b.totalCost, combined)
    ensures CheaperExists(counts, market, budget, b.totalCost)
  {
    FoldCutMissesCheapest(combined, counts, market, budget, cap);
    MissingCheapest(combined, counts, market, budget, b.totalCost);
  }

  lemma LastFoldOverflows(keys: seq<int>, counts: Composition, market: Market, budget: real, cap: nat)
    requires keys != []
    ensures FoldsOverflow(keys, |keys|, counts, market, budget, cap)
       <==> FoldOverflows(keys, counts, market, budget, cap)
            || exists i :: 0 < i < |keys| && FoldOverflows(keys[..i], counts, market, budget, cap)
  {
    assert keys[..|keys|] == keys;
  }

  /** With nothing cut before the last frontier, the answer is best exactly when that was not cut either. */
  lemma LastCutDecides(counts: Composition, market: Market, keys: seq<int>, perCollection: map<int, seq<FrontierPoint>>,
                       budget: real, cap: nat, combined: seq<FrontierPoint>, before: bool, truncated: bool,
                       b: BundleSolution)
    requires keys == SortedKeys(counts.Keys) && keys != []
    requires !OverflowsEarly(counts, market, budget, cap) && CostIsIn(b.totalCost, combined)
    requires Solves(counts, market, budget, Option.Some(b), !truncated)
    requires before <==> CollectionsOverflow(keys, |keys|, counts, market, budget, cap)
    requires truncated <==> before || FoldsOverflow(keys, |keys|, counts, market, budget, cap)
    requires before && |keys| == 1 ==> LoneCut(perCollection, keys[0], counts, market, budget, cap)
    requires !before && truncated ==> CutLast(combined, keys, counts, market, budget, cap)
    requires |keys| == 1 ==> SumsWithFirst(combined, keys, perCollection, budget)
    ensures if FoldOverflows(SortedKeys(counts.Keys), counts, market, budget, cap)
            then CheaperExists(counts, market, budget, b.totalCost)
            else Solves(counts, market, budget, Option.Some(b), true)
  {
    LastFoldOverflows(keys, counts, market, budget, cap);
    if before {
      assert keys == [keys[0]];
      LoneCutDecides(counts, market, perCollection, keys[0], budget, cap, combined, b);
    } else if truncated {
      FoldCutDecides(counts, market, budget, cap, combined, b);
    }
  }

  /** What `Solve` promises for a total float budget, apart from the ghost result. */
  ghost predicate Promised(counts: Composition, market: Market, budget: real, cap: nat, r: Option<BundleSolution>) {
    && Solves(counts, market, budget, r, !Overflows(counts, market, budget, cap))
    && (r.Some? && cap == 1 ==> LeastFloat(counts, market, budget, r.value))
    && (r.Some? && !OverflowsEarly(counts, market, budget, cap) ==>
          if FoldOverflows(SortedKeys(counts.Keys), counts, market, budget, cap)
          then CheaperExists(counts, market, budget, r.value.totalCost)
          else Solves(counts, market, budget, r, true))
  }

  lemma SolutionIsPromised(counts: Composition, market: Market, keys: seq<int>,
                           perCollection: map<int, seq<FrontierPoint>>, budget: real, cap: nat,
                           combined: seq<FrontierPoint>, before: bool, truncated: bool, b: BundleSolution)
    requires keys == SortedKeys(counts.Keys) && keys != [] && CostIsIn(b.totalCost, combined)
    requires Solves(counts, market, budget, Option.Some(b), !truncated)
    requires cap == 1 ==> LeastFloat(counts, market, budget, b)
    requires before <==> CollectionsOverflow(keys, |keys|, counts, market, budget, cap)
    requires truncated <==> before || FoldsOverflow(keys, |keys|, counts, market, budget, cap)
    requires before && |keys| == 1 ==> LoneCut(perCollection, keys[0], counts, market, budget, cap)
    requires !before && truncated ==> CutLast(combined, keys, counts, market, budget, cap)
    requires |keys| == 1 ==> SumsWithFirst(combined, keys, perCollection, budget)
    ensures truncated <==> Overflows(counts, market, budget, cap)
    ensures Promised(counts, market, budget, cap, Option.Some(b))
  {
    if !OverflowsEarly(counts, market, budget, cap) {
      LastCutDecides(counts, market, keys, perCollection, budget, cap, combined, before, truncated, b);
    }
  }

  /** So with nothing cut earlier, the answer is best if and only if the last frontier fits. */
  lemma BestExactlyWhenLastFits(counts: Composition, market: Market, budget: real, cap: nat, b: BundleSolution)
    requires Promised(counts, market, budget, cap, Option.Some(b)) && !OverflowsEarly(counts, market, budget, cap)
    ensures Solves(counts, market, budget, Option.Some(b), true)
       <==> !FoldOverflows(SortedKeys(counts.Keys), counts, market, budget, cap)
    ensures FoldOverflows(SortedKeys(counts.Keys), counts, market, budget, cap) ==>
      CheaperExists(counts, market, budget, b.totalCost)
  {
    if FoldOverflows(SortedKeys(counts.Keys), counts, market, budget, cap) {
      CheaperIsBetter(counts, market, budget, b);
    }
  }

  /** Folds the frontiers built and buys the cheapest point. */
  method FoldAndBuy(counts: Composition, market: Market, perCollection: map<int, seq<FrontierPoint>>, budget: real,
                    cap: nat, ghost before: bool)
      returns (r: Option<BundleSolution>, ghost truncated: bool)
    requires cap >= 1
    requires AllBuilt(perCollection, SortedKeys(counts.Keys), counts, market, budget, !before)
    requires before <==>
      CollectionsOverflow(SortedKeys(counts.Keys), |SortedKeys(counts.Keys)|, counts, market, budget, cap)
    requires before && |SortedKeys(counts.Keys)| == 1 ==>
      LoneCut(perCollection, SortedKeys(counts.Keys)[0], counts, market, budget, cap)
    ensures Promised(counts, market, budget, cap, r)
    ensures truncated ==> Overflows(counts, market, budget, cap)
    ensures r.Some? ==> (truncated <==> Overflows(counts, market, budget, cap))
  {
    var combined;
    combined, truncated := FoldCollections(counts, market, perCollection, budget, cap, before);
    if combined == [] {
      return None, truncated;
    }
    var solution := BuyCheapest(combined, counts, market, budget, cap, !truncated);
    SomeKey(counts);
    SolutionIsPromised(counts, market, SortedKeys(counts.Keys), perCollection, budget, cap, combined, before, truncated,
                       solution);
    r := Option.Some(solution);
  }

  /** The same for a total float budget. */
  method SolveWithin(counts: Composition, market: Market, budget: real, cap: nat)
      returns (r: Option<BundleSolution>, ghost truncated: bool)
    requires cap >= 1
    ensures Promised(counts, market, budget, cap, r)
    ensures truncated ==> Overflows(counts, market, budget, cap)
    ensures r.Some? ==> (truncated <==> Overflows(counts, market, budget, cap))
  {
    var built;
    built, truncated := BuildFrontiers(counts, market, budget, cap);
    if built.None? {
      return None, truncated;
    }
    r, truncated := FoldAndBuy(counts, market, built.value, budget, cap, truncated);
  }

  /** The total float of `n` listings of float `z`. */
  function Spread(z: real, n: nat): real {
    z * n as real
  }

  /**
   `truncated` is never seen by the program.  It says whether a frontier was cut, which for a bundle returned is
   to say that some exact frontier overflows `cap`; that is what the optimality depends on.
   */
  method Solve(counts: Composition, market: Market, maxAverage: real, cap: nat)
      returns (r: Option<BundleSolution>, ghost truncated: bool)
    requires cap >= 1
    ensures Promised(counts, market, Spread(maxAverage, TotalInputs(counts)), cap, r)
    ensures truncated ==> Overflows(counts, market, Spread(maxAverage, TotalInputs(counts)), cap)
    ensures r.Some? ==> (truncated <==> Overflows(counts, market, Spread(maxAverage, TotalInputs(counts)), cap))
  {
    var budget := Spread(maxAverage, TotalInputs(counts));
    r, truncated := SolveWithin(counts, market, budget, cap);
  }

  /** Turns the finished fold into the bundle to buy. */
  method BuyCheapest(combined: seq<FrontierPoint>, ghost counts: Composition, ghost market: Market, budget: real,
                     ghost cap: nat, ghost exact: bool) returns (b: BundleSolution)
    requires 0 < |combined| <= cap && Folded(combined, SortedKeys(counts.Keys), counts, market, budget, exact)
    ensures Solves(counts, market, budget, Option.Some(b), exact)
    ensures cap == 1 ==> LeastFloat(counts, market, budget, b)
    ensures CostIsIn(b.totalCost, combined)
  {
    FoldIsAffordable(combined, counts, market, budget, exact);
    var feasible := WithinBudget(combined, budget);
    assert feasible == combined;
    var best := Cheapest(feasible);
    CheapestSolves(counts, market, budget, combined, exact, best);
    b := BundleSolution(Identities(best.selection), best.cost, best.normalized, budget);
    if cap == 1 {
      OnlyPointIsLeastFloat(combined, counts, market, budget, exact, b);
    }
  }

  lemma FoldIsAffordable(combined: seq<FrontierPoint>, counts: Composition, market: Market, budget: real, exact: bool)
    requires Folded(combined, SortedKeys(counts.Keys), counts, market, budget, exact)
    ensures forall i | 0 <= i < |combined| :: combined[i].normalized <= budget
  {
    SomeKey(counts);
    forall i | 0 <= i < |combined| ensures combined[i].normalized <= budget {
      assert FoldedPoint(combined, i, SortedKeys(counts.Keys), counts, market, budget);
    }
  }

  lemma OnlyPointIsLeastFloat(combined: seq<FrontierPoint>, counts: Composition, market: Market, budget: real,
                              exact: bool, b: BundleSolution)
    requires Folded(combined, SortedKeys(counts.Keys), counts, market, budget, exact)
    requires |combined| == 1 && b.totalNormalized == combined[0].normalized
    ensures LeastFloat(counts, market, budget, b)
  {
    forall parts | Feasible(counts, market, budget, parts) ensures b.totalNormalized <= Float(Listings(counts, parts)) {
      assert PartsMatched(combined, SortedKeys(counts.Keys), counts, market, budget, exact, parts);
      OnlyWitness(combined, Float(Listings(counts, parts)), Cost(Listings(counts, parts)), exact);
    }
  }

  lemma OnlyWitness(f: seq<FrontierPoint>, z: real, c: int, exact: bool)
    requires |f| == 1 && Covers(f, z, c, exact)
    ensures f[0].normalized <= z
  {
  }
}
