/** What the solver's promise means for its callers, and where its two side conditions matter. */
module BundleCorollaries {
  import opened Bundle
  import opened Pareto
  import opened Sorting
  import opened Wrappers

  /** Every listing the composition could draw on, collection by collection. */
  ghost function Offer(counts: Composition, market: Market): seq<CandidateItem> {
    Flatten(SortedKeys(counts.Keys), market)
  }

  lemma {:induction false} PartsWithinOffer(keys: seq<int>, counts: Composition, market: Market, parts: Market)
    requires Fills(keys, counts, market, parts)
    ensures multiset(Flatten(keys, parts)) <= multiset(Flatten(keys, market))
  {
    if keys != [] {
      PartsWithinOffer(keys[..|keys| - 1], counts, market, parts);
    }
  }

  lemma DistinctWithin(s: seq<CandidateItem>, pool: seq<CandidateItem>)
    requires Distinct(Identities(pool)) && multiset(s) <= multiset(pool)
    ensures Distinct(Identities(s))
  {
    forall i, j | 0 <= i < j < |s| ensures s[i].id != s[j].id {
      assert s[i] in multiset(s) && s[j] in multiset(s);
      var k, m := IndexOf(pool, s[i]), IndexOf(pool, s[j]);
      assert Identities(pool)[k] == s[i].id && Identities(pool)[m] == s[j].id;
      if s[i].id == s[j].id {
        assert k == m;
        TwoCopies(s, i, j);
        AtMostOne(pool, k);
      }
    }
  }

  lemma TwoCopies(s: seq<CandidateItem>, i: nat, j: nat)
    requires i < j < |s| && s[i] == s[j]
    ensures multiset(s)[s[i]] >= 2
  {
    RemovalContents(s, j);
    assert Without(s, j)[i] == s[i];
    assert s[i] in multiset(Without(s, j));
  }

  lemma AtMostOne(pool: seq<CandidateItem>, k: nat)
    requires k < |pool| && Distinct(Identities(pool))
    ensures multiset(pool)[pool[k]] == 1
  {
    RemovalContents(pool, k);
    forall i | 0 <= i < |Without(pool, k)| ensures Without(pool, k)[i] != pool[k] {
      assert Without(pool, k)[i] == pool[if i < k then i else i + 1];
      assert Identities(pool)[if i < k then i else i + 1] != Identities(pool)[k];
    }
    assert pool[k] !in Without(pool, k);
  }

  /** One asset, one slot: if the listings on offer have distinct identities, so has the bundle. */
  lemma NoListingTwice(counts: Composition, market: Market, budget: real, b: BundleSolution, exact: bool)
    requires Solves(counts, market, budget, Option.Some(b), exact)
    requires Distinct(Identities(Offer(counts, market)))
    ensures Distinct(b.selection)
  {
    var parts :| Feasible(counts, market, budget, parts) && Buys(b, Listings(counts, parts));
    PartsWithinOffer(SortedKeys(counts.Keys), counts, market, parts);
    DistinctWithin(Listings(counts, parts), Offer(counts, market));
  }

  lemma {:induction false} BundleSize(keys: seq<int>, counts: Composition, market: Market, parts: Market)
    requires Fills(keys, counts, market, parts)
    ensures |Flatten(keys, parts)| == CountsOver(keys, counts)
  {
    if keys != [] {
      BundleSize(keys[..|keys| - 1], counts, market, parts);
    }
  }

  function Mean(total: real, n: nat): real
    requires n > 0
  {
    total / n as real
  }

  lemma MeanWithin(total: real, average: real, n: nat)
    requires n > 0
    ensures total <= Spread(average, n) <==> Mean(total, n) <= average
  {
    var d := n as real;
    assert Mean(total, n) * d == total;
    if Mean(total, n) <= average {
      assert Mean(total, n) * d <= average * d;
    } else {
      assert Mean(total, n) * d > average * d;
    }
  }

  /** The bundle fills every slot and stays within the total float budget. */
  lemma SolutionFillsTheContract(counts: Composition, market: Market, budget: real, b: BundleSolution, exact: bool)
    requires Solves(counts, market, budget, Option.Some(b), exact)
    ensures |b.selection| == TotalInputs(counts) > 0 && b.totalNormalized <= budget
  {
    SomeInput(counts);
    var parts :| Feasible(counts, market, budget, parts) && Buys(b, Listings(counts, parts));
    BundleSize(SortedKeys(counts.Keys), counts, market, parts);
  }

  lemma SomeInput(counts: Composition)
    ensures TotalInputs(counts) > 0
  {
    var keys := SortedKeys(counts.Keys);
    assert |keys| == |counts.Keys| == |counts|;
    assert keys[|keys| - 1] in counts.Keys;
  }

  // ----- in which order the listings reach the dynamic program

  /** With one slot, a later listing has no more float than an earlier one: the opposite of getting dearer. */
  lemma LaterHasNoMoreFloat(raw: seq<CandidateItem>, i: nat, j: nat)
    requires i < j < |SortedSurvivors(raw, 1)|
    requires SortedSurvivors(raw, 1)[i].id != SortedSurvivors(raw, 1)[j].id
    ensures SortedSurvivors(raw, 1)[j].normalized <= SortedSurvivors(raw, 1)[i].normalized
  {
    var earlier, later := SortedSurvivors(raw, 1)[i], SortedSurvivors(raw, 1)[j];
    assert earlier in multiset(SortedSurvivors(raw, 1)) && later in multiset(SortedSurvivors(raw, 1));
    assert earlier in multiset(raw) && Survives(raw, 1, later);
    DominatorCountRemoval(raw, IndexOf(raw, earlier), later);
  }

  lemma LaterCanHaveLessFloat()
    ensures var raw := [Listing(1, 1.0, 1), Listing(2, 0.0, 2)];
            SortedSurvivors(raw, 1) == raw && raw[1].normalized < raw[0].normalized
  {
    var a: CandidateItem, b: CandidateItem := Listing(1, 1.0, 1), Listing(2, 0.0, 2);
    DominatorCountAppend([a], [b], a);
    DominatorCountAppend([a], [b], b);
    assert [a][..0] == [] && [b][..0] == [] && [a] + [b] == [a, b];
    SurvivorsAreSorted([a, b], [a, b], 1);
  }

  // ----- the side conditions are needed

  const OneSlot: Composition := map[0 := 1]

  /** A one-slot bundle is one listing of the pool. */
  lemma OneChoice(pool: seq<CandidateItem>, budget: real, parts: Market) returns (x: CandidateItem)
    requires Feasible(OneSlot, map[0 := pool], budget, parts)
    ensures x in pool && Listings(OneSlot, parts) == [x] && x.normalized <= budget
    ensures Float([x]) == x.normalized && Cost([x]) == x.cost
  {
    OneKey();
    OneFlattened(parts);
    var s := Pool(parts, 0);
    assert Selection(s, 1, Pool(map[0 := pool], 0));
    x := s[0];
    assert s == [x] && x in multiset(s) && x in multiset(pool);
  }

  lemma OnePart(pool: seq<CandidateItem>, budget: real, x: CandidateItem)
    requires x in pool && x.normalized <= budget
    ensures Feasible(OneSlot, map[0 := pool], budget, map[0 := [x]])
    ensures Listings(OneSlot, map[0 := [x]]) == [x] && Cost([x]) == x.cost && Float([x]) == x.normalized
  {
    OneKey();
    assert x in multiset(pool);
    OneFlattened(map[0 := [x]]);
  }

  lemma OneKey()
    ensures SortedKeys(OneSlot.Keys) == [0] && TotalInputs(OneSlot) == 1
  {
    var keys := SortedKeys(OneSlot.Keys);
    assert keys[0] in OneSlot.Keys;
    assert |keys| == |OneSlot.Keys| == 1;
    assert [0][..0] == [] && CountsOver([], OneSlot) == 0;
  }

  lemma OneFlattened(parts: Market)
    ensures Flatten([0], parts) == Pool(parts, 0)
    ensures |Pool(parts, 0)| == 1 ==>
      Float(Pool(parts, 0)) == Pool(parts, 0)[0].normalized && Cost(Pool(parts, 0)) == Pool(parts, 0)[0].cost
  {
    assert [0][..0] == [] && Flatten([], parts) == [];
  }

  const LowOrCheap: seq<CandidateItem> := [Listing(1, 0.0, 10), Listing(2, 1.0, 5)]

  /** With room for one frontier point, the solver buys the lower float at twice the cheapest price. */
  lemma TruncationLosesOptimality(b: BundleSolution, exact: bool)
    requires Solves(OneSlot, map[0 := LowOrCheap], 1.0, Option.Some(b), exact)
    requires LeastFloat(OneSlot, map[0 := LowOrCheap], 1.0, b)
    ensures b.totalCost == 10 && CheapestPrice(OneSlot, map[0 := LowOrCheap], 1.0, 5)
  {
    LeastIsZero(b);
    LowestIsDear(b, exact);
    FiveIsCheapest();
  }

  lemma LeastIsZero(b: BundleSolution)
    requires LeastFloat(OneSlot, map[0 := LowOrCheap], 1.0, b)
    ensures b.totalNormalized <= 0.0
  {
    OnePart(LowOrCheap, 1.0, LowOrCheap[0]);
    assert b.totalNormalized <= Float(Listings(OneSlot, map[0 := [LowOrCheap[0]]]));
  }

  ghost predicate CheapestPrice(counts: Composition, market: Market, budget: real, price: int) {
    && (exists parts :: Feasible(counts, market, budget, parts) && Cost(Listings(counts, parts)) == price)
    && (forall parts | Feasible(counts, market, budget, parts) :: Cost(Listings(counts, parts)) >= price)
  }

  lemma LowestIsDear(b: BundleSolution, exact: bool)
    requires Solves(OneSlot, map[0 := LowOrCheap], 1.0, Option.Some(b), exact) && b.totalNormalized <= 0.0
    ensures b.totalCost == 10
  {
    var parts :| Feasible(OneSlot, map[0 := LowOrCheap], 1.0, parts) && Buys(b, Listings(OneSlot, parts));
    LowOrCheapPrices(parts);
  }

  lemma LowOrCheapPrices(parts: Market)
    requires Feasible(OneSlot, map[0 := LowOrCheap], 1.0, parts)
    ensures Cost(Listings(OneSlot, parts)) in {5, 10}
    ensures Float(Listings(OneSlot, parts)) <= 0.0 ==> Cost(Listings(OneSlot, parts)) == 10
  {
    var x := OneChoice(LowOrCheap, 1.0, parts);
    assert x == LowOrCheap[0] || x == LowOrCheap[1];
  }

  lemma FiveIsCheapest()
    ensures CheapestPrice(OneSlot, map[0 := LowOrCheap], 1.0, 5)
  {
    SomeCostFive();
    forall parts | Feasible(OneSlot, map[0 := LowOrCheap], 1.0, parts) ensures Cost(Listings(OneSlot, parts)) >= 5 {
      LowOrCheapPrices(parts);
    }
  }

  lemma SomeCostFive()
    ensures exists parts :: Feasible(OneSlot, map[0 := LowOrCheap], 1.0, parts) && Cost(Listings(OneSlot, parts)) == 5
  {
    OnePart(LowOrCheap, 1.0, LowOrCheap[1]);
  }
}
