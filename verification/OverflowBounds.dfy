/**
 Markets on which the frontier cap cannot matter, whatever their prices
 (`max_frontier_points` in src/tradeup/optimizer/bundle.py, 4096 by default).
 */
module OverflowBounds {
  import opened Bundle
  import opened BundleCorollaries
  import opened CollectionFrontiers
  import opened Frontier
  import opened Pareto
  import opened Sorting

  const DEFAULT_CAP := 4096

  function Power2(n: nat): (p: nat)
    ensures p >= 1
  {
    if n == 0 then 1 else 2 * Power2(n - 1)
  }

  lemma {:induction false} Power2Monotone(a: nat, b: nat)
    requires a <= b
    ensures Power2(a) <= Power2(b)
  {
    if a < b {
      Power2Monotone(a, b - 1);
    }
  }

  /** The totals, float and cost, of a choice of listings. */
  datatype Totals = Totals(float: real, cost: int)

  function With(t: Totals, x: CandidateItem): Totals {
    Totals(t.float + x.normalized, t.cost + x.cost)
  }

  ghost function Shifted(s: set<Totals>, x: CandidateItem): set<Totals> {
    set t | t in s :: With(t, x)
  }

  /** The totals of all choices from the pool. */
  ghost function AllTotals(pool: seq<CandidateItem>): set<Totals> {
    if pool == [] then {Totals(0.0, 0)}
    else
      var rest := AllTotals(pool[..|pool| - 1]);
      rest + Shifted(rest, pool[|pool| - 1])
  }

  lemma {:induction false} ImageIsNoLarger(s: set<Totals>, x: CandidateItem)
    ensures |Shifted(s, x)| <= |s|
    decreases |s|
  {
    if s != {} {
      var t := Sorting.Some(s);
      var rest := s - {t};
      ImageIsNoLarger(rest, x);
      assert Shifted(s, x) == Shifted(rest, x) + {With(t, x)};
    }
  }

  lemma {:induction false} FewTotals(pool: seq<CandidateItem>)
    ensures |AllTotals(pool)| <= Power2(|pool|)
  {
    if pool != [] {
      var rest := AllTotals(pool[..|pool| - 1]);
      FewTotals(pool[..|pool| - 1]);
      ImageIsNoLarger(rest, pool[|pool| - 1]);
      UnionIsNoLarger(rest, Shifted(rest, pool[|pool| - 1]));
    }
  }

  lemma UnionIsNoLarger<T>(a: set<T>, b: set<T>)
    ensures |a + b| <= |a| + |b|
  {
    assert a + b == a + (b - a);
    assert b == (b - a) + (b * a);
  }

  lemma {:induction false} ChoiceIsTotalled(s: seq<CandidateItem>, pool: seq<CandidateItem>)
    requires multiset(s) <= multiset(pool)
    ensures Totals(Float(s), Cost(s)) in AllTotals(pool)
    decreases |pool|
  {
    if pool == [] {
      SubsetSize(multiset(s), multiset(pool));
      assert |multiset(s)| == |s| && |multiset(pool)| == 0;
      assert s == [];
    } else {
      var init, x := pool[..|pool| - 1], pool[|pool| - 1];
      assert pool == init + [x];
      if multiset(s) <= multiset(init) {
        ChoiceIsTotalled(s, init);
      } else {
        var rest := SplitOnItem(s, |s|, init, x);
        ChoiceIsTotalled(rest, init);
        assert Totals(Float(s), Cost(s)) == With(Totals(Float(rest), Cost(rest)), x);
      }
    }
  }

  /** A frontier has no more points than there are totals to choose from. */
  lemma {:induction false} NoMorePointsThanTotals(f: seq<FrontierPoint>, totals: set<Totals>)
    requires StrictFrontier(f) && forall i | 0 <= i < |f| :: Totals(f[i].normalized, f[i].cost) in totals
    ensures |f| <= |totals|
  {
    if f != [] {
      var n := |f| - 1;
      var last := Totals(f[n].normalized, f[n].cost);
      NoMorePointsThanTotals(f[..n], totals - {last});
      assert totals == (totals - {last}) + {last};
    }
  }

  lemma FewItemsFit(items: seq<CandidateItem>, slots: nat, budget: real, cap: nat)
    requires Power2(|items|) <= cap
    ensures !PrefixOverflows(items, |items|, slots, budget, cap)
  {
    forall i, k | 0 <= i <= |items| && 0 < k <= slots ensures !LevelOverflows(items[..i], k, budget, cap) {
      FewTotals(items[..i]);
      Power2Monotone(i, |items|);
      forall f | Level(f, k, items[..i], budget, true) ensures |f| <= cap {
        LevelPoints(f, k, items[..i], budget);
      }
    }
  }

  lemma LevelPoints(f: seq<FrontierPoint>, k: int, pool: seq<CandidateItem>, budget: real)
    requires Level(f, k, pool, budget, true)
    ensures |f| <= |AllTotals(pool)|
  {
    forall i | 0 <= i < |f| ensures Totals(f[i].normalized, f[i].cost) in AllTotals(pool) {
      assert Realised(f[i], k, pool);
      ChoiceIsTotalled(f[i].selection, pool);
    }
    NoMorePointsThanTotals(f, AllTotals(pool));
  }

  lemma FoldedPoints(f: seq<FrontierPoint>, keys: seq<int>, counts: Composition, market: Market, budget: real)
    requires Folded(f, keys, counts, market, budget, true)
    ensures |f| <= |AllTotals(Flatten(keys, market))|
  {
    forall i | 0 <= i < |f| ensures Totals(f[i].normalized, f[i].cost) in AllTotals(Flatten(keys, market)) {
      assert FoldedPoint(f, i, keys, counts, market, budget);
      var parts :| Fills(keys, counts, market, parts) && Matches(f[i], Flatten(keys, parts));
      PartsWithinOffer(keys, counts, market, parts);
      ChoiceIsTotalled(Flatten(keys, parts), Flatten(keys, market));
    }
    NoMorePointsThanTotals(f, AllTotals(Flatten(keys, market)));
  }

  lemma FewFoldedFit(keys: seq<int>, counts: Composition, market: Market, budget: real, cap: nat)
    requires Power2(|Flatten(keys, market)|) <= cap
    ensures !FoldOverflows(keys, counts, market, budget, cap)
  {
    FewTotals(Flatten(keys, market));
    forall f | Folded(f, keys, counts, market, budget, true) ensures |f| <= cap {
      FoldedPoints(f, keys, counts, market, budget);
    }
  }

  lemma {:induction false} PoolSizes(keys: seq<int>, market: Market, i: nat)
    requires i <= |keys|
    ensures |Flatten(keys[..i], market)| <= |Flatten(keys, market)|
    ensures i < |keys| ==> |Pool(market, keys[i])| <= |Flatten(keys, market)|
  {
    if i == |keys| {
      WholePrefix(keys);
    } else {
      assert keys[..|keys| - 1][..i] == keys[..i];
      PoolSizes(keys[..|keys| - 1], market, i);
    }
  }

  lemma FewInPoolFit(raw: seq<CandidateItem>, slots: nat, budget: real, cap: nat)
    requires Power2(|raw|) <= cap
    ensures !CollectionOverflows(raw, slots, budget, cap)
  {
    var survivors := SortedSurvivors(raw, slots);
    SurvivorsWithin(survivors, raw, slots);
    SubsetSize(multiset(survivors), multiset(raw));
    Power2Monotone(|survivors|, |raw|);
    FewItemsFit(survivors, slots, budget, cap);
  }

  lemma FewInCollectionsFit(keys: seq<int>, counts: Composition, market: Market, budget: real, cap: nat)
    requires Power2(|Flatten(keys, market)|) <= cap
    ensures !CollectionsOverflow(keys, |keys|, counts, market, budget, cap)
  {
    forall i | 0 <= i < |keys|
      ensures !CollectionOverflows(Pool(market, keys[i]), Count(counts, keys[i]), budget, cap)
    {
      PoolSizes(keys, market, i);
      Power2Monotone(|Pool(market, keys[i])|, |Flatten(keys, market)|);
      FewInPoolFit(Pool(market, keys[i]), Count(counts, keys[i]), budget, cap);
    }
  }

  lemma FewInFoldsFit(keys: seq<int>, counts: Composition, market: Market, budget: real, cap: nat)
    requires Power2(|Flatten(keys, market)|) <= cap
    ensures !FoldsOverflow(keys, |keys|, counts, market, budget, cap)
  {
    forall i | 0 < i <= |keys| ensures !FoldOverflows(keys[..i], counts, market, budget, cap) {
      PoolSizes(keys, market, i);
      Power2Monotone(|Flatten(keys[..i], market)|, |Flatten(keys, market)|);
      FewFoldedFit(keys[..i], counts, market, budget, cap);
    }
  }

  /** With at most log2(cap) listings on offer nothing overflows, whatever they cost. */
  lemma FewListingsNeverOverflow(counts: Composition, market: Market, budget: real, cap: nat)
    requires Power2(|Offer(counts, market)|) <= cap
    ensures !Overflows(counts, market, budget, cap)
  {
    FewInCollectionsFit(SortedKeys(counts.Keys), counts, market, budget, cap);
    FewInFoldsFit(SortedKeys(counts.Keys), counts, market, budget, cap);
  }

  /** In particular no twelve listings overflow the default cap. */
  lemma TwelveListingsFit(counts: Composition, market: Market, budget: real)
    requires |Offer(counts, market)| <= 12
    ensures !Overflows(counts, market, budget, DEFAULT_CAP)
  {
    Power2Monotone(|Offer(counts, market)|, 12);
    assert Power2(12) == DEFAULT_CAP by {
      assert Power2(4) == 16;
      assert Power2(8) == 256;
    }
    FewListingsNeverOverflow(counts, market, budget, DEFAULT_CAP);
  }
}
