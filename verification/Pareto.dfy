/**
 Dominance pruning and cost-versus-float Pareto frontiers (src/tradeup/optimizer/pareto.py).

 A selection is a sequence of listings drawn from a pool; its order carries no meaning.  Pools and
 selections are compared as multisets, so nothing below needs the listing identities to be distinct.
 */
module Pareto {
  import opened Sorting
  import opened Wrappers

  /** A listing reduced to the two dimensions the optimizer reasons about. */
  datatype Listing = Listing(id: int, normalized: real, cost: int)

  type CandidateItem = x: Listing | 0.0 <= x.normalized <= 1.0 && 0 <= x.cost
    witness Listing(0, 0.0, 0)

  /** One way to fill a fixed number of slots; the source keeps the identities of `selection`. */
  datatype FrontierPoint = FrontierPoint(normalized: real, cost: int, selection: seq<CandidateItem>)

  predicate Dominates(a: CandidateItem, b: CandidateItem) {
    && a.id != b.id
    && a.cost <= b.cost && a.normalized <= b.normalized
    && (a.cost < b.cost || a.normalized < b.normalized)
  }

  // ----- selections and their totals

  function Float(s: seq<CandidateItem>): (z: real)
    ensures z >= 0.0
  {
    if s == [] then 0.0 else s[0].normalized + Float(s[1..])
  }

  function Cost(s: seq<CandidateItem>): (c: int)
    ensures c >= 0
  {
    if s == [] then 0 else s[0].cost + Cost(s[1..])
  }

  /** `s` picks exactly `k` listings of the pool, none more often than the pool offers it. */
  ghost predicate Selection(s: seq<CandidateItem>, k: int, pool: seq<CandidateItem>) {
    |s| == k && multiset(s) <= multiset(pool)
  }

  lemma {:induction false} TotalsAppend(a: seq<CandidateItem>, b: seq<CandidateItem>)
    ensures Float(a + b) == Float(a) + Float(b)
    ensures Cost(a + b) == Cost(a) + Cost(b)
  {
    if a == [] {
      assert a + b == b;
    } else {
      TotalsAppend(a[1..], b);
      assert (a + b)[1..] == a[1..] + b;
    }
  }

  function Without(s: seq<CandidateItem>, i: nat): seq<CandidateItem>
    requires i < |s|
  {
    s[..i] + s[i + 1..]
  }

  lemma Removal(s: seq<CandidateItem>, i: nat)
    requires i < |s|
    ensures Float(Without(s, i)) + s[i].normalized == Float(s)
    ensures Cost(Without(s, i)) + s[i].cost == Cost(s)
    ensures multiset(Without(s, i)) + multiset{s[i]} == multiset(s)
  {
    RemovalContents(s, i);
    RemovalTotals(s[..i], s[i], s[i + 1..]);
  }

  lemma RemovalContents(s: seq<CandidateItem>, i: nat)
    requires i < |s|
    ensures s == s[..i] + ([s[i]] + s[i + 1..])
    ensures multiset(Without(s, i)) + multiset{s[i]} == multiset(s)
  {
    assert s == s[..i] + [s[i]] + s[i + 1..];
  }

  lemma RemovalTotals(a: seq<CandidateItem>, x: CandidateItem, b: seq<CandidateItem>)
    ensures Float(a + ([x] + b)) == Float(a + b) + x.normalized
    ensures Cost(a + ([x] + b)) == Cost(a + b) + x.cost
  {
    TotalsAppend(a, [x] + b);
    TotalsAppend(a, b);
    assert ([x] + b)[1..] == b;
  }

  function IndexOf(s: seq<CandidateItem>, x: CandidateItem): (i: nat)
    requires x in s
    ensures i < |s| && s[i] == x
  {
    if s[0] == x then 0 else 1 + IndexOf(s[1..], x)
  }

  // ----- dominance pruning

  /** How many listings of `items` dominate `x`. */
  function DominatorCount(items: seq<CandidateItem>, x: CandidateItem): (n: nat)
    ensures n <= |items|
  {
    if items == [] then 0
    else (if Dominates(items[|items| - 1], x) then 1 else 0) + DominatorCount(items[..|items| - 1], x)
  }

  lemma {:induction false} DominatorCountAppend(a: seq<CandidateItem>, b: seq<CandidateItem>, x: CandidateItem)
    ensures DominatorCount(a + b, x) == DominatorCount(a, x) + DominatorCount(b, x)
  {
    if b == [] {
      assert a + b == a;
    } else {
      DominatorCountAppend(a, b[..|b| - 1], x);
      assert (a + b)[..|a + b| - 1] == a + b[..|b| - 1];
    }
  }

  lemma DominatorCountRemoval(s: seq<CandidateItem>, i: nat, x: CandidateItem)
    requires i < |s|
    ensures DominatorCount(s, x) == DominatorCount(Without(s, i), x) + if Dominates(s[i], x) then 1 else 0
  {
    assert s == (s[..i] + [s[i]]) + s[i + 1..];
    DominatorCountAppend(s[..i] + [s[i]], s[i + 1..], x);
    DominatorCountAppend(s[..i], [s[i]], x);
    DominatorCountAppend(s[..i], s[i + 1..], x);
  }

  /** Only the dominators of `x`, counted with multiplicity, matter. */
  lemma {:induction false} DominatorCountMonotone(a: seq<CandidateItem>, b: seq<CandidateItem>, x: CandidateItem)
    requires forall y | Dominates(y, x) :: multiset(a)[y] <= multiset(b)[y]
    ensures DominatorCount(a, x) <= DominatorCount(b, x)
  {
    if a != [] {
      var y, a' := a[|a| - 1], a[..|a| - 1];
      assert a == a' + [y];
      if Dominates(y, x) {
        assert y in multiset(b);
        var i := IndexOf(b, y);
        Removal(b, i);
        DominatorCountRemoval(b, i, x);
        DominatorCountMonotone(a', Without(b, i), x);
      } else {
        DominatorCountMonotone(a', b, x);
      }
    }
  }

  /** The order of `(cost, float, identity)` in which dominators precede what they dominate. */
  predicate ItemLe(a: CandidateItem, b: CandidateItem) {
    || a.cost < b.cost
    || (a.cost == b.cost && (a.normalized < b.normalized || (a.normalized == b.normalized && a.id <= b.id)))
  }

  lemma ItemLeIsTotal()
    ensures TotalPreorder(ItemLe)
  {
  }

  /** `x` survives pruning for an exactly-`k` selection from `items`. */
  predicate Survives(items: seq<CandidateItem>, k: int, x: CandidateItem) {
    DominatorCount(items, x) < k
  }

  /** One listing offered twice never rules itself out, whatever the two prices. */
  lemma SameListingSurvives(a: CandidateItem, b: CandidateItem, k: int)
    requires a.id == b.id && k >= 1
    ensures Survives([a, b], k, a) && Survives([a, b], k, b)
  {
    assert [a, b][..1] == [a] && [a][..0] == [];
    assert [a, b][1..] == [b] && [b][1..] == [];
  }

  lemma EnoughAlready(ordered: seq<CandidateItem>, m: nat, item: CandidateItem, keep: int)
    requires m <= |ordered| && DominatorCount(ordered[..m], item) >= keep
    ensures !Survives(ordered, keep, item)
  {
    DominatorCountAppend(ordered[..m], ordered[m..], item);
    assert ordered == ordered[..m] + ordered[m..];
  }

  method CountPrefixDominators(ordered: seq<CandidateItem>, index: nat, keep: int) returns (count: nat)
    requires index < |ordered| && keep >= 1 && SortedBy(ItemLe, ordered)
    ensures count >= keep <==> !Survives(ordered, keep, ordered[index])
  {
    count := 0;
    var item := ordered[index];
    var m := 0;
    while m < index
      invariant 0 <= m <= index
      invariant count == DominatorCount(ordered[..m], item)
    {
      assert ordered[..m + 1] == ordered[..m] + [ordered[m]];
      if Dominates(ordered[m], item) {
        count := count + 1;
        if count >= keep {
          EnoughAlready(ordered, m + 1, item, keep);
          return;
        }
      }
      m := m + 1;
    }
    NoLaterDominator(ordered, index, |ordered|);
    assert ordered == ordered[..|ordered|];
  }

  lemma NoneAfter(ordered: seq<CandidateItem>, i: nat)
    requires i < |ordered| && SortedBy(ItemLe, ordered)
    ensures forall m | i <= m < |ordered| :: !Dominates(ordered[m], ordered[i])
  {
    forall m | i <= m < |ordered| ensures !Dominates(ordered[m], ordered[i]) {
      if m > i { assert ItemLe(ordered[i], ordered[m]); }
    }
  }

  /** Nothing at or after an item in the sorted order dominates it, so counting its prefix is enough. */
  lemma {:induction false} NoLaterDominator(ordered: seq<CandidateItem>, index: nat, m: nat)
    requires index < |ordered| && index <= m <= |ordered| && SortedBy(ItemLe, ordered)
    ensures DominatorCount(ordered[..m], ordered[index]) == DominatorCount(ordered[..index], ordered[index])
  {
    if m > index {
      NoLaterDominator(ordered, index, m - 1);
      assert ordered[..m][..m - 1] == ordered[..m - 1];
      NoneAfter(ordered, index);
    }
  }

  /** The survivors are exactly the listings dominated by fewer than `keep` listings of the whole pool. */
  ghost predicate PrunedTo(survivors: seq<CandidateItem>, items: seq<CandidateItem>, keep: int) {
    forall x: CandidateItem ::
      multiset(survivors)[x] == if Survives(items, keep, x) then multiset(items)[x] else 0
  }

  method PruneDominated(items: seq<CandidateItem>, keep: int)
      returns (r: Result<(seq<CandidateItem>, nat), string>)
    ensures r.Err? <==> keep < 1
    ensures r.Ok? ==> PrunedTo(r.value.0, items, keep) && r.value.1 == |items| - |r.value.0|
  {
    if keep < 1 {
      return Err("keep_at_least must be at least 1");
    }
    if |items| <= keep {
      forall x: CandidateItem ensures multiset(items)[x] > 0 ==> Survives(items, keep, x) {
        if x in multiset(items) { FewerThanAll(items, x); }
      }
      return Ok((items, 0));
    }
    ItemLeIsTotal();
    var ordered := Sort(ItemLe, items);
    var survivors, removed := SweepDominated(ordered, keep);
    SurvivalIsOrderless(ordered, items, keep);
    return Ok((survivors, removed));
  }

  lemma SurvivalIsOrderless(ordered: seq<CandidateItem>, items: seq<CandidateItem>, keep: int)
    requires multiset(ordered) == multiset(items)
    ensures forall x: CandidateItem :: Survives(ordered, keep, x) == Survives(items, keep, x)
  {
    forall x: CandidateItem ensures Survives(ordered, keep, x) == Survives(items, keep, x) {
      DominatorCountMonotone(ordered, items, x);
      DominatorCountMonotone(items, ordered, x);
    }
  }

  /** The one pass over the sorted pool. */
  method SweepDominated(ordered: seq<CandidateItem>, keep: int)
      returns (survivors: seq<CandidateItem>, removed: nat)
    requires keep >= 1 && SortedBy(ItemLe, ordered)
    ensures PrunedTo(survivors, ordered, keep) && removed == |ordered| - |survivors|
  {
    survivors, removed := [], 0;
    for index := 0 to |ordered|
      invariant removed == index - |survivors|
      invariant forall x: CandidateItem ::
        multiset(survivors)[x] == if Survives(ordered, keep, x) then multiset(ordered[..index])[x] else 0
    {
      assert ordered[..index + 1] == ordered[..index] + [ordered[index]];
      var count := CountPrefixDominators(ordered, index, keep);
      if count >= keep {
        removed := removed + 1;
      } else {
        survivors := survivors + [ordered[index]];
      }
    }
    assert ordered[..|ordered|] == ordered;
  }

  /** No listing dominates itself, so a member of `items` has fewer dominators than `items` has members. */
  lemma FewerThanAll(items: seq<CandidateItem>, x: CandidateItem)
    requires x in items
    ensures DominatorCount(items, x) < |items|
  {
    var i := IndexOf(items, x);
    Removal(items, i);
    DominatorCountMonotone(items, Without(items, i), x);
  }

  // ----- the exchange argument

  /** A removed listing of a k-selection always has a dominator the selection does not already use up. */
  lemma SpareDominator(items: seq<CandidateItem>, k: int, s: seq<CandidateItem>, x: CandidateItem)
      returns (y: CandidateItem)
    requires Selection(s, k, items) && x in s && !Survives(items, k, x)
    ensures Dominates(y, x) && multiset(s)[y] < multiset(items)[y]
  {
    if forall y | Dominates(y, x) :: multiset(items)[y] <= multiset(s)[y] {
      DominatorCountMonotone(items, s, x);
      FewerThanAll(s, x);
      assert false;
    }
    y :| Dominates(y, x) && multiset(s)[y] < multiset(items)[y];
  }

  /** Swapping removed listings for spare dominators, the last in sorted order first, ends in survivors only. */
  lemma {:induction false} SwapBelow(ordered: seq<CandidateItem>, k: int, s: seq<CandidateItem>, n: nat)
      returns (t: seq<CandidateItem>)
    requires n <= |ordered| && SortedBy(ItemLe, ordered) && Selection(s, k, ordered)
    requires forall x | x in s && !Survives(ordered, k, x) :: x in ordered[..n]
    ensures Selection(t, k, ordered) && (forall x | x in t :: Survives(ordered, k, x))
    ensures Float(t) <= Float(s) && Cost(t) <= Cost(s)
    decreases n, multiset(s)[if n == 0 then Listing(0, 0.0, 0) else ordered[n - 1]]
  {
    if n == 0 {
      return s;
    }
    var x := ordered[n - 1];
    assert ordered[..n] == ordered[..n - 1] + [x];
    if x !in s || Survives(ordered, k, x) {
      t := SwapBelow(ordered, k, s, n - 1);
      return;
    }
    var y := SpareDominator(ordered, k, s, x);
    var s' := SwapOne(ordered, k, s, x, y);
    assert y in multiset(ordered);
    var m := IndexOf(ordered, y);
    NoneAfter(ordered, n - 1);
    assert y == ordered[..n - 1][m];
    t := SwapBelow(ordered, k, s', n);
  }

  /** Replacing one copy of `x` by a spare dominator keeps the selection valid and worsens neither total. */
  lemma SwapOne(ordered: seq<CandidateItem>, k: int, s: seq<CandidateItem>, x: CandidateItem, y: CandidateItem)
      returns (s': seq<CandidateItem>)
    requires Selection(s, k, ordered) && x in s
    requires Dominates(y, x) && multiset(s)[y] < multiset(ordered)[y]
    ensures Selection(s', k, ordered) && Float(s') <= Float(s) && Cost(s') <= Cost(s)
    ensures multiset(s')[x] < multiset(s)[x] && forall w | w in s' :: w == y || w in s
  {
    var i := IndexOf(s, x);
    Removal(s, i);
    var rest := Without(s, i);
    s' := rest + [y];
    TotalsAppend(rest, [y]);
    assert Float([y]) == y.normalized && Cost([y]) == y.cost;
    forall w | w in s' ensures w == y || w in s {
      assert w != y ==> w in multiset(rest) && w in multiset(s);
    }
  }

  /** Pruning is sound for exactly-k: every k-selection is matched, on both axes, by one of survivors. */
  lemma PruningIsSound(items: seq<CandidateItem>, k: int, survivors: seq<CandidateItem>, s: seq<CandidateItem>)
      returns (t: seq<CandidateItem>)
    requires PrunedTo(survivors, items, k) && Selection(s, k, items)
    ensures Selection(t, k, survivors) && Float(t) <= Float(s) && Cost(t) <= Cost(s)
  {
    ItemLeIsTotal();
    var ordered := Sort(ItemLe, items);
    SurvivalIsOrderless(ordered, items, k);
    assert ordered[..|ordered|] == ordered;
    forall x | x in s ensures x in ordered { assert x in multiset(s); }
    t := SwapBelow(ordered, k, s, |ordered|);
    forall x: CandidateItem ensures multiset(t)[x] <= multiset(survivors)[x] {
      if x in multiset(t) { assert x in t; }
    }
  }

  /** At least `min(k, |items|)` listings survive. */
  lemma EnoughSurvive(items: seq<CandidateItem>, k: nat, survivors: seq<CandidateItem>)
    requires PrunedTo(survivors, items, k)
    ensures |survivors| >= if k <= |items| then k else |items|
  {
    if k <= |items| {
      assert items == items[..k] + items[k..];
      var t := PruningIsSound(items, k, survivors, items[..k]);
      SubsetSize(multiset(t), multiset(survivors));
    } else {
      forall x: CandidateItem ensures multiset(items)[x] <= multiset(survivors)[x] {
        if x in multiset(items) { FewerThanAll(items, x); }
      }
      SubsetSize(multiset(items), multiset(survivors));
    }
  }

  lemma SubsetSize<T>(a: multiset<T>, b: multiset<T>)
    requires a <= b
    ensures |a| <= |b|
  {
    assert b == a + (b - a);
  }
}
