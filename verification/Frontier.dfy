/** Cost-versus-float Pareto frontiers (src/tradeup/optimizer/pareto.py, second half) and their algebra. */
module Frontier {
  import opened Pareto
  import opened Sorting
  import opened Wrappers

  /** Strictly more float buys a strictly lower cost. */
  ghost predicate StrictFrontier(f: seq<FrontierPoint>) {
    forall i, j | 0 <= i < j < |f| :: f[i].normalized < f[j].normalized && f[i].cost > f[j].cost
  }

  predicate NoWorse(p: FrontierPoint, z: real, c: int, exact: bool) {
    p.normalized <= z && (exact ==> p.cost <= c)
  }

  /** Some point needs no more float than `z` and, unless costs are given up on, costs no more than `c`. */
  ghost predicate Covers(f: seq<FrontierPoint>, z: real, c: int, exact: bool) {
    exists i | 0 <= i < |f| :: NoWorse(f[i], z, c, exact)
  }

  lemma Witness(f: seq<FrontierPoint>, z: real, c: int, exact: bool) returns (i: nat)
    requires Covers(f, z, c, exact)
    ensures i < |f| && NoWorse(f[i], z, c, exact)
  {
    i :| 0 <= i < |f| && NoWorse(f[i], z, c, exact);
  }

  /** `f` is the lower-left frontier of `points`. */
  ghost predicate FrontierOf(f: seq<FrontierPoint>, points: set<FrontierPoint>) {
    && StrictFrontier(f)
    && (forall i | 0 <= i < |f| :: f[i] in points)
    && (forall p | p in points :: Covers(f, p.normalized, p.cost, true))
  }

  predicate PointLe(a: FrontierPoint, b: FrontierPoint) {
    a.normalized < b.normalized || (a.normalized == b.normalized && a.cost <= b.cost)
  }

  lemma PointLeIsTotal()
    ensures TotalPreorder(PointLe)
  {
  }

  ghost function PointSet(points: seq<FrontierPoint>): set<FrontierPoint> {
    set p | p in points
  }

  method PruneFrontier(points: seq<FrontierPoint>) returns (survivors: seq<FrontierPoint>)
    ensures FrontierOf(survivors, PointSet(points))
  {
    PointLeIsTotal();
    var ordered := Sort(PointLe, points);
    survivors := SweepFrontier(ordered);
    assert PointSet(ordered) == PointSet(points);
  }

  /** The sweep in ascending float order. */
  method SweepFrontier(ordered: seq<FrontierPoint>) returns (survivors: seq<FrontierPoint>)
    requires SortedBy(PointLe, ordered)
    ensures FrontierOf(survivors, PointSet(ordered))
  {
    survivors := [];
    var bestCost: Option<int> := None;
    for i := 0 to |ordered|
      invariant Swept(survivors, ordered, i)
      invariant bestCost == if survivors == [] then None else Option.Some(survivors[|survivors| - 1].cost)
    {
      if bestCost.None? || ordered[i].cost < bestCost.value {
        KeepStep(survivors, ordered, i);
        survivors := survivors + [ordered[i]];
        bestCost := Option.Some(ordered[i].cost);
      } else {
        DropStep(survivors, ordered, i);
      }
    }
    SweptAll(survivors, ordered);
  }

  /** Where the sweep stands once the first `i` points are behind it. */
  ghost predicate Swept(f: seq<FrontierPoint>, ordered: seq<FrontierPoint>, i: nat)
    requires i <= |ordered|
  {
    && StrictFrontier(f)
    && (forall k | 0 <= k < |f| :: f[k] in ordered)
    && (i < |ordered| ==> AllBefore(f, ordered[i]))
    && CoversAll(f, ordered[..i])
  }

  lemma KeepStep(f: seq<FrontierPoint>, ordered: seq<FrontierPoint>, i: nat)
    requires i < |ordered| && SortedBy(PointLe, ordered) && Swept(f, ordered, i)
    requires f == [] || ordered[i].cost < f[|f| - 1].cost
    ensures Swept(f + [ordered[i]], ordered, i + 1)
  {
    assert ordered[..i + 1] == ordered[..i] + [ordered[i]];
    KeepCheaper(f, ordered[i], ordered[..i]);
    if i + 1 < |ordered| {
      StillBefore(f + [ordered[i]], ordered[i], ordered[i + 1]);
    }
  }

  lemma DropStep(f: seq<FrontierPoint>, ordered: seq<FrontierPoint>, i: nat)
    requires i < |ordered| && SortedBy(PointLe, ordered) && Swept(f, ordered, i)
    requires f != [] && ordered[i].cost >= f[|f| - 1].cost
    ensures Swept(f, ordered, i + 1)
  {
    assert ordered[..i + 1] == ordered[..i] + [ordered[i]];
    DropDearer(f, ordered[i], ordered[..i]);
    if i + 1 < |ordered| {
      StillBefore(f, ordered[i], ordered[i + 1]);
    }
  }

  lemma SweptAll(f: seq<FrontierPoint>, ordered: seq<FrontierPoint>)
    requires Swept(f, ordered, |ordered|)
    ensures FrontierOf(f, PointSet(ordered))
  {
    assert ordered[..|ordered|] == ordered;
    forall p | p in ordered ensures Covers(f, p.normalized, p.cost, true) {
      var m :| 0 <= m < |ordered| && ordered[m] == p;
      assert CoversAt(f, ordered, m);
    }
  }

  predicate AllBefore(f: seq<FrontierPoint>, p: FrontierPoint) {
    forall k | 0 <= k < |f| :: PointLe(f[k], p)
  }

  lemma StillBefore(f: seq<FrontierPoint>, p: FrontierPoint, next: FrontierPoint)
    requires PointLe(p, next) && forall k | 0 <= k < |f| :: PointLe(f[k], p)
    ensures AllBefore(f, next)
  {
  }

  lemma DropDearer(f: seq<FrontierPoint>, p: FrontierPoint, seen: seq<FrontierPoint>)
    requires AllBefore(f, p) && CoversAll(f, seen)
    requires f != [] && p.cost >= f[|f| - 1].cost
    ensures CoversAll(f, seen + [p])
  {
    assert PointLe(f[|f| - 1], p);
    assert NoWorse(f[|f| - 1], p.normalized, p.cost, true);
    forall m | 0 <= m < |seen + [p]| ensures CoversAt(f, seen + [p], m) {
      assert m < |seen| ==> CoversAt(f, seen, m);
    }
  }

  lemma KeepCheaper(f: seq<FrontierPoint>, p: FrontierPoint, seen: seq<FrontierPoint>)
    requires StrictFrontier(f) && AllBefore(f, p) && CoversAll(f, seen)
    requires f == [] || p.cost < f[|f| - 1].cost
    ensures StrictFrontier(f + [p]) && CoversAll(f + [p], seen + [p])
  {
    forall k | 0 <= k < |f| ensures f[k].normalized < p.normalized && f[k].cost > p.cost {
      assert PointLe(f[k], p);
    }
    forall m | 0 <= m < |seen + [p]| ensures CoversAt(f + [p], seen + [p], m) {
      if m < |seen| {
        assert CoversAt(f, seen, m);
        var k := Witness(f, seen[m].normalized, seen[m].cost, true);
        assert NoWorse((f + [p])[k], seen[m].normalized, seen[m].cost, true);
      } else {
        assert NoWorse((f + [p])[|f|], p.normalized, p.cost, true);
      }
    }
  }

  // ----- combining two independent frontiers

  function Join(a: FrontierPoint, b: FrontierPoint): FrontierPoint {
    FrontierPoint(a.normalized + b.normalized, a.cost + b.cost, a.selection + b.selection)
  }

  predicate Fits(p: FrontierPoint, budget: Option<real>) {
    budget.None? || p.normalized <= budget.value
  }

  /** Every pairwise combination within the budget. */
  ghost function Sums(left: seq<FrontierPoint>, right: seq<FrontierPoint>, budget: Option<real>): set<FrontierPoint> {
    set a, b | a in left && b in right && Fits(Join(a, b), budget) :: Join(a, b)
  }

  method MergeFrontier(left: seq<FrontierPoint>, right: seq<FrontierPoint>, budget: Option<real>)
      returns (merged: seq<FrontierPoint>)
    ensures FrontierOf(merged, Sums(left, right, budget))
  {
    var combined: seq<FrontierPoint> := [];
    for i := 0 to |left|
      invariant PointSet(combined) == Sums(left[..i], right, budget)
    {
      for j := 0 to |right|
        invariant PointSet(combined) == Sums(left[..i], right, budget) + Sums([left[i]], right[..j], budget)
      {
        assert right[..j + 1] == right[..j] + [right[j]];
        var p := Join(left[i], right[j]);
        ghost var before := PointSet(combined);
        if Fits(p, budget) {
          combined := combined + [p];
          assert PointSet(combined) == before + {p};
          assert Sums([left[i]], right[..j + 1], budget) == Sums([left[i]], right[..j], budget) + {p};
        } else {
          assert Sums([left[i]], right[..j + 1], budget) == Sums([left[i]], right[..j], budget);
        }
      }
      assert right[..|right|] == right;
      assert left[..i + 1] == left[..i] + [left[i]];
      assert Sums(left[..i + 1], right, budget) == Sums(left[..i], right, budget) + Sums([left[i]], right, budget);
    }
    assert left[..|left|] == left;
    merged := PruneFrontier(combined);
  }

  // ----- a frontier is determined by what it covers

  ghost predicate SameCoordinates(f: seq<FrontierPoint>, g: seq<FrontierPoint>) {
    |f| == |g| && forall i | 0 <= i < |f| :: f[i].normalized == g[i].normalized && f[i].cost == g[i].cost
  }

  ghost predicate CoversAll(f: seq<FrontierPoint>, g: seq<FrontierPoint>) {
    forall i | 0 <= i < |g| :: CoversAt(f, g, i)
  }

  ghost predicate CoversAt(f: seq<FrontierPoint>, g: seq<FrontierPoint>, i: nat)
    requires i < |g|
  {
    Covers(f, g[i].normalized, g[i].cost, true)
  }

  /** A point of one frontier has a twin in any frontier that covers it and is covered back. */
  lemma Twin(f: seq<FrontierPoint>, g: seq<FrontierPoint>, i: nat) returns (j: nat)
    requires StrictFrontier(f) && CoversAll(f, g) && CoversAll(g, f) && i < |f|
    ensures j < |g| && f[i].normalized == g[j].normalized && f[i].cost == g[j].cost
  {
    assert CoversAt(g, f, i);
    j := Witness(g, f[i].normalized, f[i].cost, true);
    assert CoversAt(f, g, j);
    var k := Witness(f, g[j].normalized, g[j].cost, true);
    assert k == i;
  }

  lemma {:induction false} TwinIndex(f: seq<FrontierPoint>, g: seq<FrontierPoint>, i: nat)
    requires StrictFrontier(f) && StrictFrontier(g) && CoversAll(f, g) && CoversAll(g, f) && i < |f|
    ensures i < |g| && f[i].normalized == g[i].normalized && f[i].cost == g[i].cost
  {
    if i > 0 {
      TwinIndex(f, g, i - 1);
    }
    var j := Twin(f, g, i);
    assert j >= i;
    var k := Twin(g, f, i);
    assert k >= i;
  }

  lemma FrontierUnique(f: seq<FrontierPoint>, g: seq<FrontierPoint>)
    requires StrictFrontier(f) && StrictFrontier(g) && CoversAll(f, g) && CoversAll(g, f)
    ensures SameCoordinates(f, g)
  {
    forall i | 0 <= i < |f|
      ensures i < |g| && f[i].normalized == g[i].normalized && f[i].cost == g[i].cost
    {
      TwinIndex(f, g, i);
    }
    if |f| < |g| {
      TwinIndex(g, f, |f|);
    } else if |g| < |f| {
      TwinIndex(f, g, |g|);
    }
  }

  /** The frontiers of two point sets that match each other point for point have the same coordinates. */
  lemma SameFrontier(f: seq<FrontierPoint>, p: set<FrontierPoint>, g: seq<FrontierPoint>, q: set<FrontierPoint>)
    requires FrontierOf(f, p) && FrontierOf(g, q)
    requires forall x | x in p :: exists y | y in q :: NoWorse(y, x.normalized, x.cost, true)
    requires forall y | y in q :: exists x | x in p :: NoWorse(x, y.normalized, y.cost, true)
    ensures SameCoordinates(f, g)
  {
    CoversThrough(f, p, g, q);
    CoversThrough(g, q, f, p);
    FrontierUnique(f, g);
  }

  lemma CoversThrough(f: seq<FrontierPoint>, p: set<FrontierPoint>, g: seq<FrontierPoint>, q: set<FrontierPoint>)
    requires FrontierOf(f, p) && FrontierOf(g, q)
    requires forall y | y in q :: exists x | x in p :: NoWorse(x, y.normalized, y.cost, true)
    ensures CoversAll(f, g)
  {
    forall i | 0 <= i < |g| ensures CoversAt(f, g, i) {
      assert g[i] in q;
      var x :| x in p && NoWorse(x, g[i].normalized, g[i].cost, true);
      var k := Witness(f, x.normalized, x.cost, true);
      assert NoWorse(f[k], g[i].normalized, g[i].cost, true);
    }
  }

  lemma SumsMonotone(fa: seq<FrontierPoint>, a: seq<FrontierPoint>, fb: seq<FrontierPoint>, b: seq<FrontierPoint>,
                     budget: Option<real>, x: FrontierPoint) returns (y: FrontierPoint)
    requires CoversAll(fa, a) && CoversAll(fb, b) && x in Sums(a, b, budget)
    ensures y in Sums(fa, fb, budget) && NoWorse(y, x.normalized, x.cost, true)
  {
    var pa, pb :| pa in a && pb in b && x == Join(pa, pb);
    var i :| 0 <= i < |a| && a[i] == pa;
    var j :| 0 <= j < |b| && b[j] == pb;
    assert CoversAt(fa, a, i) && CoversAt(fb, b, j);
    var k := Witness(fa, a[i].normalized, a[i].cost, true);
    var m := Witness(fb, b[j].normalized, b[j].cost, true);
    y := Join(fa[k], fb[m]);
    assert fa[k] in fa && fb[m] in fb;
  }

  /** Pruning both sides before merging changes no coordinate of the merged frontier. */
  lemma MergeCommutesWithPruning(a: seq<FrontierPoint>, fa: seq<FrontierPoint>,
                                 b: seq<FrontierPoint>, fb: seq<FrontierPoint>,
                                 budget: Option<real>, pruned: seq<FrontierPoint>, full: seq<FrontierPoint>)
    requires FrontierOf(fa, PointSet(a)) && FrontierOf(fb, PointSet(b))
    requires FrontierOf(pruned, Sums(fa, fb, budget)) && FrontierOf(full, Sums(a, b, budget))
    ensures SameCoordinates(pruned, full)
  {
    FrontierCoversItsPoints(fa, a);
    FrontierCoversItsPoints(fb, b);
    forall x | x in Sums(a, b, budget)
      ensures exists y | y in Sums(fa, fb, budget) :: NoWorse(y, x.normalized, x.cost, true)
    {
      var y := SumsMonotone(fa, a, fb, b, budget, x);
    }
    SumsShrink(fa, a, fb, b, budget);
    forall y | y in Sums(fa, fb, budget)
      ensures exists x | x in Sums(a, b, budget) :: NoWorse(x, y.normalized, y.cost, true)
    {
      assert y in Sums(a, b, budget) && NoWorse(y, y.normalized, y.cost, true);
    }
    SameFrontier(pruned, Sums(fa, fb, budget), full, Sums(a, b, budget));
  }

  lemma FrontierCoversItsPoints(f: seq<FrontierPoint>, points: seq<FrontierPoint>)
    requires FrontierOf(f, PointSet(points))
    ensures CoversAll(f, points) && forall p | p in f :: p in points
  {
    forall i | 0 <= i < |points| ensures CoversAt(f, points, i) {
      assert points[i] in PointSet(points);
    }
  }

  lemma SumsShrink(fa: seq<FrontierPoint>, a: seq<FrontierPoint>, fb: seq<FrontierPoint>, b: seq<FrontierPoint>,
                   budget: Option<real>)
    requires (forall p | p in fa :: p in a) && (forall p | p in fb :: p in b)
    ensures Sums(fa, fb, budget) <= Sums(a, b, budget)
  {
  }

  ghost predicate NonNegative(f: seq<FrontierPoint>) {
    forall i | 0 <= i < |f| :: f[i].normalized >= 0.0
  }

  /** Folding two more collections into `c` in either order gives the same frontier coordinates. */
  lemma ExchangeLastFolds(c: seq<FrontierPoint>, a: seq<FrontierPoint>, b: seq<FrontierPoint>, budget: Option<real>,
                          ca: seq<FrontierPoint>, cab: seq<FrontierPoint>,
                          cb: seq<FrontierPoint>, cba: seq<FrontierPoint>)
    requires NonNegative(a) && NonNegative(b)
    requires FrontierOf(ca, Sums(c, a, budget)) && FrontierOf(cab, Sums(ca, b, budget))
    requires FrontierOf(cb, Sums(c, b, budget)) && FrontierOf(cba, Sums(cb, a, budget))
    ensures SameCoordinates(cab, cba)
  {
    forall x | x in Sums(ca, b, budget)
      ensures exists y | y in Sums(cb, a, budget) :: NoWorse(y, x.normalized, x.cost, true)
    {
      var y := Reordered(c, a, b, budget, ca, cb, x);
    }
    forall y | y in Sums(cb, a, budget)
      ensures exists x | x in Sums(ca, b, budget) :: NoWorse(x, y.normalized, y.cost, true)
    {
      var x := Reordered(c, b, a, budget, cb, ca, y);
    }
    SameFrontier(cab, Sums(ca, b, budget), cba, Sums(cb, a, budget));
  }

  lemma Reordered(c: seq<FrontierPoint>, a: seq<FrontierPoint>, b: seq<FrontierPoint>, budget: Option<real>,
                  ca: seq<FrontierPoint>, cb: seq<FrontierPoint>, x: FrontierPoint) returns (y: FrontierPoint)
    requires NonNegative(a) && NonNegative(b)
    requires FrontierOf(ca, Sums(c, a, budget)) && FrontierOf(cb, Sums(c, b, budget))
    requires x in Sums(ca, b, budget)
    ensures y in Sums(cb, a, budget) && NoWorse(y, x.normalized, x.cost, true)
  {
    var pca, pb :| pca in ca && pb in b && x == Join(pca, pb);
    assert pca in Sums(c, a, budget);
    var pc, pa :| pc in c && pa in a && pca == Join(pc, pa);
    assert pa.normalized >= 0.0;
    assert Join(pc, pb) in Sums(c, b, budget);
    var k := Witness(cb, Join(pc, pb).normalized, Join(pc, pb).cost, true);
    y := Join(cb[k], pa);
    assert cb[k] in cb;
  }
}
