/**
 The per-collection dynamic program (src/tradeup/optimizer/bundle.py, `_collection_frontier`): the
 cost/float frontier for choosing exactly `slots` listings within a float budget.
 */
module CollectionFrontiers {
  import opened Frontier
  import opened Pareto
  import opened Sorting

  /** The point's totals are those of a selection of exactly `k` listings of the pool. */
  ghost predicate Realised(p: FrontierPoint, k: int, pool: seq<CandidateItem>) {
    Selection(p.selection, k, pool) && p.normalized == Float(p.selection) && p.cost == Cost(p.selection)
  }

  /** Every affordable k-selection of the pool is matched by a point: on float always, on cost if `exact`. */
  ghost predicate Complete(level: seq<FrontierPoint>, k: int, pool: seq<CandidateItem>, budget: real, exact: bool) {
    forall s :: Matched(level, k, pool, budget, exact, s)
  }

  ghost predicate Matched(level: seq<FrontierPoint>, k: int, pool: seq<CandidateItem>, budget: real, exact: bool,
                          s: seq<CandidateItem>)
  {
    Selection(s, k, pool) && Float(s) <= budget ==> Covers(level, Float(s), Cost(s), exact)
  }

  ghost predicate Level(level: seq<FrontierPoint>, k: int, pool: seq<CandidateItem>, budget: real, exact: bool) {
    && StrictFrontier(level)
    && (forall i | 0 <= i < |level| :: Realised(level[i], k, pool) && (k > 0 ==> level[i].normalized <= budget))
    && Complete(level, k, pool, budget, exact)
  }

  function Append(p: FrontierPoint, item: CandidateItem): FrontierPoint {
    FrontierPoint(p.normalized + item.normalized, p.cost + item.cost, p.selection + [item])
  }

  ghost function Extensions(source: seq<FrontierPoint>, item: CandidateItem, budget: real): set<FrontierPoint> {
    set p | p in source && p.normalized + item.normalized <= budget :: Append(p, item)
  }

  method Extend(source: seq<FrontierPoint>, item: CandidateItem, budget: real) returns (extended: seq<FrontierPoint>)
    ensures PointSet(extended) == Extensions(source, item, budget)
  {
    extended := [];
    for i := 0 to |source|
      invariant PointSet(extended) == Extensions(source[..i], item, budget)
    {
      ghost var before := extended;
      assert source[..i + 1] == source[..i] + [source[i]];
      if source[i].normalized + item.normalized <= budget {
        extended := extended + [Append(source[i], item)];
        assert PointSet(extended) == PointSet(before) + {Append(source[i], item)};
      }
    }
    assert source[..|source|] == source;
  }

  // ----- what one cell update keeps

  lemma RealisedInLargerPool(p: FrontierPoint, k: int, pool: seq<CandidateItem>, item: CandidateItem)
    requires Realised(p, k, pool)
    ensures Realised(p, k, pool + [item])
  {
  }

  lemma AppendRealised(p: FrontierPoint, k: int, pool: seq<CandidateItem>, item: CandidateItem)
    requires Realised(p, k, pool)
    ensures Realised(Append(p, item), k + 1, pool + [item])
  {
    TotalsAppend(p.selection, [item]);
    assert Float([item]) == item.normalized && Cost([item]) == item.cost;
  }

  /** A selection of the enlarged pool either avoids the new listing or is a smaller selection plus it. */
  lemma SplitOnItem(s: seq<CandidateItem>, k: int, pool: seq<CandidateItem>, item: CandidateItem)
      returns (rest: seq<CandidateItem>)
    requires Selection(s, k, pool + [item]) && !Selection(s, k, pool)
    ensures Selection(rest, k - 1, pool)
    ensures Float(s) == Float(rest) + item.normalized && Cost(s) == Cost(rest) + item.cost
  {
    assert multiset(pool + [item]) == multiset(pool) + multiset{item};
    AvoidsItem(s, pool, item);
    var i := IndexOf(s, item);
    Removal(s, i);
    rest := Without(s, i);
    assert multiset{item} + multiset(rest) == multiset(s) && multiset{item} + multiset(pool) == multiset(pool + [item]);
    CancelOne(multiset(rest), multiset(pool), item);
  }

  lemma AvoidsItem(s: seq<CandidateItem>, pool: seq<CandidateItem>, item: CandidateItem)
    requires multiset(s) <= multiset(pool) + multiset{item}
    ensures item !in s ==> multiset(s) <= multiset(pool)
  {
    if item !in s {
      forall y: CandidateItem ensures multiset(s)[y] <= multiset(pool)[y] {
        assert multiset(s)[y] <= (multiset(pool) + multiset{item})[y];
      }
    }
  }

  lemma CellStep(level: seq<FrontierPoint>, below: seq<FrontierPoint>, j: int, pool: seq<CandidateItem>,
                 item: CandidateItem, budget: real, exact: bool, merged: seq<FrontierPoint>)
    requires j > 0 && Level(level, j, pool, budget, exact) && Level(below, j - 1, pool, budget, exact)
    requires FrontierOf(merged, PointSet(level) + Extensions(below, item, budget))
    ensures Level(merged, j, pool + [item], budget, exact)
  {
    forall i | 0 <= i < |merged|
      ensures Realised(merged[i], j, pool + [item]) && merged[i].normalized <= budget
    {
      CellPointRealised(level, below, j, pool, item, budget, exact, merged[i]);
    }
    forall s ensures Matched(merged, j, pool + [item], budget, exact, s) {
      if Selection(s, j, pool + [item]) && Float(s) <= budget {
        CellCovers(level, below, j, pool, item, budget, exact, merged, s);
      }
    }
  }

  lemma CellPointRealised(level: seq<FrontierPoint>, below: seq<FrontierPoint>, j: int, pool: seq<CandidateItem>,
                          item: CandidateItem, budget: real, exact: bool, p: FrontierPoint)
    requires j > 0 && Level(level, j, pool, budget, exact) && Level(below, j - 1, pool, budget, exact)
    requires p in PointSet(level) + Extensions(below, item, budget)
    ensures Realised(p, j, pool + [item]) && p.normalized <= budget
  {
    if p in level {
      var m :| 0 <= m < |level| && level[m] == p;
      RealisedInLargerPool(level[m], j, pool, item);
    } else {
      var q :| q in below && p == Append(q, item) && q.normalized + item.normalized <= budget;
      var m :| 0 <= m < |below| && below[m] == q;
      AppendRealised(below[m], j - 1, pool, item);
    }
  }

  lemma CellCovers(level: seq<FrontierPoint>, below: seq<FrontierPoint>, j: int, pool: seq<CandidateItem>,
                   item: CandidateItem, budget: real, exact: bool, merged: seq<FrontierPoint>, s: seq<CandidateItem>)
    requires j > 0 && Level(level, j, pool, budget, exact) && Level(below, j - 1, pool, budget, exact)
    requires FrontierOf(merged, PointSet(level) + Extensions(below, item, budget))
    requires Selection(s, j, pool + [item]) && Float(s) <= budget
    ensures Covers(merged, Float(s), Cost(s), exact)
  {
    if Selection(s, j, pool) {
      assert Matched(level, j, pool, budget, exact, s);
      var i := Witness(level, Float(s), Cost(s), exact);
      assert level[i] in PointSet(level);
      CoversTransfer(merged, level[i], Float(s), Cost(s), exact);
    } else {
      var rest := SplitOnItem(s, j, pool, item);
      assert Matched(below, j - 1, pool, budget, exact, rest);
      var i := Witness(below, Float(rest), Cost(rest), exact);
      assert below[i] in below && Append(below[i], item) in Extensions(below, item, budget);
      CoversTransfer(merged, Append(below[i], item), Float(s), Cost(s), exact);
    }
  }

  lemma CoversTransfer(f: seq<FrontierPoint>, p: FrontierPoint, z: real, c: int, exact: bool)
    requires Covers(f, p.normalized, p.cost, true) && NoWorse(p, z, c, exact)
    ensures Covers(f, z, c, exact)
  {
    var i := Witness(f, p.normalized, p.cost, true);
    assert NoWorse(f[i], z, c, exact);
  }

  /** With nothing to extend from, the cell stays as it is and remains right for the larger pool. */
  lemma CellUnchanged(level: seq<FrontierPoint>, below: seq<FrontierPoint>, j: int, pool: seq<CandidateItem>,
                      item: CandidateItem, budget: real, exact: bool)
    requires j > 0 && Level(level, j, pool, budget, exact) && Level(below, j - 1, pool, budget, exact)
    requires Extensions(below, item, budget) == {}
    ensures Level(level, j, pool + [item], budget, exact)
  {
    forall p | p in PointSet(level) ensures Covers(level, p.normalized, p.cost, true) {
      var i :| 0 <= i < |level| && level[i] == p;
      assert NoWorse(level[i], p.normalized, p.cost, true);
    }
    CellStep(level, below, j, pool, item, budget, exact, level);
  }

  /** Cutting a level to its lowest-float end keeps float coverage, and cost coverage too if nothing was cut. */
  lemma Truncated(level: seq<FrontierPoint>, k: int, pool: seq<CandidateItem>, budget: real, exact: bool, cap: nat)
    requires cap >= 1 && Level(level, k, pool, budget, exact)
    ensures Level(FirstPoints(level, cap), k, pool, budget, exact && |level| <= cap)
  {
    var kept := FirstPoints(level, cap);
    var stillExact := exact && |level| <= cap;
    forall s ensures Matched(kept, k, pool, budget, stillExact, s) {
      assert Matched(level, k, pool, budget, exact, s);
      if Selection(s, k, pool) && Float(s) <= budget {
        var i := Witness(level, Float(s), Cost(s), exact);
        assert NoWorse(kept[if i < |kept| then i else 0], Float(s), Cost(s), stillExact);
      }
    }
  }

  lemma Weakened(level: seq<FrontierPoint>, k: int, pool: seq<CandidateItem>, budget: real, exact: bool, weaker: bool)
    requires Level(level, k, pool, budget, exact) && (weaker ==> exact)
    ensures Level(level, k, pool, budget, weaker)
  {
    forall s ensures Matched(level, k, pool, budget, weaker, s) {
      assert Matched(level, k, pool, budget, exact, s);
      if Selection(s, k, pool) && Float(s) <= budget {
        var i := Witness(level, Float(s), Cost(s), exact);
        assert NoWorse(level[i], Float(s), Cost(s), weaker);
      }
    }
  }

  /** Python's `points[:cap]`. */
  function FirstPoints(points: seq<FrontierPoint>, cap: nat): (first: seq<FrontierPoint>)
    ensures |first| <= cap && |first| <= |points|
    ensures cap > 0 && points != [] ==> first != []
  {
    if |points| <= cap then points else points[..cap]
  }

  // ----- how long a frontier can get

  lemma {:induction false} SelectionCost(s: seq<CandidateItem>, pool: seq<CandidateItem>)
    requires multiset(s) <= multiset(pool)
    ensures Cost(s) <= Cost(pool)
  {
    if s != [] {
      assert s[0] in multiset(pool);
      var i := IndexOf(pool, s[0]);
      Removal(pool, i);
      assert s == [s[0]] + s[1..];
      CancelOne(multiset(s[1..]), multiset(Without(pool, i)), s[0]);
      SelectionCost(s[1..], Without(pool, i));
    }
  }

  lemma {:induction false} FrontierLength(f: seq<FrontierPoint>, bound: int)
    requires StrictFrontier(f) && bound >= 0
    requires forall i | 0 <= i < |f| :: 0 <= f[i].cost <= bound
    ensures |f| <= bound + 1
  {
    if |f| > 1 {
      assert f[0].cost > f[1].cost;
      assert forall i | 0 <= i < |f[1..]| :: f[1..][i] == f[i + 1] && f[0].cost > f[i + 1].cost;
      FrontierLength(f[1..], bound - 1);
    }
  }

  lemma LevelLength(level: seq<FrontierPoint>, k: int, pool: seq<CandidateItem>, budget: real, exact: bool)
    requires Level(level, k, pool, budget, exact)
    ensures |level| <= Cost(pool) + 1
  {
    forall i | 0 <= i < |level| ensures 0 <= level[i].cost <= Cost(pool) {
      SelectionCost(level[i].selection, pool);
    }
    FrontierLength(level, Cost(pool));
  }

  // ----- when a frontier does not fit

  /** The exact frontier of a level is determined by the pool, the number of listings and the budget. */
  lemma LevelUnique(f: seq<FrontierPoint>, g: seq<FrontierPoint>, k: int, pool: seq<CandidateItem>, budget: real)
    requires k > 0 && Level(f, k, pool, budget, true) && Level(g, k, pool, budget, true)
    ensures SameCoordinates(f, g)
  {
    LevelCovers(f, g, k, pool, budget);
    LevelCovers(g, f, k, pool, budget);
    FrontierUnique(f, g);
  }

  lemma LevelCovers(f: seq<FrontierPoint>, g: seq<FrontierPoint>, k: int, pool: seq<CandidateItem>, budget: real)
    requires k > 0 && Level(f, k, pool, budget, true) && Level(g, k, pool, budget, true)
    ensures CoversAll(f, g)
  {
    forall i | 0 <= i < |g| ensures CoversAt(f, g, i) {
      assert Realised(g[i], k, pool) && g[i].normalized <= budget;
      assert Matched(f, k, pool, budget, true, g[i].selection);
    }
  }

  /** The exact frontier of the affordable `k`-selections of the pool has more than `cap` points. */
  ghost predicate LevelOverflows(pool: seq<CandidateItem>, k: int, budget: real, cap: nat) {
    exists f :: Level(f, k, pool, budget, true) && |f| > cap
  }

  /** So does that of some number of listings, up to `slots`, of one of the first `n` prefixes. */
  ghost predicate PrefixOverflows(items: seq<CandidateItem>, n: nat, slots: nat, budget: real, cap: nat)
    requires n <= |items|
  {
    exists i, k :: 0 <= i <= n && 0 < k <= slots && LevelOverflows(items[..i], k, budget, cap)
  }

  /** So does that of some level before the last one: of a shorter prefix, or of fewer listings. */
  ghost predicate EarlierOverflows(items: seq<CandidateItem>, n: nat, slots: nat, budget: real, cap: nat)
    requires n <= |items|
  {
    exists i, k :: 0 <= i <= n && 0 < k <= slots && (i < n || k < slots) && LevelOverflows(items[..i], k, budget, cap)
  }

  /** `kept` is the lowest-float end of the exact frontier, which has more points. */
  ghost predicate CutTo(kept: seq<FrontierPoint>, k: int, pool: seq<CandidateItem>, budget: real, cap: nat) {
    exists f :: Level(f, k, pool, budget, true) && |f| > cap && kept == FirstPoints(f, cap)
  }

  lemma FittingLevel(level: seq<FrontierPoint>, k: int, pool: seq<CandidateItem>, budget: real, cap: nat)
    requires k > 0 && Level(level, k, pool, budget, true) && |level| <= cap
    ensures !LevelOverflows(pool, k, budget, cap)
  {
    forall f | Level(f, k, pool, budget, true) ensures |f| <= cap {
      LevelUnique(f, level, k, pool, budget);
    }
  }

  /** Prices summing to less than the cap leave no room for an overflow. */
  lemma CheapNeverOverflows(items: seq<CandidateItem>, slots: nat, budget: real, cap: nat)
    requires Cost(items) < cap
    ensures !PrefixOverflows(items, |items|, slots, budget, cap)
  {
    forall i, k | 0 <= i <= |items| && 0 < k <= slots ensures !LevelOverflows(items[..i], k, budget, cap) {
      assert items == items[..i] + items[i..];
      SelectionCost(items[..i], items);
      forall f | Level(f, k, items[..i], budget, true) ensures |f| <= cap {
        LevelLength(f, k, items[..i], budget, true);
      }
    }
  }

  // ----- the program itself

  /** Updates `levels[j]` for one more listing, reading `levels[j - 1]` before that cell sees the listing. */
  method UpdateCell(levels: array<seq<FrontierPoint>>, j: nat, ghost pool: seq<CandidateItem>, item: CandidateItem,
                    budget: real, cap: nat, ghost exact: bool) returns (ghost stillExact: bool)
    requires 0 < j < levels.Length && cap >= 1 && |levels[j]| <= cap
    requires Level(levels[j], j, pool, budget, exact) && Level(levels[j - 1], j - 1, pool, budget, exact)
    modifies levels
    ensures forall i | 0 <= i < levels.Length && i != j :: levels[i] == old(levels[i])
    ensures Level(levels[j], j, pool + [item], budget, stillExact) && |levels[j]| <= cap
    ensures stillExact ==> exact
    ensures exact && !stillExact ==> CutTo(levels[j], j, pool + [item], budget, cap)
  {
    stillExact := exact;
    var extended := Extend(levels[j - 1], item, budget);
    if extended == [] {
      CellUnchanged(levels[j], levels[j - 1], j, pool, item, budget, exact);
    } else {
      var merged := PruneFrontier(levels[j] + extended);
      assert PointSet(levels[j] + extended) == PointSet(levels[j]) + PointSet(extended);
      CellStep(levels[j], levels[j - 1], j, pool, item, budget, exact, merged);
      Truncated(merged, j, pool + [item], budget, exact, cap);
      stillExact := exact && |merged| <= cap;
      levels[j] := FirstPoints(merged, cap);
    }
  }

  /** The last of `n` levels was cut to `top`, or another of them overflows. */
  ghost predicate CutSomewhere(top: seq<FrontierPoint>, pool: seq<CandidateItem>, n: nat, budget: real, cap: nat) {
    || (n > 1 && CutTo(top, n - 1, pool, budget, cap))
    || exists k | 0 < k < n - 1 :: LevelOverflows(pool, k, budget, cap)
  }

  lemma CellWasCut(cell: seq<FrontierPoint>, top: seq<FrontierPoint>, j: nat, pool: seq<CandidateItem>, n: nat,
                   budget: real, cap: nat)
    requires 0 < j < n && CutTo(cell, j, pool, budget, cap) && (j == n - 1 ==> top == cell)
    ensures CutSomewhere(top, pool, n, budget, cap)
  {
    assert LevelOverflows(pool, j, budget, cap);
  }

  /** The levels from `first` up to but not including `end`, for one pool. */
  ghost predicate LevelsFor(levels: seq<seq<FrontierPoint>>, first: nat, end: nat, pool: seq<CandidateItem>,
                            budget: real, cap: nat, exact: bool)
    requires end <= |levels|
  {
    forall i | first <= i < end :: Level(levels[i], i, pool, budget, exact) && |levels[i]| <= cap
  }

  lemma WeakenedLevels(before: seq<seq<FrontierPoint>>, after: seq<seq<FrontierPoint>>, first: nat, end: nat,
                       pool: seq<CandidateItem>, budget: real, cap: nat, exact: bool, weaker: bool)
    requires end <= |before| == |after| && LevelsFor(before, first, end, pool, budget, cap, exact)
    requires (weaker ==> exact) && forall i | first <= i < end :: after[i] == before[i]
    ensures LevelsFor(after, first, end, pool, budget, cap, weaker)
  {
    forall i | first <= i < end ensures Level(after[i], i, pool, budget, weaker) {
      Weakened(before[i], i, pool, budget, exact, weaker);
    }
  }

  /** One listing: the downward sweep over `j`, so that no cell reads one that already used the listing. */
  method UseItem(levels: array<seq<FrontierPoint>>, ghost pool: seq<CandidateItem>, item: CandidateItem,
                 budget: real, cap: nat, ghost exact: bool) returns (ghost stillExact: bool)
    requires levels.Length >= 1 && cap >= 1
    requires forall j | 0 <= j < levels.Length :: Level(levels[j], j, pool, budget, exact) && |levels[j]| <= cap
    modifies levels
    ensures forall j | 0 <= j < levels.Length ::
      Level(levels[j], j, pool + [item], budget, stillExact) && |levels[j]| <= cap
    ensures stillExact ==> exact
    ensures exact && !stillExact ==> CutSomewhere(levels[levels.Length - 1], pool + [item], levels.Length, budget, cap)
  {
    stillExact := exact;
    var j := levels.Length - 1;
    ghost var now := levels[..];
    while j > 0
      invariant 0 <= j < levels.Length
      invariant (stillExact ==> exact) && (j == levels.Length - 1 ==> stillExact == exact)
      invariant now == levels[..] && LevelsFor(now, 0, j + 1, pool, budget, cap, stillExact)
      invariant LevelsFor(now, j + 1, levels.Length, pool + [item], budget, cap, stillExact)
      invariant exact && !stillExact ==>
        CutSomewhere(levels[levels.Length - 1], pool + [item], levels.Length, budget, cap)
    {
      ghost var before, was := now, stillExact;
      stillExact := UpdateCell(levels, j, pool, item, budget, cap, was);
      now := levels[..];
      WeakenedLevels(before, now, 0, j, pool, budget, cap, was, stillExact);
      WeakenedLevels(before, now, j + 1, levels.Length, pool + [item], budget, cap, was, stillExact);
      if was && !stillExact {
        CellWasCut(levels[j], levels[levels.Length - 1], j, pool + [item], levels.Length, budget, cap);
      }
      assert j < levels.Length - 1 ==> levels[levels.Length - 1] == before[levels.Length - 1];
      j := j - 1;
    }
    EmptySelectionLevel(levels[0], pool, item, budget, stillExact);
  }

  lemma EmptySelectionLevel(level: seq<FrontierPoint>, pool: seq<CandidateItem>, item: CandidateItem,
                            budget: real, exact: bool)
    requires Level(level, 0, pool, budget, exact)
    ensures Level(level, 0, pool + [item], budget, exact)
  {
    forall i | 0 <= i < |level| ensures Realised(level[i], 0, pool + [item]) {
      RealisedInLargerPool(level[i], 0, pool, item);
    }
    forall s ensures Matched(level, 0, pool + [item], budget, exact, s) {
      assert Matched(level, 0, pool, budget, exact, s);
      assert |s| == 0 ==> Selection(s, 0, pool);
    }
  }

  /**
   `truncated` is never seen by the program: it records whether any frontier was cut to `cap` points, which
   happens exactly when one of the exact frontiers does not fit.
   */
  method CollectionFrontier(items: seq<CandidateItem>, slots: nat, budget: real, cap: nat)
      returns (frontier: seq<FrontierPoint>, ghost truncated: bool)
    requires cap >= 1
    ensures Level(frontier, slots, items, budget, false)
    ensures Level(frontier, slots, items, budget, !truncated)
    ensures truncated ==> PrefixOverflows(items, |items|, slots, budget, cap)
    ensures slots <= |items| ==> (truncated <==> PrefixOverflows(items, |items|, slots, budget, cap))
    ensures truncated && !EarlierOverflows(items, |items|, slots, budget, cap) ==>
      CutTo(frontier, slots, items, budget, cap)
    ensures Cost(items) < cap ==> !truncated
  {
    truncated := false;
    if Cost(items) < cap {
      CheapNeverOverflows(items, slots, budget, cap);
    }
    if slots > |items| {
      NoOversizedSelection(slots, items);
      return [], false;
    }
    var levels := new seq<FrontierPoint>[slots + 1](_ => []);
    levels[0] := [FrontierPoint(0.0, 0, [])];
    StartingLevels(levels[0], slots, budget);
    NothingOverflowsYet(items, levels[..], slots, budget, cap);
    for i := 0 to |items|
      invariant forall j | 0 <= j <= slots :: Level(levels[j], j, items[..i], budget, !truncated) && |levels[j]| <= cap
      invariant truncated <==> PrefixOverflows(items, i, slots, budget, cap)
      invariant truncated && !EarlierOverflows(items, i, slots, budget, cap) ==>
        CutTo(levels[slots], slots, items[..i], budget, cap)
    {
      PrefixStep(items, i);
      ghost var before := truncated;
      ghost var stillExact := UseItem(levels, items[..i], items[i], budget, cap, !truncated);
      truncated := !stillExact;
      OverflowStep(items, levels[..], i, slots, budget, cap, before, truncated);
    }
    WholePrefix(items);
    frontier := levels[slots];
    Weakened(frontier, slots, items, budget, !truncated, false);
  }

  lemma NothingOverflowsYet(items: seq<CandidateItem>, levels: seq<seq<FrontierPoint>>, slots: nat, budget: real,
                            cap: nat)
    requires |levels| == slots + 1 && cap >= 1
    requires forall j | 0 <= j <= slots :: Level(levels[j], j, [], budget, true) && |levels[j]| <= cap
    ensures !PrefixOverflows(items, 0, slots, budget, cap)
  {
    assert items[..0] == [];
    forall k | 0 < k <= slots ensures !LevelOverflows([], k, budget, cap) {
      FittingLevel(levels[k], k, [], budget, cap);
    }
  }

  /** One more listing: something overflows by now if it did before, or if one of the new levels does. */
  lemma OverflowStep(items: seq<CandidateItem>, levels: seq<seq<FrontierPoint>>, i: nat, slots: nat, budget: real,
                     cap: nat, before: bool, after: bool)
    requires i < |items| && |levels| == slots + 1
    requires before <==> PrefixOverflows(items, i, slots, budget, cap)
    requires before ==> after
    requires !before && after ==> CutSomewhere(levels[slots], items[..i] + [items[i]], slots + 1, budget, cap)
    requires !after ==> forall j | 0 <= j <= slots ::
      Level(levels[j], j, items[..i] + [items[i]], budget, true) && |levels[j]| <= cap
    ensures after <==> PrefixOverflows(items, i + 1, slots, budget, cap)
    ensures after && !EarlierOverflows(items, i + 1, slots, budget, cap) ==>
      CutTo(levels[slots], slots, items[..i + 1], budget, cap)
  {
    PrefixStep(items, i);
    if before {
      var m, k :| 0 <= m <= i && 0 < k <= slots && LevelOverflows(items[..m], k, budget, cap);
      assert m < i + 1;
    } else if after && !CutTo(levels[slots], slots, items[..i + 1], budget, cap) {
      var k :| 0 < k < slots && LevelOverflows(items[..i + 1], k, budget, cap);
    } else if after {
      assert LevelOverflows(items[..i + 1], slots, budget, cap);
    }
    if !after {
      forall m, k | 0 <= m <= i + 1 && 0 < k <= slots ensures !LevelOverflows(items[..m], k, budget, cap) {
        if m == i + 1 {
          FittingLevel(levels[k], k, items[..m], budget, cap);
        }
      }
    }
  }

  lemma NoOversizedSelection(k: int, pool: seq<CandidateItem>)
    requires k > |pool|
    ensures forall s :: !Selection(s, k, pool)
  {
    forall s ensures !Selection(s, k, pool) {
      if Selection(s, k, pool) { SubsetSize(multiset(s), multiset(pool)); }
    }
  }

  lemma StartingLevels(zero: seq<FrontierPoint>, slots: nat, budget: real)
    requires zero == [FrontierPoint(0.0, 0, [])]
    ensures Level(zero, 0, [], budget, true)
    ensures forall j | 0 < j <= slots :: Level([], j, [], budget, true)
  {
    forall s ensures Matched(zero, 0, [], budget, true, s) {
      assert |s| == 0 ==> NoWorse(zero[0], Float(s), Cost(s), true);
    }
    forall j | 0 < j <= slots ensures Level([], j, [], budget, true) {
      NoOversizedSelection(j, []);
    }
  }
}
