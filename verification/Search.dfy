/**
 The whole search end to end: enumerate the shapes, solve each at the budgets kept for it, and offer what is built
 to the gates until the candidate cap is reached (src/tradeup/pipeline/scan.py, the two loops of `run`).
 */
module Search {
  import opened Boundaries
  import opened Bundle
  import opened BundleCorollaries
  import opened Enumerator
  import opened FewBudgets
  import opened KeptBudgets
  import opened Pareto
  import opened Purchasing
  import opened Reservations
  import opened Scan
  import opened Sorting
  import opened Wear
  import opened Wrappers

  /**
   A scan's configuration and market.  `outputs` are the float ranges a shape can produce, `build` turns a solution
   into a candidate or gives it up, and the three caps are those of the optimizer and of the scan.
   */
  datatype Scanner = Scanner(
    market: Market,
    inputCount: int,
    limits: CompositionConstraints,
    outputs: Composition -> seq<FloatRange>,
    build: (Composition, BundleSolution) -> Option<TradeupCandidate>,
    budgetLimit: nat,
    frontierCap: nat,
    maxCandidates: int)

  /** `{cid: len(items)}`. */
  function Availability(market: Market): map<int, nat> {
    map c | c in market :: |market[c]|
  }

  function ShapesOf(sc: Scanner): Result<seq<Composition>, string> {
    EnumerateCompositions(Availability(sc.market), sc.inputCount, sc.limits)
  }

  /** What the solver promises for one budget. */
  ghost predicate Answered(sc: Scanner, counts: Composition, budget: real, r: Option<BundleSolution>) {
    var total := Spread(budget, TotalInputs(counts));
    Solves(counts, sc.market, total, r, !Overflows(counts, sc.market, total, sc.frontierCap))
  }

  /** Every solution goes to the candidate builder, and nothing else does. */
  ghost predicate BuiltFrom(sc: Scanner, counts: Composition, r: Option<BundleSolution>, p: Option<TradeupCandidate>) {
    match r
    case None => p == None
    case Some(solution) => p == sc.build(counts, solution)
  }

  ghost predicate BudgetSearched(sc: Scanner, counts: Composition, budget: real, r: Option<BundleSolution>,
                                 p: Option<TradeupCandidate>)
  {
    Answered(sc, counts, budget, r) && BuiltFrom(sc, counts, r, p)
  }

  /** `BudgetSearched` as a value, so that the loop below need not look inside it. */
  ghost function BudgetTest(sc: Scanner, counts: Composition)
      : (real, Option<BundleSolution>, Option<TradeupCandidate>) -> bool
  {
    (budget, r, p) => BudgetSearched(sc, counts, budget, r, p)
  }

  ghost predicate AllPass<A, B, C>(test: (A, B, C) -> bool, a: seq<A>, b: seq<B>, c: seq<C>) {
    |b| == |c| == |a| && forall i | 0 <= i < |a| :: test(a[i], b[i], c[i])
  }

  lemma OneMorePasses<A, B, C>(test: (A, B, C) -> bool, a: seq<A>, b: seq<B>, c: seq<C>, x: A, y: B, z: C)
    requires AllPass(test, a, b, c) && test(x, y, z)
    ensures AllPass(test, a + [x], b + [y], c + [z])
  {
  }

  /** The answers at the budgets kept for a shape, and the candidates built from them. */
  ghost predicate ShapeSearched(sc: Scanner, counts: Composition, results: seq<Option<BundleSolution>>,
                                proposals: seq<Option<TradeupCandidate>>)
  {
    AllPass(BudgetTest(sc, counts), BudgetsFor(sc.outputs(counts), sc.budgetLimit), results, proposals)
  }

  ghost predicate Searched(sc: Scanner, shapes: seq<Composition>, results: seq<seq<Option<BundleSolution>>>,
                           proposals: seq<seq<Option<TradeupCandidate>>>)
  {
    && |results| == |proposals| == |shapes|
    && forall k | 0 <= k < |shapes| :: ShapeSearched(sc, shapes[k], results[k], proposals[k])
  }

  method SolveAt(sc: Scanner, counts: Composition, budget: real) returns (r: Option<BundleSolution>)
    requires sc.frontierCap >= 1
    ensures Answered(sc, counts, budget, r)
  {
    ghost var truncated;
    r, truncated := Solve(counts, sc.market, budget, sc.frontierCap);
  }

  lemma TestPasses(sc: Scanner, counts: Composition, budget: real, r: Option<BundleSolution>,
                   p: Option<TradeupCandidate>)
    requires Answered(sc, counts, budget, r) && BuiltFrom(sc, counts, r, p)
    ensures BudgetTest(sc, counts)(budget, r, p)
  {
  }

  method SearchBudget(sc: Scanner, counts: Composition, budget: real)
      returns (r: Option<BundleSolution>, p: Option<TradeupCandidate>)
    requires sc.frontierCap >= 1
    ensures BudgetTest(sc, counts)(budget, r, p)
  {
    r := SolveAt(sc, counts, budget);
    if r.None? {
      p := None;
    } else {
      p := sc.build(counts, r.value);
    }
    TestPasses(sc, counts, budget, r, p);
  }

  method SearchShape(sc: Scanner, counts: Composition)
      returns (results: seq<Option<BundleSolution>>, proposals: seq<Option<TradeupCandidate>>)
    requires sc.frontierCap >= 1
    ensures ShapeSearched(sc, counts, results, proposals)
  {
    var budgets := SelectBudgets(sc.outputs(counts), sc.budgetLimit);
    results, proposals := [], [];
    for b := 0 to |budgets|
      invariant AllPass(BudgetTest(sc, counts), budgets[..b], results, proposals)
    {
      var r, p := SearchBudget(sc, counts, budgets[b]);
      OneMorePasses(BudgetTest(sc, counts), budgets[..b], results, proposals, budgets[b], r, p);
      PrefixStep(budgets, b);
      results := results + [r];
      proposals := proposals + [p];
    }
    WholePrefix(budgets);
  }

  lemma SearchedStep(sc: Scanner, shapes: seq<Composition>, results: seq<seq<Option<BundleSolution>>>,
                     proposals: seq<seq<Option<TradeupCandidate>>>, answers: seq<Option<BundleSolution>>,
                     candidates: seq<Option<TradeupCandidate>>, counts: Composition)
    requires Searched(sc, shapes, results, proposals) && ShapeSearched(sc, counts, answers, candidates)
    ensures Searched(sc, shapes + [counts], results + [answers], proposals + [candidates])
  {
  }

  method SearchEach(sc: Scanner, shapes: seq<Composition>)
      returns (results: seq<seq<Option<BundleSolution>>>, proposals: seq<seq<Option<TradeupCandidate>>>)
    requires sc.frontierCap >= 1
    ensures Searched(sc, shapes, results, proposals)
  {
    results, proposals := [], [];
    for k := 0 to |shapes|
      invariant Searched(sc, shapes[..k], results, proposals)
    {
      var answers, candidates := SearchShape(sc, shapes[k]);
      SearchedStep(sc, shapes[..k], results, proposals, answers, candidates, shapes[k]);
      PrefixStep(shapes, k);
      results := results + [answers];
      proposals := proposals + [candidates];
    }
    WholePrefix(shapes);
  }

  /** Proposal for proposal: what `build` makes of the solution, or nothing without one. */
  ghost predicate ProposalsAreBuilt(sc: Scanner, shapes: seq<Composition>, results: seq<seq<Option<BundleSolution>>>,
                           proposals: seq<seq<Option<TradeupCandidate>>>)
  {
    && |results| == |proposals| == |shapes|
    && forall k | 0 <= k < |shapes| :: |results[k]| == |proposals[k]| && forall b | 0 <= b < |results[k]| ::
         proposals[k][b] == if results[k][b].Some? then sc.build(shapes[k], results[k][b].value) else None
  }

  lemma SearchedIsBuilt(sc: Scanner, shapes: seq<Composition>, results: seq<seq<Option<BundleSolution>>>,
                        proposals: seq<seq<Option<TradeupCandidate>>>)
    requires Searched(sc, shapes, results, proposals)
    ensures ProposalsAreBuilt(sc, shapes, results, proposals)
  {
    forall k | 0 <= k < |shapes|
      ensures |results[k]| == |proposals[k]| && forall b | 0 <= b < |results[k]| ::
        proposals[k][b] == if results[k][b].Some? then sc.build(shapes[k], results[k][b].value) else None
    {
      assert ShapeSearched(sc, shapes[k], results[k], proposals[k]);
      forall b | 0 <= b < |results[k]|
        ensures proposals[k][b] == if results[k][b].Some? then sc.build(shapes[k], results[k][b].value) else None
      {
        assert BudgetTest(sc, shapes[k])(BudgetsFor(sc.outputs(shapes[k]), sc.budgetLimit)[b], results[k][b],
                                         proposals[k][b]);
      }
    }
  }

  /** A shape of the market: at least the minimum of each of few enough collections, and no more than is on offer. */
  ghost predicate OnOffer(sc: Scanner, counts: Composition) {
    && TotalInputs(counts) == sc.inputCount && |counts| <= sc.limits.maxDistinct
    && forall c | c in counts :: c in sc.market && sc.limits.minInputs <= counts[c] <= |sc.market[c]|
  }

  lemma AdmissibleIsOnOffer(sc: Scanner, counts: Composition)
    ensures Admissible(counts, Availability(sc.market), sc.inputCount, sc.limits) <==> OnOffer(sc, counts)
  {
  }

  /** The shapes searched are exactly those, each once. */
  lemma ShapesAreOnOffer(sc: Scanner)
    requires sc.inputCount >= 1
    ensures ShapesOf(sc).Ok? && Distinct(ShapesOf(sc).value)
    ensures forall counts :: counts in ShapesOf(sc).value <==> OnOffer(sc, counts)
  {
    EnumerationIsExact(Availability(sc.market), sc.inputCount, sc.limits);
    forall counts ensures counts in ShapesOf(sc).value <==> OnOffer(sc, counts) {
      AdmissibleIsOnOffer(sc, counts);
    }
  }

  method SearchShapes(sc: Scanner)
      returns (r: Result<(seq<seq<Option<BundleSolution>>>, seq<seq<Option<TradeupCandidate>>>), string>)
    requires sc.frontierCap >= 1
    ensures r.Err? <==> sc.inputCount < 1
    ensures r.Ok? ==>
      && ShapesOf(sc).Ok? && (forall counts :: counts in ShapesOf(sc).value <==> OnOffer(sc, counts))
      && Searched(sc, ShapesOf(sc).value, r.value.0, r.value.1)
      && ProposalsAreBuilt(sc, ShapesOf(sc).value, r.value.0, r.value.1)
  {
    var enumerated := ShapesOf(sc);
    EnumerationIsExact(Availability(sc.market), sc.inputCount, sc.limits);
    if enumerated.Err? {
      return Err(enumerated.error);
    }
    ShapesAreOnOffer(sc);
    var results, proposals := SearchEach(sc, enumerated.value);
    SearchedIsBuilt(sc, enumerated.value, results, proposals);
    return Ok((results, proposals));
  }

  // ----- what the search reaches

  lemma FilledShapeIsAvailable(counts: Composition, market: Market, parts: Market, minInputs: nat)
    requires FillsContract(counts, market, parts) && forall c | c in counts :: counts[c] >= minInputs
    ensures Between(counts, minInputs, Availability(market))
  {
    var keys := SortedKeys(counts.Keys);
    forall c | c in counts ensures c in market && counts[c] <= |market[c]| {
      assert c in counts.Keys && c in keys;
      var i := Position(keys, c);
      assert Selection(Pool(parts, keys[i]), Count(counts, keys[i]), Pool(market, keys[i]));
      SubsetSize(multiset(Pool(parts, c)), multiset(Pool(market, c)));
    }
  }

  /** The bundle fills a shape of the scanner's size within its limits. */
  ghost predicate Considerable(sc: Scanner, counts: Composition, parts: Market) {
    && FillsContract(counts, sc.market, parts) && TotalInputs(counts) == sc.inputCount
    && |counts| <= sc.limits.maxDistinct && forall c | c in counts :: counts[c] >= sc.limits.minInputs
  }

  lemma AdmissibleIsListed(shapes: seq<Composition>, counts: Composition, available: map<int, nat>, inputCount: int,
                           limits: CompositionConstraints) returns (k: nat)
    requires EnumerateCompositions(available, inputCount, limits) == Ok(shapes)
    requires Admissible(counts, available, inputCount, limits)
    ensures k < |shapes| && shapes[k] == counts
  {
    EnumerationIsExact(available, inputCount, limits);
    k :| 0 <= k < |shapes| && shapes[k] == counts;
  }

  lemma SomeShapes(available: map<int, nat>, inputCount: int, limits: CompositionConstraints)
    requires inputCount >= 1
    ensures EnumerateCompositions(available, inputCount, limits).Ok?
  {
    EnumerationIsExact(available, inputCount, limits);
  }

  lemma ConsiderableIsAdmissible(sc: Scanner, counts: Composition, parts: Market)
    requires Considerable(sc, counts, parts)
    ensures Admissible(counts, Availability(sc.market), sc.inputCount, sc.limits) && sc.inputCount >= 1
  {
    SomeInput(counts);
    FilledShapeIsAvailable(counts, sc.market, parts, sc.limits.minInputs);
  }

  lemma ShapeIsEnumerated(sc: Scanner, counts: Composition, parts: Market) returns (k: nat)
    requires Considerable(sc, counts, parts)
    ensures ShapesOf(sc).Ok? && k < |ShapesOf(sc).value| && ShapesOf(sc).value[k] == counts
  {
    ConsiderableIsAdmissible(sc, counts, parts);
    SomeShapes(Availability(sc.market), sc.inputCount, sc.limits);
    k := AdmissibleIsListed(ShapesOf(sc).value, counts, Availability(sc.market), sc.inputCount, sc.limits);
  }

  /** No frontier the search needs for this shape overflows the optimizer's cap. */
  ghost predicate NeverOverflows(sc: Scanner, counts: Composition) {
    forall b | b in BudgetsFor(sc.outputs(counts), sc.budgetLimit) ::
      !Overflows(counts, sc.market, Spread(b, TotalInputs(counts)), sc.frontierCap)
  }

  /** Some candidate budget serves the average, and it is not crowded out of those the scan keeps. */
  ghost predicate ServedByScan(sc: Scanner, counts: Composition, z: real) {
    var ranges := sc.outputs(counts);
    ranges != [] && Served(Breakpoints(ranges), Budgets(ranges, true), z) && !CrowdedOut(ranges, sc.budgetLimit, z)
  }

  lemma KeptBudget(sc: Scanner, counts: Composition, z: real) returns (b: nat)
    requires 0.0 <= z <= 1.0 && ServedByScan(sc, counts, z)
    ensures var ranges := sc.outputs(counts);
            var budgets := BudgetsFor(ranges, sc.budgetLimit);
            b < |budgets| && budgets[b] in Budgets(ranges, true) && ServedBy(Breakpoints(ranges), z, budgets[b])
  {
    var ranges := sc.outputs(counts);
    var budgets := BudgetsFor(ranges, sc.budgetLimit);
    KeptServesExactly(ranges, sc.budgetLimit, z);
    var budget :| budget in Elements(budgets) && ServedBy(Breakpoints(ranges), z, budget);
    b :| 0 <= b < |budgets| && budgets[b] == budget;
    KeptAreCandidates(SortedReals(Budgets(ranges, true)), sc.budgetLimit, budget);
  }

  /** No two breakpoints lie within EPSILON of each other. */
  predicate Spaced(breakpoints: set<real>) {
    forall b, c | b in breakpoints && c in breakpoints && b < c :: c - b >= 0.000000001
  }

  lemma ServingStaysClear(ranges: seq<FloatRange>, z: real, budget: real)
    requires budget in Budgets(ranges, true) && ServedBy(Breakpoints(ranges), z, budget) && Spaced(Breakpoints(ranges))
    ensures forall b | b in Breakpoints(ranges) :: b > z ==> budget <= b - EPSILON
  {
    BreakpointsInUnit(ranges);
    if budget in JustBelow(Breakpoints(ranges)) {
      var d :| d in Breakpoints(ranges) && budget == d - EPSILON;
      forall b | b in Breakpoints(ranges) && b > z ensures budget <= b - EPSILON {
        assert b > budget;
        assert b < d ==> d - b >= EPSILON;
      }
    }
  }

  /** As good as the bundle, also in the rendered wear when the breakpoints are spaced. */
  lemma ServedAnswerIsAsGood(sc: Scanner, counts: Composition, parts: Market, budget: real, r: Option<BundleSolution>)
    requires FillsContract(counts, sc.market, parts) && Answered(sc, counts, budget, r)
    requires !Overflows(counts, sc.market, Spread(budget, TotalInputs(counts)), sc.frontierCap)
    requires budget in Budgets(sc.outputs(counts), true)
    requires ServedBy(Breakpoints(sc.outputs(counts)), BundleMean(counts, parts), budget)
    ensures AsGood(sc.outputs(counts), counts, r, Cost(Listings(counts, parts)), BundleMean(counts, parts))
    ensures Spaced(Breakpoints(sc.outputs(counts))) ==>
      RendersAsGood(sc.outputs(counts), counts, r, BundleMean(counts, parts))
  {
    var ranges, z, total := sc.outputs(counts), BundleMean(counts, parts), Spread(budget, TotalInputs(counts));
    ServedBundleIsMatched(ranges, counts, sc.market, parts, budget, total, r);
    if Spaced(Breakpoints(ranges)) {
      ServingStaysClear(ranges, z, budget);
      BoughtFloat(counts, sc.market, total, r.value);
      SomeInput(counts);
      MeanInUnit(r.value.totalNormalized, TotalInputs(counts));
      BundleMeanInUnit(counts, sc.market, parts);
      RenderedNoWorse(ranges, budget, z, Mean(r.value.totalNormalized, TotalInputs(counts)));
    }
  }

  /**
   What the search cannot miss.  Take any bundle of listings on the market whose shape is within the limits, whose
   average is served by a budget the scan keeps, and for which no frontier overflows.  Its shape is enumerated, and
   at one of its budgets the solver buys a bundle that costs no more and leaves no output in a worse wear band.  What
   `build` makes of that bundle, if anything, is among the candidates considered, unless the cap was reached before the
   shape.
   */
  lemma SearchReaches(sc: Scanner, results: seq<seq<Option<BundleSolution>>>,
                      proposals: seq<seq<Option<TradeupCandidate>>>, counts: Composition, parts: Market)
      returns (k: nat, b: nat)
    requires ShapesOf(sc).Ok? && Searched(sc, ShapesOf(sc).value, results, proposals)
    requires Considerable(sc, counts, parts) && ServedByScan(sc, counts, BundleMean(counts, parts))
    requires NeverOverflows(sc, counts)
    ensures k < |results| == |proposals| && ShapesOf(sc).value[k] == counts && b < |results[k]| == |proposals[k]|
    ensures AsGood(sc.outputs(counts), counts, results[k][b], Cost(Listings(counts, parts)), BundleMean(counts, parts))
    ensures Spaced(Breakpoints(sc.outputs(counts))) ==>
      RendersAsGood(sc.outputs(counts), counts, results[k][b], BundleMean(counts, parts))
    ensures results[k][b].Some?
    ensures sc.build(counts, results[k][b].value).Some? ==>
      || sc.build(counts, results[k][b].value).value.id in CandidateIds(Considered(proposals, sc.maxCandidates))
      || |Considered(proposals[..k], sc.maxCandidates)| >= sc.maxCandidates
  {
    k := ShapeIsEnumerated(sc, counts, parts);
    BundleMeanInUnit(counts, sc.market, parts);
    b := KeptBudget(sc, counts, BundleMean(counts, parts));
    var budget := SearchedAt(sc, results, proposals, counts, k, b);
    ServedAnswerIsAsGood(sc, counts, parts, budget, results[k][b]);
    if proposals[k][b].Some? {
      NothingPassedOver(proposals, sc.maxCandidates, k, b);
    }
  }

  lemma SearchedAt(sc: Scanner, results: seq<seq<Option<BundleSolution>>>,
                   proposals: seq<seq<Option<TradeupCandidate>>>, counts: Composition, k: nat, b: nat)
      returns (budget: real)
    requires ShapesOf(sc).Ok? && Searched(sc, ShapesOf(sc).value, results, proposals)
    requires k < |ShapesOf(sc).value| && ShapesOf(sc).value[k] == counts
    requires b < |BudgetsFor(sc.outputs(counts), sc.budgetLimit)|
    ensures |results| == |proposals| == |ShapesOf(sc).value|
    ensures b < |results[k]| == |proposals[k]| && budget == BudgetsFor(sc.outputs(counts), sc.budgetLimit)[b]
    ensures Answered(sc, counts, budget, results[k][b]) && BuiltFrom(sc, counts, results[k][b], proposals[k][b])
  {
    assert ShapeSearched(sc, counts, results[k], proposals[k]);
    budget := BudgetsFor(sc.outputs(counts), sc.budgetLimit)[b];
    assert BudgetTest(sc, counts)(budget, results[k][b], proposals[k][b]);
  }

  /** And the cap is final: once it is reached, no later shape adds a candidate. */
  lemma LaterShapesAddNothing(sc: Scanner, proposals: seq<seq<Option<TradeupCandidate>>>, k: nat)
    requires k <= |proposals| && |Considered(proposals[..k], sc.maxCandidates)| >= sc.maxCandidates
    ensures Considered(proposals, sc.maxCandidates) == Considered(proposals[..k], sc.maxCandidates)
  {
    CapEndsTheScan(proposals, sc.maxCandidates, k);
  }

  // ----- and what becomes of what is considered

  ghost predicate Proposed(proposals: seq<seq<Option<TradeupCandidate>>>, c: TradeupCandidate) {
    exists k, b :: 0 <= k < |proposals| && 0 <= b < |proposals[k]| && proposals[k][b] == Option.Some(c)
  }

  /** A candidate's id is a digest of what it buys: budgets that select the same bundle propose the same candidate. */
  ghost predicate IdsIdentify(proposals: seq<seq<Option<TradeupCandidate>>>) {
    forall c, d | Proposed(proposals, c) && Proposed(proposals, d) && c.id == d.id :: c == d
  }

  lemma {:induction false} ConsideringIsProposed(seen: seq<TradeupCandidate>, budgets: seq<Option<TradeupCandidate>>,
                                                 c: TradeupCandidate)
    requires c in Considering(seen, budgets)
    ensures c in seen || Option.Some(c) in budgets
  {
    if budgets != [] {
      var n := |budgets| - 1;
      if c in Considering(seen, budgets[..n]) {
        ConsideringIsProposed(seen, budgets[..n], c);
      } else {
        assert budgets[n] == Option.Some(c);
      }
    }
  }

  lemma {:induction false} ConsideredIsProposed(proposals: seq<seq<Option<TradeupCandidate>>>, maxCandidates: int,
                                                c: TradeupCandidate)
    requires c in Considered(proposals, maxCandidates)
    ensures Proposed(proposals, c)
  {
    var n := |proposals| - 1;
    if c in Considered(proposals[..n], maxCandidates) {
      ConsideredIsProposed(proposals[..n], maxCandidates, c);
      var k, b :| 0 <= k < n && 0 <= b < |proposals[..n][k]| && proposals[..n][k][b] == Option.Some(c);
      assert proposals[k][b] == Option.Some(c);
    } else {
      ConsideringIsProposed(Considered(proposals[..n], maxCandidates), proposals[n], c);
      var b :| 0 <= b < |proposals[n]| && proposals[n][b] == Option.Some(c);
    }
  }

  lemma ProposalIsConsidered(proposals: seq<seq<Option<TradeupCandidate>>>, maxCandidates: int, k: nat, b: nat)
      returns (i: nat)
    requires k < |proposals| && b < |proposals[k]| && proposals[k][b].Some? && IdsIdentify(proposals)
    requires |Considered(proposals[..k], maxCandidates)| < maxCandidates
    ensures i < |Considered(proposals, maxCandidates)|
    ensures Considered(proposals, maxCandidates)[i] == proposals[k][b].value
  {
    var c := proposals[k][b].value;
    NothingPassedOver(proposals, maxCandidates, k, b);
    var d :| d in Considered(proposals, maxCandidates) && d.id == c.id;
    ConsideredIsProposed(proposals, maxCandidates, d);
    assert Proposed(proposals, c) && proposals[k][b] == Option.Some(c);
    i :| 0 <= i < |Considered(proposals, maxCandidates)| && Considered(proposals, maxCandidates)[i] == d;
  }

  /**
   A candidate the search proposes before the cap is reached ends up approved if and only if it passes both gates and
   no other approved candidate, and nobody from before the scan, has one of its listings.
   */
  lemma SearchDecides(sc: Scanner, proposals: seq<seq<Option<TradeupCandidate>>>, book: Book, gates: Gates, moment: int,
                      ttl: int, k: nat, b: nat)
    requires k < |proposals| && b < |proposals[k]| && proposals[k][b].Some? && IdsIdentify(proposals)
    requires |Considered(proposals[..k], sc.maxCandidates)| < sc.maxCandidates
    requires NoneHeldBy(book, Considered(proposals, sc.maxCandidates)) && ttl > 0
    ensures var c := proposals[k][b].value;
            var approved := Allocated(book, Considered(proposals, sc.maxCandidates), gates, moment, ttl).approved;
            c in approved <==> gates.discovery(c) && gates.finalRules(c) && !Blocked(book, approved, c, moment)
  {
    var i := ProposalIsConsidered(proposals, sc.maxCandidates, k, b);
    ConsideredOnce(proposals, sc.maxCandidates);
    ApprovedExactlyWhenUnblocked(book, Considered(proposals, sc.maxCandidates), gates, moment, ttl, i);
  }
}
