/** Normalised-float breakpoints and the float budgets worth solving for (src/tradeup/discovery/boundaries.py). */
module Boundaries {
  import opened Sorting
  import opened Wear

  const EPSILON: real := 1.0 / 1000000000.0

  /** `_INTERIOR_BOUNDARIES`, in table order. */
  const BOUNDARY_TABLE: seq<real> := [0.07, 0.15, 0.38, 0.45]

  predicate RealLe(a: real, b: real) {
    a <= b
  }

  /** `sorted(s)` of a set of fractions. */
  function SortedReals(s: set<real>): (r: seq<real>)
    ensures forall i, j | 0 <= i < j < |r| :: r[i] < r[j]
    ensures forall x :: x in r <==> x in s
  {
    assert TotalOrder(RealLe);
    SortedSet(RealLe, s)
  }

  ghost function Elements(s: seq<real>): set<real> {
    set x | x in s
  }

  /** The crossings of one output range that lie inside it. */
  ghost function CrossingsOf(r: FloatRange, boundaries: set<real>): set<real> {
    set w | w in boundaries && r.minimum < w <= r.maximum :: Crossing(r, w)
  }

  /** Where any output crosses a wear boundary. */
  ghost function Breakpoints(ranges: seq<FloatRange>): set<real> {
    set r, b | r in ranges && b in CrossingsOf(r, INTERIOR_BOUNDARIES) :: b
  }

  lemma BreakpointsInUnit(ranges: seq<FloatRange>)
    ensures forall b | b in Breakpoints(ranges) :: 0.0 < b <= 1.0
  {
    forall b | b in Breakpoints(ranges) ensures 0.0 < b <= 1.0 {
      var r :| r in ranges && b in CrossingsOf(r, INTERIOR_BOUNDARIES);
      var w :| w in INTERIOR_BOUNDARIES && r.minimum < w <= r.maximum && b == Crossing(r, w);
      CrossingRange(r, w);
    }
  }

  method WearBreakpoints(ranges: seq<FloatRange>) returns (sorted: seq<real>)
    ensures sorted == SortedReals(Breakpoints(ranges))
  {
    var breakpoints: set<real> := {};
    for i := 0 to |ranges|
      invariant breakpoints == Breakpoints(ranges[..i])
    {
      breakpoints := AddCrossings(breakpoints, ranges[i]);
      PrefixStep(ranges, i);
      OneMoreRange(ranges[..i], ranges[i]);
    }
    WholePrefix(ranges);
    BreakpointsInUnit(ranges);
    var inUnit := set b | b in breakpoints && 0.0 < b <= 1.0;
    assert inUnit == breakpoints;
    sorted := SortedReals(inUnit);
  }

  lemma OneMoreRange(ranges: seq<FloatRange>, r: FloatRange)
    ensures Breakpoints(ranges + [r]) == Breakpoints(ranges) + CrossingsOf(r, INTERIOR_BOUNDARIES)
  {
  }

  lemma OneOutput(r: FloatRange)
    ensures Breakpoints([r]) == CrossingsOf(r, INTERIOR_BOUNDARIES)
  {
    OneMoreRange([], r);
    assert [] + [r] == [r];
    assert Breakpoints([]) == {};
  }

  /** One output range's pass over the boundary table. */
  method AddCrossings(before: set<real>, r: FloatRange) returns (breakpoints: set<real>)
    ensures breakpoints == before + CrossingsOf(r, INTERIOR_BOUNDARIES)
  {
    breakpoints := before;
    for j := 0 to |BOUNDARY_TABLE|
      invariant breakpoints == before + CrossingsOf(r, Elements(BOUNDARY_TABLE[..j]))
    {
      var value := BOUNDARY_TABLE[j];
      PrefixStep(BOUNDARY_TABLE, j);
      assert Elements(BOUNDARY_TABLE[..j + 1]) == Elements(BOUNDARY_TABLE[..j]) + {value};
      if r.minimum < value <= r.maximum {
        breakpoints := breakpoints + {Crossing(r, value)};
      }
    }
    WholePrefix(BOUNDARY_TABLE);
    TableHoldsTheBoundaries();
  }

  lemma TableHoldsTheBoundaries()
    ensures Elements(BOUNDARY_TABLE) == INTERIOR_BOUNDARIES
  {
    assert BOUNDARY_TABLE[0] == 0.07 && BOUNDARY_TABLE[1] == 0.15;
    assert BOUNDARY_TABLE[2] == 0.38 && BOUNDARY_TABLE[3] == 0.45;
  }

  /** Just below each breakpoint, where that is positive. */
  ghost function JustBelow(breakpoints: set<real>): set<real> {
    set b | b in breakpoints && b - EPSILON > 0.0 :: b - EPSILON
  }

  ghost function Budgets(ranges: seq<FloatRange>, includeUnconstrained: bool): set<real> {
    JustBelow(Breakpoints(ranges)) + if includeUnconstrained then {1.0} else {}
  }

  /** Positive, and one part in a thousand million below a breakpoint. */
  ghost predicate IsJustBelow(x: real, breakpoints: set<real>) {
    x > 0.0 && x + 0.000000001 in breakpoints
  }

  lemma BudgetsAreJustBelow(ranges: seq<FloatRange>, includeUnconstrained: bool)
    ensures forall x :: x in Budgets(ranges, includeUnconstrained)
                   <==> (includeUnconstrained && x == 1.0) || IsJustBelow(x, Breakpoints(ranges))
  {
    forall x ensures x in JustBelow(Breakpoints(ranges)) <==> IsJustBelow(x, Breakpoints(ranges)) {
      assert x + 0.000000001 - EPSILON == x;
    }
  }

  method CandidateFloatBudgets(ranges: seq<FloatRange>, includeUnconstrained: bool) returns (sorted: seq<real>)
    ensures sorted == SortedReals(Budgets(ranges, includeUnconstrained))
    ensures forall x :: x in sorted <==> (includeUnconstrained && x == 1.0) || IsJustBelow(x, Breakpoints(ranges))
  {
    var breakpoints := WearBreakpoints(ranges);
    var budgets := JustBelowAll(breakpoints);
    if includeUnconstrained {
      budgets := budgets + {1.0};
    }
    assert Elements(breakpoints) == Breakpoints(ranges);
    assert budgets == Budgets(ranges, includeUnconstrained);
    sorted := SortedReals(budgets);
    BudgetsAreJustBelow(ranges, includeUnconstrained);
  }

  method JustBelowAll(breakpoints: seq<real>) returns (budgets: set<real>)
    ensures budgets == JustBelow(Elements(breakpoints))
  {
    budgets := {};
    for i := 0 to |breakpoints|
      invariant budgets == JustBelow(Elements(breakpoints[..i]))
    {
      PrefixStep(breakpoints, i);
      OneMoreBudget(breakpoints[..i], breakpoints[i]);
      var justBelow := breakpoints[i] - EPSILON;
      if justBelow > 0.0 {
        budgets := budgets + {justBelow};
      }
    }
    WholePrefix(breakpoints);
  }

  lemma OneMoreBudget(seen: seq<real>, b: real)
    ensures JustBelow(Elements(seen + [b]))
         == JustBelow(Elements(seen)) + if b - EPSILON > 0.0 then {b - EPSILON} else {}
  {
    assert Elements(seen + [b]) == Elements(seen) + {b};
  }

  /** `_budgets_for` in src/tradeup/pipeline/scan.py: the loosest `limit` budgets, `budgets[-limit:]`. */
  function LoosestBudgets(budgets: seq<real>, limit: nat): seq<real> {
    if limit == 0 || |budgets| <= limit then budgets else budgets[|budgets| - limit..]
  }

  /** However tight the limit, the unconstrained budget survives. */
  lemma UnconstrainedSurvives(ranges: seq<FloatRange>, limit: nat)
    ensures 1.0 in LoosestBudgets(SortedReals(Budgets(ranges, true)), limit)
  {
    var sorted := SortedReals(Budgets(ranges, true));
    BreakpointsInUnit(ranges);
    LastIsGreatest(sorted, 1.0);
    assert sorted[|sorted| - 1] in Budgets(ranges, true);
  }

  lemma LastIsGreatest(s: seq<real>, x: real)
    requires x in s && forall i, j | 0 <= i < j < |s| :: s[i] < s[j]
    ensures x <= s[|s| - 1]
  {
    var i :| 0 <= i < |s| && s[i] == x;
    if i < |s| - 1 {
      assert s[i] < s[|s| - 1];
    }
  }

  // ----- which bundles a list of budgets serves

  /** Some budget admits the average `z` without letting any output cross a boundary on the way up to it. */
  predicate Served(breakpoints: set<real>, budgets: set<real>, z: real) {
    exists budget | budget in budgets :: ServedBy(breakpoints, z, budget)
  }

  predicate ServedBy(breakpoints: set<real>, z: real, budget: real) {
    z <= budget && forall b | b in breakpoints :: !(z < b <= budget)
  }

  /** Not less than `EPSILON`, one part in a thousand million, below any breakpoint. */
  predicate OutsideGaps(breakpoints: set<real>, z: real) {
    forall b | b in breakpoints :: !(b - 0.000000001 < z < b)
  }

  lemma NextBreakpoint(breakpoints: set<real>, z: real) returns (next: real)
    requires exists b | b in breakpoints :: b > z
    ensures next in breakpoints && next > z && forall b | b in breakpoints :: b > z ==> next <= b
  {
    var above := set b | b in breakpoints && b > z;
    var b :| b in breakpoints && b > z;
    assert b in above && TotalOrder(RealLe);
    next := Smallest(RealLe, above);
    forall c | c in breakpoints ensures c > z ==> next <= c {
      assert c > z ==> c in above && RealLe(next, c);
    }
  }

  /**
   Outside the gaps some candidate budget serves the average, except an average of 0 below a breakpoint of EPSILON.
   */
  lemma OutsideGapsIsServed(ranges: seq<FloatRange>, z: real) returns (budget: real)
    requires 0.0 <= z <= 1.0 && OutsideGaps(Breakpoints(ranges), z)
    requires z > 0.0 || 0.000000001 !in Breakpoints(ranges)
    ensures budget in Budgets(ranges, true) && ServedBy(Breakpoints(ranges), z, budget)
    ensures forall b | b in Breakpoints(ranges) :: b > z ==> budget <= b - EPSILON
  {
    var breakpoints := Breakpoints(ranges);
    if exists b | b in breakpoints :: b > z {
      var next := NextBreakpoint(breakpoints, z);
      budget := next - EPSILON;
    } else {
      budget := 1.0;
    }
  }

  // ----- wear between breakpoints

  /** With no breakpoint of the range in `(z, z']`, an output gets no more worn from `z` to `z'`. */
  lemma NoCrossingNoWear(ranges: seq<FloatRange>, r: FloatRange, z: real, z': real)
    requires r in ranges && 0.0 <= z <= 1.0 && 0.0 <= z' <= 1.0
    requires forall b | b in Breakpoints(ranges) :: !(z < b <= z')
    ensures NoMoreWorn(ClassifyWear(Project(z', r)), ClassifyWear(Project(z, r)))
  {
    forall w | w in INTERIOR_BOUNDARIES ensures w <= Project(z', r) ==> w <= Project(z, r) {
      ProjectInRange(z, r);
      ProjectInRange(z', r);
      CrossingIsBoundary(r, w, z);
      CrossingIsBoundary(r, w, z');
      if r.minimum < w <= r.maximum {
        assert Crossing(r, w) in CrossingsOf(r, INTERIOR_BOUNDARIES);
        assert Crossing(r, w) in Breakpoints(ranges);
      }
    }
    WearIsBoundariesReached(Project(z', r), Project(z, r));
  }

  /** Passing a breakpoint leaves some output worse off. */
  lemma CrossingWears(ranges: seq<FloatRange>, b: real, z: real, z': real) returns (r: FloatRange)
    requires b in Breakpoints(ranges) && z < b <= z'
    ensures r in ranges && !NoMoreWorn(ClassifyWear(Project(z', r)), ClassifyWear(Project(z, r)))
  {
    r :| r in ranges && b in CrossingsOf(r, INTERIOR_BOUNDARIES);
    var w :| w in INTERIOR_BOUNDARIES && r.minimum < w <= r.maximum && b == Crossing(r, w);
    CrossingIsBoundary(r, w, z);
    CrossingIsBoundary(r, w, z');
    WearIsBoundariesReached(Project(z', r), Project(z, r));
  }

  /** Half a quantum of output float is less than EPSILON of normalised float on any range wider than 0.0005. */
  predicate WideEnough(r: FloatRange) {
    r.maximum - r.minimum > 0.0005
  }

  /** The EPSILON nudge outlives rendering: the rendered output at `z'` is no more worn than the exact one at `z`. */
  lemma NudgeSurvivesRendering(ranges: seq<FloatRange>, r: FloatRange, z: real, z': real)
    requires r in ranges && WideEnough(r) && 0.0 <= z <= 1.0 && 0.0 <= z' <= 1.0
    requires forall b | b in Breakpoints(ranges) :: b > z ==> z' <= b - EPSILON
    ensures NoMoreWorn(RenderedWear(z', r), ClassifyWear(Project(z, r)))
  {
    forall w | w in INTERIOR_BOUNDARIES ensures w <= Clamp(ToDecimal(Project(z', r)), r) ==> w <= Project(z, r) {
      ProjectInRange(z, r);
      RenderedReaches(z', r, w);
      CrossingIsBoundary(r, w, z);
      if r.minimum < w <= r.maximum && Crossing(r, w) > z {
        assert Crossing(r, w) in CrossingsOf(r, INTERIOR_BOUNDARIES);
        assert Crossing(r, w) in Breakpoints(ranges);
        NudgeIsEnough(r, w, z');
      }
    }
    WearIsBoundariesReached(Clamp(ToDecimal(Project(z', r)), r), Project(z, r));
  }

  lemma NudgeIsEnough(r: FloatRange, w: real, z: real)
    requires WideEnough(r) && z <= Crossing(r, w) - EPSILON
    ensures Project(z, r) < w - HALF_QUANTUM
  {
    var d := r.maximum - r.minimum;
    ProjectMonotone(z, Crossing(r, w) - EPSILON, r);
    assert Crossing(r, w) * d == w - r.minimum;
    assert (Crossing(r, w) - EPSILON) * d == Crossing(r, w) * d - EPSILON * d;
    assert EPSILON * d > EPSILON * 0.0005;
  }
}
