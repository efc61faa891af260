/**
 The budgets a scan really solves: only the loosest few of the candidates
 (src/tradeup/pipeline/scan.py, `_budgets_for`, and `max_budgets_per_composition`).
 */
module KeptBudgets {
  import opened Boundaries
  import opened Bundle
  import opened FewBudgets
  import opened Wear

  /** Nothing without an output, else the loosest `limit` candidates. */
  ghost function BudgetsFor(ranges: seq<FloatRange>, limit: nat): seq<real> {
    if ranges == [] then [] else LoosestBudgets(SortedReals(Budgets(ranges, true)), limit)
  }

  /** `_budgets_for`. */
  method SelectBudgets(ranges: seq<FloatRange>, limit: nat) returns (budgets: seq<real>)
    ensures budgets == BudgetsFor(ranges, limit)
  {
    if ranges == [] {
      return [];
    }
    var candidates := CandidateFloatBudgets(ranges, true);
    budgets := LoosestBudgets(candidates, limit);
  }

  predicate IsNext(breakpoints: set<real>, z: real, next: real) {
    next in breakpoints && z < next && forall b | b in breakpoints :: z < b ==> next <= b
  }

  ghost function AtLeast(budgets: set<real>, x: real): set<real> {
    set b | b in budgets && b >= x
  }

  /** `limit` or more candidates lie at or beyond the next breakpoint, so none before it is kept. */
  ghost predicate CrowdedOut(ranges: seq<FloatRange>, limit: nat, z: real) {
    limit > 0
    && exists next :: IsNext(Breakpoints(ranges), z, next) && |AtLeast(Budgets(ranges, true), next)| >= limit
  }

  lemma {:induction false} AscendingSize(s: seq<real>)
    requires forall i, j | 0 <= i < j < |s| :: s[i] < s[j]
    ensures |Elements(s)| == |s|
  {
    if s != [] {
      var init, last := s[..|s| - 1], s[|s| - 1];
      AscendingSize(init);
      assert s == init + [last];
      assert Elements(s) == Elements(init) + {last};
      assert last !in Elements(init);
    }
  }

  /** Position `i` of the sorted candidates is kept exactly when fewer than `limit` follow it. */
  lemma KeptPositions(s: seq<real>, limit: nat, i: nat)
    requires i < |s| && forall i, j | 0 <= i < j < |s| :: s[i] < s[j]
    ensures s[i] in LoosestBudgets(s, limit) <==> limit == 0 || |s| - 1 - i < limit
  {
    var kept := LoosestBudgets(s, limit);
    assert 0 < limit < |s| && i >= |s| - limit ==> kept[i - (|s| - limit)] == s[i];
    if s[i] in kept {
      var k :| 0 <= k < |kept| && kept[k] == s[i];
      var m := if limit == 0 || |s| <= limit then k else |s| - limit + k;
      assert s[m] == s[i];
      assert m == i;
    }
  }

  /** The candidates at or above `x`, when `s[i]` is the last one below it. */
  lemma Following(s: seq<real>, budgets: set<real>, i: nat, x: real)
    requires i < |s| && forall i, j | 0 <= i < j < |s| :: s[i] < s[j]
    requires (forall b :: b in s <==> b in budgets) && s[i] < x && forall j | i < j < |s| :: s[j] >= x
    ensures |AtLeast(budgets, x)| == |s| - 1 - i
  {
    AscendingSize(s[i + 1..]);
    forall b ensures b in AtLeast(budgets, x) <==> b in Elements(s[i + 1..]) {
      if b in AtLeast(budgets, x) {
        var j :| 0 <= j < |s| && s[j] == b;
        assert j > i;
        assert s[i + 1..][j - i - 1] == b;
      }
    }
    assert AtLeast(budgets, x) == Elements(s[i + 1..]);
  }

  lemma {:induction false} LastBelow(s: seq<real>, x: real) returns (i: nat)
    requires s != [] && s[0] < x && forall i, j | 0 <= i < j < |s| :: s[i] < s[j]
    ensures i < |s| && s[i] < x && forall j | i < j < |s| :: s[j] >= x
  {
    i := |s| - 1;
    if s[i] >= x {
      i := LastBelow(s[..i], x);
    }
  }

  lemma ServesBelowNext(breakpoints: set<real>, z: real, next: real, budget: real)
    requires IsNext(breakpoints, z, next)
    ensures ServedBy(breakpoints, z, budget) <==> z <= budget < next
  {
  }

  lemma KeptAreCandidates(s: seq<real>, limit: nat, budget: real)
    requires budget in LoosestBudgets(s, limit)
    ensures budget in s
  {
  }

  lemma FewBeyond(s: seq<real>, budgets: set<real>, limit: nat, budget: real, next: real)
    requires (forall i, j | 0 <= i < j < |s| :: s[i] < s[j]) && forall b :: b in s <==> b in budgets
    requires budget in LoosestBudgets(s, limit) && budget in s && budget < next
    ensures limit == 0 || |AtLeast(budgets, next)| < limit
  {
    var k :| 0 <= k < |s| && s[k] == budget;
    var i := LastBelow(s, next);
    assert k <= i;
    KeptPositions(s, limit, k);
    Following(s, budgets, i, next);
  }

  lemma LastKept(s: seq<real>, budgets: set<real>, limit: nat, budget: real, next: real) returns (kept: real)
    requires (forall i, j | 0 <= i < j < |s| :: s[i] < s[j]) && forall b :: b in s <==> b in budgets
    requires budget in budgets && budget < next && (limit == 0 || |AtLeast(budgets, next)| < limit)
    ensures kept in LoosestBudgets(s, limit) && budget <= kept < next
  {
    var k :| 0 <= k < |s| && s[k] == budget;
    var i := LastBelow(s, next);
    assert k <= i;
    Following(s, budgets, i, next);
    KeptPositions(s, limit, i);
    kept := s[i];
  }

  /** The sorted candidates, each once. */
  ghost predicate Lists(s: seq<real>, budgets: set<real>) {
    (forall i, j | 0 <= i < j < |s| :: s[i] < s[j]) && forall b :: b in s <==> b in budgets
  }

  lemma KeptServerFitsBelow(s: seq<real>, budgets: set<real>, breakpoints: set<real>, limit: nat, z: real, next: real)
    requires Lists(s, budgets) && IsNext(breakpoints, z, next)
    requires Served(breakpoints, Elements(LoosestBudgets(s, limit)), z)
    ensures Served(breakpoints, budgets, z) && (limit == 0 || |AtLeast(budgets, next)| < limit)
  {
    var budget :| budget in Elements(LoosestBudgets(s, limit)) && ServedBy(breakpoints, z, budget);
    KeptAreCandidates(s, limit, budget);
    ServesBelowNext(breakpoints, z, next, budget);
    FewBeyond(s, budgets, limit, budget, next);
  }

  lemma ServerIsKept(s: seq<real>, budgets: set<real>, breakpoints: set<real>, limit: nat, z: real, next: real)
    requires Lists(s, budgets) && IsNext(breakpoints, z, next)
    requires Served(breakpoints, budgets, z) && (limit == 0 || |AtLeast(budgets, next)| < limit)
    ensures Served(breakpoints, Elements(LoosestBudgets(s, limit)), z)
  {
    var budget :| budget in budgets && ServedBy(breakpoints, z, budget);
    ServesBelowNext(breakpoints, z, next, budget);
    var kept := LastKept(s, budgets, limit, budget, next);
    ServesBelowNext(breakpoints, z, next, kept);
  }

  lemma KeptBelowNext(ranges: seq<FloatRange>, limit: nat, z: real, next: real)
    requires ranges != [] && IsNext(Breakpoints(ranges), z, next)
    ensures Served(Breakpoints(ranges), Elements(BudgetsFor(ranges, limit)), z)
       <==> Served(Breakpoints(ranges), Budgets(ranges, true), z)
            && (limit == 0 || |AtLeast(Budgets(ranges, true), next)| < limit)
  {
    var breakpoints, budgets := Breakpoints(ranges), Budgets(ranges, true);
    var s := SortedReals(budgets);
    assert Lists(s, budgets);
    if Served(breakpoints, Elements(LoosestBudgets(s, limit)), z) {
      KeptServerFitsBelow(s, budgets, breakpoints, limit, z, next);
    }
    if Served(breakpoints, budgets, z) && (limit == 0 || |AtLeast(budgets, next)| < limit) {
      ServerIsKept(s, budgets, breakpoints, limit, z, next);
    }
  }

  /** What the cap costs: a served average stays served unless its budgets are crowded out by looser ones. */
  lemma KeptServesExactly(ranges: seq<FloatRange>, limit: nat, z: real)
    requires 0.0 <= z <= 1.0
    ensures Served(Breakpoints(ranges), Elements(BudgetsFor(ranges, limit)), z)
       <==> ranges != [] && Served(Breakpoints(ranges), Budgets(ranges, true), z) && !CrowdedOut(ranges, limit, z)
  {
    var breakpoints := Breakpoints(ranges);
    if ranges != [] {
      if exists b | b in breakpoints :: b > z {
        var next := NextBreakpoint(breakpoints, z);
        KeptBelowNext(ranges, limit, z, next);
        assert IsNext(breakpoints, z, next);
        assert forall other :: IsNext(breakpoints, z, other) ==> other == next;
      } else {
        UnconstrainedSurvives(ranges, limit);
        assert ServedBy(breakpoints, z, 1.0);
      }
    }
  }

  /**
   For any contract: the budgets a scan solves match every bundle of average `z` if and only if some candidate
   serves the average and fewer than `limit` candidates lie at or beyond the next breakpoint.
   */
  lemma KeptBudgetsSufficeExactly(ranges: seq<FloatRange>, counts: Composition, limit: nat, z: real)
    requires 0.0 <= z <= 1.0
    ensures WellServed(ranges, counts, Elements(BudgetsFor(ranges, limit)), z)
       <==> ranges != [] && Served(Breakpoints(ranges), Budgets(ranges, true), z) && !CrowdedOut(ranges, limit, z)
    ensures WellServedByListings(ranges, counts, Elements(BudgetsFor(ranges, limit)), z)
       <==> WellServed(ranges, counts, Elements(BudgetsFor(ranges, limit)), z)
  {
    KeptServesExactly(ranges, limit, z);
    FewBudgetsSufficeExactly(ranges, counts, Elements(BudgetsFor(ranges, limit)), z);
  }

  // ----- the cap does lose bundles

  const HALF: FloatRange := Range(0.0, 0.5)

  lemma HalfRangeCrossings()
    ensures CrossingsOf(HALF, INTERIOR_BOUNDARIES) == {0.14, 0.30, 0.76, 0.90}
  {
    forall b ensures b in CrossingsOf(HALF, INTERIOR_BOUNDARIES) <==> b in {0.14, 0.30, 0.76, 0.90} {
      assert Crossing(HALF, 0.07) == 0.14 && Crossing(HALF, 0.15) == 0.30;
      assert Crossing(HALF, 0.38) == 0.76 && Crossing(HALF, 0.45) == 0.90;
    }
  }

  lemma TwoRanges(a: FloatRange, b: FloatRange)
    ensures Breakpoints([a, b]) == CrossingsOf(a, INTERIOR_BOUNDARIES) + CrossingsOf(b, INTERIOR_BOUNDARIES)
  {
    OneOutput(a);
    OneMoreRange([a], b);
    assert [a] + [b] == [a, b];
  }

  lemma TwoOutputs()
    ensures Breakpoints([FULL_RANGE, HALF]) == {0.07, 0.15, 0.38, 0.45} + {0.14, 0.30, 0.76, 0.90}
  {
    TwoRanges(FULL_RANGE, HALF);
    FullRangeCrossings();
    HalfRangeCrossings();
  }

  lemma ManyLooserBudgets(breakpoints: set<real>, budgets: set<real>)
    requires breakpoints == {0.07, 0.15, 0.38, 0.45} + {0.14, 0.30, 0.76, 0.90}
    requires budgets == JustBelow(breakpoints) + {1.0}
    ensures |AtLeast(budgets, 0.07)| >= 6
  {
    var some := [0.15 - EPSILON, 0.30 - EPSILON, 0.38 - EPSILON, 0.45 - EPSILON, 0.76 - EPSILON, 1.0];
    var kept := AtLeast(budgets, 0.07);
    assert forall b | b in [0.15, 0.30, 0.38, 0.45, 0.76] :: b in breakpoints && b - EPSILON > 0.0;
    assert forall i | 0 <= i < |some| :: some[i] in kept;
    AscendingSize(some);
    assert kept == Elements(some) + (kept - Elements(some));
  }

  /**
   With two outputs and the default cap of six budgets, an average of 0.01 is missed: it lies outside every gap and
   a candidate budget serves it, but enough looser candidates crowd that one out.  For any contract there is then a
   market, listing nothing twice, on which every bundle the scan solves is worse.
   */
  lemma DefaultCapMisses(ranges: seq<FloatRange>, counts: Composition, z: real)
    requires ranges == [FULL_RANGE, HALF] && z == 0.01
    ensures OutsideGaps(Breakpoints(ranges), z) && Served(Breakpoints(ranges), Budgets(ranges, true), z)
    ensures !WellServedByListings(ranges, counts, Elements(BudgetsFor(ranges, 6)), z)
  {
    TwoOutputs();
    NextIs(Breakpoints(ranges), z);
    var budget := OutsideGapsIsServed(ranges, z);
    ManyLooserBudgets(Breakpoints(ranges), Budgets(ranges, true));
    assert CrowdedOut(ranges, 6, z);
    KeptBudgetsSufficeExactly(ranges, counts, 6, z);
  }

  lemma NextIs(breakpoints: set<real>, z: real)
    requires breakpoints == {0.07, 0.15, 0.38, 0.45} + {0.14, 0.30, 0.76, 0.90} && z == 0.01
    ensures IsNext(breakpoints, z, 0.07) && OutsideGaps(breakpoints, z)
  {
  }
}
