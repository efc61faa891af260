/** Entry-price targets: the exact inverse of the ROI floor (src/tradeup/valuation/entry_targets.py, first half). */
module EntryTargets {
  import opened Rounding
  import opened Wrappers

  /** Does spending `spend` clear the floor under the forward model? */
  predicate Clears(spend: int, headroom: int, onePlusTarget: real, overhead: real) {
    onePlusTarget * spend as real + Ceil(overhead * spend as real) as real <= headroom as real
  }

  /** What leaves the wallet beyond the headroom only grows with the spend. */
  lemma ClearsDownward(a: int, b: int, headroom: int, onePlusTarget: real, overhead: real)
    requires a <= b && onePlusTarget > 0.0 && overhead >= 0.0
    requires Clears(b, headroom, onePlusTarget, overhead)
    ensures Clears(a, headroom, onePlusTarget, overhead)
  {
    ProductMonotone(a as real, b as real, onePlusTarget);
    ProductMonotone(a as real, b as real, overhead);
    CeilMonotone(overhead * a as real, overhead * b as real);
  }

  /** Past `headroom / (1 + r)` the spend alone exceeds the headroom, before any overhead. */
  lemma SeedDoesNotClear(spend: int, headroom: int, onePlusTarget: real, overhead: real)
    requires spend >= 0 && onePlusTarget > 0.0 && overhead >= 0.0
    requires spend as real > headroom as real / onePlusTarget
    ensures !Clears(spend, headroom, onePlusTarget, overhead)
  {
    var bound := headroom as real / onePlusTarget;
    assert onePlusTarget * bound == headroom as real;
    StrictProduct(bound, spend as real, onePlusTarget);
    ProductMonotone(0.0, spend as real, overhead);
    CeilMonotone(0.0, overhead * spend as real);
  }

  lemma NothingClearsWithoutHeadroom(spend: int, headroom: int, onePlusTarget: real, overhead: real)
    requires spend >= 1 && headroom <= 0 && onePlusTarget > 0.0 && overhead >= 0.0
    ensures !Clears(spend, headroom, onePlusTarget, overhead)
  {
    StrictProduct(0.0, spend as real, onePlusTarget);
    ProductMonotone(0.0, spend as real, overhead);
    CeilMonotone(0.0, overhead * spend as real);
  }

  /** `cap` is the exact threshold of `Clears`. */
  ghost predicate IsThreshold(cap: int, headroom: int, onePlusTarget: real, overhead: real) {
    cap >= 0 && forall spend | spend >= 1 :: Clears(spend, headroom, onePlusTarget, overhead) <==> spend <= cap
  }

  lemma CapFromNeighbours(low: int, headroom: int, onePlusTarget: real, overhead: real)
    requires low >= 1 && onePlusTarget > 0.0 && overhead >= 0.0
    requires Clears(low, headroom, onePlusTarget, overhead) && !Clears(low + 1, headroom, onePlusTarget, overhead)
    ensures IsThreshold(low, headroom, onePlusTarget, overhead)
  {
    forall spend | spend >= 1 ensures Clears(spend, headroom, onePlusTarget, overhead) <==> spend <= low {
      if spend <= low {
        ClearsDownward(spend, low, headroom, onePlusTarget, overhead);
      } else if Clears(spend, headroom, onePlusTarget, overhead) {
        ClearsDownward(low + 1, spend, headroom, onePlusTarget, overhead);
      }
    }
  }

  lemma ZeroCap(headroom: int, onePlusTarget: real, overhead: real)
    requires onePlusTarget > 0.0 && overhead >= 0.0
    requires headroom <= 0 || !Clears(1, headroom, onePlusTarget, overhead)
    ensures IsThreshold(0, headroom, onePlusTarget, overhead)
  {
    forall spend | spend >= 1 ensures !Clears(spend, headroom, onePlusTarget, overhead) {
      if headroom <= 0 {
        NothingClearsWithoutHeadroom(spend, headroom, onePlusTarget, overhead);
      } else if Clears(spend, headroom, onePlusTarget, overhead) {
        ClearsDownward(1, spend, headroom, onePlusTarget, overhead);
      }
    }
  }

  // ----- the cap, in the terms of the caller

  /** The value pays for the spend, the return asked of it, the fixed overhead and the proportional one, rounded up. */
  ghost predicate MeetsFloor(value: int, target: real, fixedOverhead: Option<int>, overhead: real, spend: int) {
    (1.0 + target) * spend as real + Ceil(overhead * spend as real) as real
      <= (value - if fixedOverhead.Some? then fixedOverhead.value else 0) as real
  }

  /** `cap` is the exact threshold: a positive spend meets the floor if and only if it is within the cap. */
  ghost predicate IsSpendingCap(cap: int, value: int, target: real, fixedOverhead: Option<int>, overhead: real) {
    cap >= 0 && forall spend | spend >= 1 :: MeetsFloor(value, target, fixedOverhead, overhead, spend) <==> spend <= cap
  }

  lemma ThresholdIsCap(cap: int, value: int, target: real, fixedOverhead: Option<int>, overhead: real)
    requires IsThreshold(cap, Headroom(value, fixedOverhead), 1.0 + target, overhead)
    ensures IsSpendingCap(cap, value, target, fixedOverhead, overhead)
  {
    forall spend | spend >= 1 ensures MeetsFloor(value, target, fixedOverhead, overhead, spend) <==> spend <= cap {
      assert Clears(spend, Headroom(value, fixedOverhead), 1.0 + target, overhead)
        <==> MeetsFloor(value, target, fixedOverhead, overhead, spend);
    }
  }

  function Headroom(value: int, fixedOverhead: Option<int>): int {
    value - if fixedOverhead.Some? then fixedOverhead.value else 0
  }

  /** Amounts are minor units of one currency and balance type. */
  method MaxAcquisitionCost(value: int, target: real, fixedOverhead: Option<int>, overhead: real)
      returns (r: Result<int, string>)
    ensures r.Err? <==> target <= -1.0 || overhead < 0.0
    ensures r.Ok? ==> IsSpendingCap(r.value, value, target, fixedOverhead, overhead)
  {
    var onePlusTarget := 1.0 + target;
    if onePlusTarget <= 0.0 {
      return Err("target_roi must exceed -1");
    }
    if overhead < 0.0 {
      return Err("proportional_overhead cannot be negative");
    }
    var headroom := Headroom(value, fixedOverhead);
    if headroom <= 0 || !Clears(1, headroom, onePlusTarget, overhead) {
      ZeroCap(headroom, onePlusTarget, overhead);
      ThresholdIsCap(0, value, target, fixedOverhead, overhead);
      return Ok(0);
    }
    var low, high := 1, Floor(headroom as real / onePlusTarget) + 1;
    SeedDoesNotClear(if high >= 0 then high else 0, headroom, onePlusTarget, overhead);
    while high - low > 1
      invariant 1 <= low < high
      invariant Clears(low, headroom, onePlusTarget, overhead)
      invariant !Clears(high, headroom, onePlusTarget, overhead)
    {
      var mid := (low + high) / 2;
      if Clears(mid, headroom, onePlusTarget, overhead) {
        low := mid;
      } else {
        high := mid;
      }
    }
    CapFromNeighbours(low, headroom, onePlusTarget, overhead);
    ThresholdIsCap(low, value, target, fixedOverhead, overhead);
    return Ok(low);
  }

  /** A bundle's forward ROI on `spend`, net of every overhead, as the engine computes it. */
  function ForwardRoi(value: int, fixedOverhead: Option<int>, overhead: real, spend: int): real
    requires spend >= 1
  {
    (value - (if fixedOverhead.Some? then fixedOverhead.value else 0) - Ceil(overhead * spend as real) - spend) as real
      / spend as real
  }

  /** Meeting the floor is meeting the target ROI. */
  lemma FloorIsRoi(value: int, target: real, fixedOverhead: Option<int>, overhead: real, spend: int)
    requires spend >= 1
    ensures MeetsFloor(value, target, fixedOverhead, overhead, spend)
       <==> ForwardRoi(value, fixedOverhead, overhead, spend) >= target
  {
    var fixed := if fixedOverhead.Some? then fixedOverhead.value else 0;
    var n := (value - fixed - Ceil(overhead * spend as real) - spend) as real;
    var a := spend as real;
    AtLeastQuotient(n, a, target);
    assert (1.0 + target) * a == a + target * a;
  }

  lemma AtLeastQuotient(n: real, d: real, t: real)
    requires d > 0.0
    ensures n / d >= t <==> n >= t * d
  {
    assert n / d * d == n;
    if n / d >= t {
      assert n / d * d >= t * d;
    } else {
      assert n / d * d < t * d;
    }
  }

  /** Even per-input share, rounded down. */
  function PerUnitEntryTarget(totalCap: int, inputCount: int): (r: Result<int, string>) {
    if inputCount < 1 then Err("input_count must be at least 1")
    else if totalCap < 0 then Err("a spending cap cannot be negative")
    else Ok(totalCap / inputCount)
  }

  function Total(costs: seq<int>): int {
    if costs == [] then 0 else costs[0] + Total(costs[1..])
  }

  lemma {:induction false} TotalAtMost(costs: seq<int>, unit: int)
    requires forall i | 0 <= i < |costs| :: costs[i] <= unit
    ensures Total(costs) <= unit * |costs|
  {
    if costs != [] {
      TotalAtMost(costs[1..], unit);
    }
  }

  lemma UnitTimesCount(cap: int, n: int)
    requires n >= 1 && cap >= 0
    ensures cap / n * n <= cap
  {
  }

  /** Inputs each bought within the per-unit target keep the whole bundle at the ROI floor. */
  lemma UnitTargetKeepsTheFloor(value: int, target: real, fixedOverhead: Option<int>, overhead: real,
                                cap: int, costs: seq<int>)
    requires target > -1.0 && overhead >= 0.0
    requires IsSpendingCap(cap, value, target, fixedOverhead, overhead)
    requires PerUnitEntryTarget(cap, |costs|).Ok?
    requires forall i | 0 <= i < |costs| :: costs[i] <= PerUnitEntryTarget(cap, |costs|).value
    ensures Total(costs) <= cap
    ensures Total(costs) >= 1 ==> ForwardRoi(value, fixedOverhead, overhead, Total(costs)) >= target
  {
    TotalAtMost(costs, cap / |costs|);
    UnitTimesCount(cap, |costs|);
    if Total(costs) >= 1 {
      FloorIsRoi(value, target, fixedOverhead, overhead, Total(costs));
    }
  }

  // ----- judging an observed bundle

  datatype EntryAssessment = EntryAssessment(targetTotal: int, targetUnit: int, entryMet: bool, shortfall: int)

  method AssessEntry(value: int, observed: int, inputCount: int, target: real, fixedOverhead: Option<int>)
      returns (r: Result<EntryAssessment, string>)
    ensures r.Err? <==> observed < 1 || target <= -1.0 || inputCount < 1
    ensures r.Ok? ==>
      // the target is the greatest spend whose forward ROI still meets it
      && IsSpendingCap(r.value.targetTotal, value, target, fixedOverhead, 0.0)
      // met exactly when the observed bundle's own forward ROI meets the target
      && (r.value.entryMet <==> ForwardRoi(value, fixedOverhead, 0.0, observed) >= target)
      // the shortfall is the least price cut after which every remaining positive spend meets it
      && r.value.shortfall >= 0
      && (forall spend | 1 <= spend <= observed ::
            ForwardRoi(value, fixedOverhead, 0.0, spend) >= target <==> spend <= observed - r.value.shortfall)
      && r.value.targetUnit * inputCount <= r.value.targetTotal < (r.value.targetUnit + 1) * inputCount
  {
    if observed < 1 {
      return Err("observed acquisition cost must be positive");
    }
    var cap := MaxAcquisitionCost(value, target, fixedOverhead, 0.0);
    if cap.Err? {
      return Err(cap.error);
    }
    var shortfall := if observed - cap.value < 0 then 0 else observed - cap.value;
    var unit := PerUnitEntryTarget(cap.value, inputCount);
    if unit.Err? {
      return Err(unit.error);
    }
    forall spend | spend >= 1 ensures ForwardRoi(value, fixedOverhead, 0.0, spend) >= target <==> spend <= cap.value {
      FloorIsRoi(value, target, fixedOverhead, 0.0, spend);
    }
    ShareBounds(cap.value, inputCount);
    return Ok(EntryAssessment(cap.value, unit.value, observed <= cap.value, shortfall));
  }

  lemma ShareBounds(cap: int, n: int)
    requires n >= 1 && cap >= 0
    ensures cap / n * n <= cap < (cap / n + 1) * n
  {
  }
}
