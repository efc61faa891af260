/**
 Partial-fill risk: the failure tree of buying a bundle one listing at a time
 (src/tradeup/valuation/partial_fill.py).  A listing's survival probability is any number in [0, 1]; amounts
 are minor units of the base currency.
 */
module PartialFill {
  import opened Rounding
  import opened Sorting
  import opened Wrappers

  type Probability = p: real | 0.0 <= p <= 1.0 witness 0.0

  datatype Leg = Leg(identity: int, survival: Probability, cost: int)

  datatype FailurePoint = FailurePoint(
    position: nat, identity: int, committed: int, salvage: int, loss: int, probability: real)

  datatype Assessment = Assessment(
    completion: real, expectedLoss: int, maxExposure: int, sequence: seq<int>, points: seq<FailurePoint>)

  /** Most fragile first; identities break ties. */
  predicate RiskLe(a: Leg, b: Leg) {
    a.survival < b.survival || (a.survival == b.survival && a.identity <= b.identity)
  }

  lemma RiskLeIsTotal()
    ensures TotalPreorder(RiskLe)
  {
  }

  /** The probability that every purchase in `s` goes through. */
  function Reach(s: seq<Leg>): real {
    if s == [] then 1.0 else Times(Reach(s[..|s| - 1]), s[|s| - 1].survival)
  }

  function Spent(s: seq<Leg>): int {
    if s == [] then 0 else Spent(s[..|s| - 1]) + s[|s| - 1].cost
  }

  /** The probability of dying at exactly step `i`. */
  function FailsAt(s: seq<Leg>, i: nat): real
    requires i < |s|
  {
    Times(Reach(s[..i]), 1.0 - s[i].survival)
  }

  /** What is lost on liquidating `committed` of orphaned inputs. */
  function Loss(committed: int, salvageRate: Probability): int {
    committed - ScaledDown(committed, salvageRate)
  }

  function LossAt(s: seq<Leg>, i: nat, salvageRate: Probability): int
    requires i < |s|
  {
    Loss(Spent(s[..i]), salvageRate)
  }

  /** The charge for the first `n` ways to fail, each rounded up. */
  function ExpectedLoss(s: seq<Leg>, n: nat, salvageRate: Probability): int
    requires n <= |s|
  {
    if n == 0 then 0
    else ExpectedLoss(s, n - 1, salvageRate) + ScaledUp(LossAt(s, n - 1, salvageRate), FailsAt(s, n - 1))
  }

  /** The largest loss among the first `n` ways to fail, or zero. */
  function WorstLoss(s: seq<Leg>, n: nat, salvageRate: Probability): int
    requires n <= |s|
  {
    if n == 0 then 0
    else if LossAt(s, n - 1, salvageRate) > WorstLoss(s, n - 1, salvageRate) then LossAt(s, n - 1, salvageRate)
    else WorstLoss(s, n - 1, salvageRate)
  }

  /** Six decimal places, half-even. */
  function Quantised(p: real): real {
    RoundHalfEven(p * 1000000.0) as real / 1000000.0
  }

  /** The nearest multiple of one millionth; halfway between two, the even one. */
  lemma QuantisedIsNearest(p: real) returns (n: int)
    ensures Quantised(p) == n as real / 1000000.0
    ensures n as real - 0.5 <= p * 1000000.0 <= n as real + 0.5
    ensures p * 1000000.0 == n as real - 0.5 || p * 1000000.0 == n as real + 0.5 ==> n % 2 == 0
  {
    n := RoundHalfEven(p * 1000000.0);
  }

  function PointAt(s: seq<Leg>, i: nat, salvageRate: Probability): FailurePoint
    requires i < |s|
  {
    var committed := Spent(s[..i]);
    FailurePoint(i, s[i].identity, committed, ScaledDown(committed, salvageRate), Loss(committed, salvageRate),
                 Quantised(FailsAt(s, i)))
  }

  function Purchases(inputs: seq<Leg>): (s: seq<Leg>)
    ensures SortedBy(RiskLe, s) && multiset(s) == multiset(inputs)
  {
    RiskLeIsTotal();
    Sort(RiskLe, inputs)
  }

  method Assess(inputs: seq<Leg>, salvageRate: Probability) returns (r: Result<Assessment, string>)
    ensures r.Err? <==> inputs == []
    ensures r.Ok? ==>
      var s := Purchases(inputs);
      && r.value.completion == Quantised(Reach(s))
      && r.value.expectedLoss == ExpectedLoss(s, |s|, salvageRate)
      && r.value.maxExposure == WorstLoss(s, |s|, salvageRate)
      && |r.value.sequence| == |r.value.points| == |s|
      && (forall i | 0 <= i < |s| :: r.value.sequence[i] == s[i].identity)
      && (forall i | 0 <= i < |s| :: r.value.points[i] == PointAt(s, i, salvageRate))
  {
    if inputs == [] {
      return Err("cannot assess an empty bundle");
    }
    var ordered := Purchases(inputs);
    var reached, expectedLoss, maxExposure, points := PriceFailureTree(ordered, salvageRate);
    return Ok(Assessment(Quantised(reached), expectedLoss, maxExposure,
                         seq(|ordered|, i requires 0 <= i < |ordered| => ordered[i].identity), points));
  }

  /** The loop of `assess` over the ordered purchases. */
  method PriceFailureTree(ordered: seq<Leg>, salvageRate: Probability)
      returns (reached: real, expectedLoss: int, maxExposure: int, points: seq<FailurePoint>)
    ensures reached == Reach(ordered)
    ensures expectedLoss == ExpectedLoss(ordered, |ordered|, salvageRate)
    ensures maxExposure == WorstLoss(ordered, |ordered|, salvageRate)
    ensures |points| == |ordered|
    ensures forall i | 0 <= i < |ordered| :: points[i] == PointAt(ordered, i, salvageRate)
  {
    points, reached, expectedLoss, maxExposure := [], 1.0, 0, 0;
    var committed := 0;
    for position := 0 to |ordered|
      invariant reached == Reach(ordered[..position]) && committed == Spent(ordered[..position])
      invariant expectedLoss == ExpectedLoss(ordered, position, salvageRate)
      invariant maxExposure == WorstLoss(ordered, position, salvageRate)
      invariant |points| == position
      invariant forall i | 0 <= i < position :: points[i] == PointAt(ordered, i, salvageRate)
    {
      var item := ordered[position];
      var failsHere := Times(reached, 1.0 - item.survival);
      var salvage := ScaledDown(committed, salvageRate);
      var loss := committed - salvage;
      assert failsHere == FailsAt(ordered, position) && loss == LossAt(ordered, position, salvageRate);
      points := points + [FailurePoint(position, item.identity, committed, salvage, loss, Quantised(failsHere))];
      expectedLoss := expectedLoss + ScaledUp(loss, failsHere);
      maxExposure := if loss > maxExposure then loss else maxExposure;
      assert ordered[..position + 1][..position] == ordered[..position];
      committed := committed + item.cost;
      reached := Times(reached, item.survival);
    }
    WholePrefix(ordered);
  }

  // ----- conservation

  lemma {:induction false} ReachIsProbability(s: seq<Leg>)
    ensures 0.0 <= Reach(s) <= 1.0
  {
    if s != [] {
      ReachIsProbability(s[..|s| - 1]);
      ScaleByProbability(Reach(s[..|s| - 1]), s[|s| - 1].survival);
    }
  }

  lemma ScaleByProbability(x: real, p: Probability)
    requires x >= 0.0
    ensures 0.0 <= Times(x, p) <= x
  {
  }

  ghost function FailureMass(s: seq<Leg>, n: nat): real
    requires n <= |s|
  {
    if n == 0 then 0.0 else FailureMass(s, n - 1) + FailsAt(s, n - 1)
  }

  lemma ReachStep(s: seq<Leg>, n: nat)
    requires n < |s|
    ensures Reach(s[..n + 1]) == Reach(s[..n]) * s[n].survival == Reach(s[..n]) - FailsAt(s, n)
    ensures Spent(s[..n + 1]) == Spent(s[..n]) + s[n].cost
  {
    assert s[..n + 1][..n] == s[..n];
  }

  lemma {:induction false} MassSoFar(s: seq<Leg>, n: nat)
    requires n <= |s|
    ensures FailureMass(s, n) + Reach(s[..n]) == 1.0
  {
    if n > 0 {
      MassSoFar(s, n - 1);
      ReachStep(s, n - 1);
    }
  }

  /** The failure tree is complete: every way to fail, and completing, add up to one. */
  lemma TreeSumsToOne(s: seq<Leg>)
    ensures FailureMass(s, |s|) + Reach(s) == 1.0
  {
    MassSoFar(s, |s|);
    WholePrefix(s);
  }

  // ----- losses

  /** More committed, no less lost, and never more lost than committed. */
  lemma LossMonotone(a: int, b: int, salvageRate: Probability)
    requires a <= b
    ensures Loss(a, salvageRate) <= Loss(b, salvageRate)
  {
    ScaleByProbability((b - a) as real, salvageRate);
    assert b as real * salvageRate == a as real * salvageRate + (b - a) as real * salvageRate;
    FloorGreatest(b as real * salvageRate - (b - a) as real, ScaledDown(b, salvageRate) - (b - a));
    FloorGreatest(a as real * salvageRate, ScaledDown(b, salvageRate) - (b - a));
  }

  /** Rounding the salvage down rounds the loss up: it is the least whole amount covering the unrecovered share. */
  lemma LossRoundsUp(committed: int, salvageRate: Probability)
    ensures Loss(committed, salvageRate) == ScaledUp(committed, 1.0 - salvageRate)
  {
    var salvage := committed as real * salvageRate;
    assert committed as real * (1.0 - salvageRate) == committed as real - salvage;
    CeilLeast(committed as real - salvage, Loss(committed, salvageRate));
    CeilLeast(committed as real - salvage, Loss(committed, salvageRate) - 1);
  }

  lemma NothingCommittedNothingLost(salvageRate: Probability)
    ensures Loss(0, salvageRate) == 0
  {
    assert 0 as real * salvageRate == 0.0;
  }

  ghost predicate NonNegativeCosts(s: seq<Leg>) {
    forall i | 0 <= i < |s| :: s[i].cost >= 0
  }

  lemma {:induction false} SpentGrows(s: seq<Leg>, i: nat, j: nat)
    requires i <= j <= |s| && NonNegativeCosts(s)
    ensures Spent(s[..i]) <= Spent(s[..j])
  {
    if i < j {
      SpentGrows(s, i, j - 1);
      ReachStep(s, j - 1);
    }
  }

  /** Dying later never costs less. */
  lemma LossesGrow(s: seq<Leg>, i: nat, j: nat, salvageRate: Probability)
    requires i <= j < |s| && NonNegativeCosts(s)
    ensures 0 <= LossAt(s, i, salvageRate) <= LossAt(s, j, salvageRate)
  {
    SpentGrows(s, i, j);
    SpentGrows(s, 0, i);
    assert s[..0] == [];
    LossMonotone(Spent(s[..i]), Spent(s[..j]), salvageRate);
    LossMonotone(0, Spent(s[..i]), salvageRate);
    NothingCommittedNothingLost(salvageRate);
  }

  lemma {:induction false} WorstLossIsLatest(s: seq<Leg>, n: nat, salvageRate: Probability)
    requires 0 < n <= |s| && NonNegativeCosts(s)
    ensures WorstLoss(s, n, salvageRate) == LossAt(s, n - 1, salvageRate)
  {
    LossesGrow(s, n - 1, n - 1, salvageRate);
    if n > 1 {
      WorstLossIsLatest(s, n - 1, salvageRate);
      LossesGrow(s, n - 2, n - 1, salvageRate);
    }
  }

  /** The largest exposure is what the very last purchase can lose. */
  lemma MaxExposureIsLastLoss(s: seq<Leg>, salvageRate: Probability)
    requires s != [] && NonNegativeCosts(s)
    ensures WorstLoss(s, |s|, salvageRate) == LossAt(s, |s| - 1, salvageRate)
  {
    WorstLossIsLatest(s, |s|, salvageRate);
  }

  /** The unrounded expectation. */
  ghost function ExactLoss(s: seq<Leg>, n: nat, salvageRate: Probability): real
    requires n <= |s|
  {
    if n == 0 then 0.0
    else ExactLoss(s, n - 1, salvageRate) + Times(LossAt(s, n - 1, salvageRate) as real, FailsAt(s, n - 1))
  }

  lemma FailsAtIsProbability(s: seq<Leg>, i: nat)
    requires i < |s|
    ensures 0.0 <= FailsAt(s, i) <= 1.0
  {
    ReachIsProbability(s[..i]);
    ScaleByProbability(Reach(s[..i]), 1.0 - s[i].survival);
  }

  lemma {:induction false} ExactLossBound(s: seq<Leg>, n: nat, salvageRate: Probability)
    requires 0 < n <= |s| && NonNegativeCosts(s)
    ensures ExactLoss(s, n, salvageRate) <= Times(LossAt(s, n - 1, salvageRate) as real, FailureMass(s, n))
  {
    if n > 1 {
      ExactLossBound(s, n - 1, salvageRate);
      LossesGrow(s, n - 2, n - 1, salvageRate);
      MassSoFar(s, n - 1);
      ReachIsProbability(s[..n - 1]);
      WeighTogether(LossAt(s, n - 2, salvageRate) as real, LossAt(s, n - 1, salvageRate) as real,
                    FailureMass(s, n - 1), FailsAt(s, n - 1));
    } else {
      assert FailureMass(s, 0) == 0.0 && ExactLoss(s, 0, salvageRate) == 0.0;
    }
  }

  lemma WeighTogether(x: real, y: real, p: real, q: real)
    requires x <= y && p >= 0.0
    ensures Times(x, p) + Times(y, q) <= Times(y, p + q)
  {
    ProductMonotone(x, y, p);
  }

  /** Rounding each term up never understates the expectation, and overstates it by less than one unit a step. */
  lemma {:induction false} RoundingCharge(s: seq<Leg>, n: nat, salvageRate: Probability)
    requires 0 < n <= |s|
    ensures ExactLoss(s, n, salvageRate) <= ExpectedLoss(s, n, salvageRate) as real
    ensures ExpectedLoss(s, n, salvageRate) as real <= ExactLoss(s, n, salvageRate) + (n - 1) as real
    ensures n > 1 ==> ExpectedLoss(s, n, salvageRate) as real < ExactLoss(s, n, salvageRate) + (n - 1) as real
  {
    if n == 1 {
      assert s[..0] == [];
      NothingCommittedNothingLost(salvageRate);
      assert 0 as real * FailsAt(s, 0) == 0.0;
      assert ExpectedLoss(s, 0, salvageRate) == 0 && ExactLoss(s, 0, salvageRate) == 0.0;
    } else {
      RoundingCharge(s, n - 1, salvageRate);
    }
  }

  /** The charged loss exceeds the worst exposure by at most the rounding of the later steps. */
  lemma ExpectedLossBound(s: seq<Leg>, salvageRate: Probability)
    requires s != [] && NonNegativeCosts(s)
    ensures ExpectedLoss(s, |s|, salvageRate) <= WorstLoss(s, |s|, salvageRate) + |s| - 1
    ensures ExpectedLoss(s, |s|, salvageRate) >= 0
  {
    MaxExposureIsLastLoss(s, salvageRate);
    RoundingCharge(s, |s|, salvageRate);
    ExactLossAtMostWorst(s, salvageRate);
    ExactLossNonNegative(s, |s|, salvageRate);
  }

  lemma ExactLossAtMostWorst(s: seq<Leg>, salvageRate: Probability)
    requires s != [] && NonNegativeCosts(s)
    ensures ExactLoss(s, |s|, salvageRate) <= LossAt(s, |s| - 1, salvageRate) as real
  {
    LossesGrow(s, |s| - 1, |s| - 1, salvageRate);
    ExactLossBound(s, |s|, salvageRate);
    TreeSumsToOne(s);
    ReachIsProbability(s);
    ScaleByProbability(LossAt(s, |s| - 1, salvageRate) as real, FailureMass(s, |s|));
  }

  lemma {:induction false} ExactLossNonNegative(s: seq<Leg>, n: nat, salvageRate: Probability)
    requires n <= |s| && NonNegativeCosts(s)
    ensures ExactLoss(s, n, salvageRate) >= 0.0
  {
    if n > 0 {
      ExactLossNonNegative(s, n - 1, salvageRate);
      LossesGrow(s, n - 1, n - 1, salvageRate);
      FailsAtIsProbability(s, n - 1);
      ProductMonotone(0.0, LossAt(s, n - 1, salvageRate) as real, FailsAt(s, n - 1));
    }
  }
}
