/**
 Expected value, its bounds and the probability of profit (src/tradeup/valuation/expected_value.py), with the carry
 charge of src/tradeup/valuation/capital.py.  Amounts are minor units of the base currency.
 */
module ExpectedValue {
  import opened Fees
  import opened Outcomes
  import opened Rounding
  import opened Sorting
  import opened Wrappers

  datatype Term = Term(probability: real, value: Money)

  /** The exact, unrounded sum of p * v. */
  function Weighted(terms: seq<Term>): real {
    if terms == [] then 0.0
    else Weighted(terms[..|terms| - 1]) + Times(terms[|terms| - 1].value.minor as real, terms[|terms| - 1].probability)
  }

  function TotalMass(terms: seq<Term>): real {
    if terms == [] then 0.0 else TotalMass(terms[..|terms| - 1]) + terms[|terms| - 1].probability
  }

  /** `probability_weighted`: rounded once, down. */
  method ProbabilityWeighted(terms: seq<Term>, currency: Currency) returns (r: Result<Money, string>)
    ensures r.Ok? <==> forall i | 0 <= i < |terms| :: terms[i].value.currency == currency
    ensures r.Ok? ==> r.value == Money(Floor(Weighted(terms)), currency, CashWithdrawable)
  {
    if terms == [] {
      return Ok(Money(0, currency, CashWithdrawable));
    }
    var total := 0.0;
    for i := 0 to |terms|
      invariant forall j | 0 <= j < i :: terms[j].value.currency == currency
      invariant total == Weighted(terms[..i])
    {
      if terms[i].value.currency != currency {
        return Err("a term is in another currency");
      }
      assert terms[..i + 1][..i] == terms[..i];
      total := total + Times(terms[i].value.minor as real, terms[i].probability);
    }
    WholePrefix(terms);
    return Ok(Money(Floor(total), currency, CashWithdrawable));
  }

  ghost predicate NonNegativeMass(terms: seq<Term>) {
    forall i | 0 <= i < |terms| :: terms[i].probability >= 0.0
  }

  lemma {:induction false} WeightedAtLeast(terms: seq<Term>, low: int)
    requires NonNegativeMass(terms) && forall i | 0 <= i < |terms| :: low <= terms[i].value.minor
    ensures Times(low as real, TotalMass(terms)) <= Weighted(terms)
  {
    if terms == [] {
      assert Times(low as real, 0.0) == 0.0;
    } else {
      var rest, last := terms[..|terms| - 1], terms[|terms| - 1];
      WeightedAtLeast(rest, low);
      OneTerm(low, last.value.minor, TotalMass(rest), last.probability);
    }
  }

  lemma {:induction false} WeightedAtMost(terms: seq<Term>, high: int)
    requires NonNegativeMass(terms) && forall i | 0 <= i < |terms| :: terms[i].value.minor <= high
    ensures Weighted(terms) <= Times(high as real, TotalMass(terms))
  {
    if terms == [] {
      assert Times(high as real, 0.0) == 0.0;
    } else {
      var rest, last := terms[..|terms| - 1], terms[|terms| - 1];
      WeightedAtMost(rest, high);
      OneTerm(high, last.value.minor, TotalMass(rest), last.probability);
    }
  }

  lemma OneTerm(bound: int, value: int, mass: real, p: real)
    requires p >= 0.0
    ensures bound <= value ==> Times(bound as real, mass + p) <= Times(bound as real, mass) + Times(value as real, p)
    ensures bound >= value ==> Times(bound as real, mass + p) >= Times(bound as real, mass) + Times(value as real, p)
  {
    Distribute(bound as real, mass, p);
    if bound <= value {
      ProductMonotone(bound as real, value as real, p);
    }
    if bound >= value {
      ProductMonotone(value as real, bound as real, p);
    }
  }

  lemma {:induction false} WeightedMonotone(a: seq<Term>, b: seq<Term>)
    requires NonNegativeMass(a) && |a| == |b|
    requires forall i | 0 <= i < |a| :: a[i].probability == b[i].probability && a[i].value.minor <= b[i].value.minor
    ensures Weighted(a) <= Weighted(b)
  {
    if a != [] {
      var n := |a| - 1;
      WeightedMonotone(a[..n], b[..n]);
      ProductMonotone(a[n].value.minor as real, b[n].value.minor as real, a[n].probability);
    }
  }

  /** A full probability mass keeps the once-rounded expectation between the least and the greatest value. */
  lemma ExpectationBetween(terms: seq<Term>, low: int, high: int)
    requires NonNegativeMass(terms) && TotalMass(terms) == 1.0
    requires forall i | 0 <= i < |terms| :: low <= terms[i].value.minor <= high
    ensures low <= Floor(Weighted(terms)) <= high
  {
    WeightedAtLeast(terms, low);
    WeightedAtMost(terms, high);
    assert Times(low as real, 1.0) == low as real && Times(high as real, 1.0) == high as real;
    FloorGreatest(Weighted(terms), low);
  }

  /** Rounding every term down instead would never give more, and could lose almost one unit a term. */
  lemma {:induction false} RoundedOnce(terms: seq<Term>)
    ensures FlooredTerms(terms) <= Floor(Weighted(terms)) <= FlooredTerms(terms) + |terms|
  {
    if terms != [] {
      RoundedOnce(terms[..|terms| - 1]);
    }
  }

  function FlooredTerms(terms: seq<Term>): int {
    if terms == [] then 0
    else FlooredTerms(terms[..|terms| - 1])
         + Floor(Times(terms[|terms| - 1].value.minor as real, terms[|terms| - 1].probability))
  }

  // ----- one candidate's outcomes

  datatype Confidence = High | Medium | Low | NoConfidence

  function Weight(c: Confidence): real {
    match c
    case High => 0.95
    case Medium => 0.85
    case Low => 0.70
    case NoConfidence => 0.0
  }

  /** A reachable output with its conservative valuation; net proceeds are never negative. */
  datatype Reachable = Reachable(probability: real, netProceeds: nat, confidence: Confidence, daysToSale: nat)

  /** The probability that the net proceeds exceed `threshold`. */
  function ProfitMass(s: seq<Reachable>, threshold: int): real {
    if s == [] then 0.0
    else ProfitMass(s[..|s| - 1], threshold)
         + if s[|s| - 1].netProceeds > threshold then s[|s| - 1].probability else 0.0
  }

  /** What constructing a candidate insists on: some outcomes, each possible, one in all. */
  ghost predicate IsCandidate(s: seq<Reachable>) {
    s != [] && (forall i | 0 <= i < |s| :: 0.0 < s[i].probability <= 1.0) && TotalMass(NetTerms(s, USD)) == 1.0
  }

  function NetTerms(s: seq<Reachable>, currency: Currency): (r: seq<Term>)
    ensures |r| == |s|
    ensures forall i | 0 <= i < |s| ::
      r[i] == Term(s[i].probability, Money(s[i].netProceeds, currency, CashWithdrawable))
  {
    seq(|s|, i requires 0 <= i < |s| => Term(s[i].probability, Money(s[i].netProceeds, currency, CashWithdrawable)))
  }

  /** `lower_bound_proceeds`: discounted by confidence, rounded down. */
  function LowerBound(o: Reachable): int {
    ScaledDown(o.netProceeds, Weight(o.confidence))
  }

  function LowerTerms(s: seq<Reachable>, currency: Currency): (r: seq<Term>)
    ensures |r| == |s|
    ensures forall i | 0 <= i < |s| ::
      r[i] == Term(s[i].probability, Money(LowerBound(s[i]), currency, CashWithdrawable))
  {
    seq(|s|, i requires 0 <= i < |s| => Term(s[i].probability, Money(LowerBound(s[i]), currency, CashWithdrawable)))
  }

  /** Of high confidence 95 per cent counts, of medium 85, of low 70 and of none nothing, in whole minor units. */
  lemma LowerBoundByConfidence(o: Reachable)
    ensures var percent := match o.confidence
              case High => 95
              case Medium => 85
              case Low => 70
              case NoConfidence => 0;
            100 * LowerBound(o) <= percent * o.netProceeds < 100 * (LowerBound(o) + 1)
  {
  }

  lemma LowerBoundIsLower(o: Reachable)
    ensures 0 <= LowerBound(o) <= o.netProceeds
  {
    var net := o.netProceeds as real;
    assert 0.0 <= net * Weight(o.confidence) <= net;
  }

  lemma {:induction false} MassIgnoresCurrency(a: seq<Term>, b: seq<Term>)
    requires |a| == |b| && forall i | 0 <= i < |a| :: a[i].probability == b[i].probability
    ensures TotalMass(a) == TotalMass(b)
  {
    if a != [] {
      MassIgnoresCurrency(a[..|a| - 1], b[..|b| - 1]);
    }
  }

  lemma {:induction false} ProfitMassBounds(s: seq<Reachable>, threshold: int)
    requires forall i | 0 <= i < |s| :: s[i].probability > 0.0
    ensures 0.0 <= ProfitMass(s, threshold) <= TotalMass(NetTerms(s, USD))
    ensures ProfitMass(s, threshold) == 0.0 <==> forall i | 0 <= i < |s| :: s[i].netProceeds <= threshold
    ensures ProfitMass(s, threshold) == TotalMass(NetTerms(s, USD))
       <==> forall i | 0 <= i < |s| :: s[i].netProceeds > threshold
  {
    if s != [] {
      ProfitMassBounds(s[..|s| - 1], threshold);
      assert NetTerms(s, USD)[..|s| - 1] == NetTerms(s[..|s| - 1], USD);
      assert s == s[..|s| - 1] + [s[|s| - 1]];
    }
  }

  /** The probability that they do not. */
  function LossMass(s: seq<Reachable>, threshold: int): real {
    if s == [] then 0.0
    else LossMass(s[..|s| - 1], threshold)
         + if s[|s| - 1].netProceeds <= threshold then s[|s| - 1].probability else 0.0
  }

  /** Every outcome counts for or against a profit, with its own probability and never with both. */
  lemma {:induction false} ProfitOrLoss(s: seq<Reachable>, threshold: int)
    ensures ProfitMass(s, threshold) + LossMass(s, threshold) == TotalMass(NetTerms(s, USD))
  {
    if s != [] {
      ProfitOrLoss(s[..|s| - 1], threshold);
      assert NetTerms(s, USD)[..|s| - 1] == NetTerms(s[..|s| - 1], USD);
    }
  }

  // ----- costs

  const DAYS_PER_YEAR := 365

  /** `carry_cost`: the factor is rounded up at eight places, then the charge is rounded up. */
  function CarryCost(annualRate: real, principal: int, days: nat): int {
    ScaledUp(principal, Ceil(annualRate * days as real / DAYS_PER_YEAR as real * 100000000.0) as real / 100000000.0)
  }

  /**
   The yearly rate, for the days of 365, is rounded up to `n` parts in a hundred million, and the charge to whole
   units; so it is never below the exact carry, and exceeds it by less than one unit and one such part of the principal.
   */
  lemma CarryIsRoundedUpTwice(annualRate: real, principal: nat, days: nat) returns (n: int)
    requires annualRate >= 0.0
    ensures n as real - 1.0 < annualRate * days as real / 365.0 * 100000000.0 <= n as real
    ensures var charge := CarryCost(annualRate, principal, days) as real;
            && charge - 1.0 < principal as real * (n as real / 100000000.0) <= charge
            && Times(principal as real, annualRate * days as real / 365.0) <= charge
            && charge < Times(principal as real, annualRate * days as real / 365.0)
                        + principal as real / 100000000.0 + 1.0
  {
    var exact := annualRate * days as real / 365.0;
    n := Ceil(exact * 100000000.0);
    var rounded := n as real / 100000000.0;
    assert CarryCost(annualRate, principal, days) == ScaledUp(principal, rounded);
    ChargeBounds(principal as real, exact, rounded, CarryCost(annualRate, principal, days) as real);
  }

  lemma ChargeBounds(principal: real, exact: real, rounded: real, charge: real)
    requires principal >= 0.0 && exact <= rounded < exact + 1.0 / 100000000.0
    requires charge - 1.0 < Times(principal, rounded) <= charge
    ensures Times(principal, exact) <= charge < Times(principal, exact) + principal / 100000000.0 + 1.0
  {
    var part := 1.0 / 100000000.0;
    TimesMonotone(principal, exact, rounded);
    TimesMonotone(principal, rounded, exact + part);
    Distribute(principal, exact, part);
    assert Times(principal, part) == principal / 100000000.0;
  }

  lemma TimesMonotone(factor: real, a: real, b: real)
    requires factor >= 0.0 && a <= b
    ensures Times(factor, a) <= Times(factor, b)
  {
    assert factor * (b - a) >= 0.0;
  }

  function ExpectedDays(s: seq<Reachable>): real {
    if s == [] then 0.0
    else ExpectedDays(s[..|s| - 1]) + Times(s[|s| - 1].daysToSale as real, s[|s| - 1].probability)
  }

  /** `_expected_days_to_sale`: rounded up. */
  method ExpectedDaysToSale(s: seq<Reachable>) returns (days: int)
    ensures days == Ceil(ExpectedDays(s))
  {
    var total := 0.0;
    for i := 0 to |s|
      invariant total == ExpectedDays(s[..i])
    {
      assert s[..i + 1][..i] == s[..i];
      total := total + Times(s[i].daysToSale as real, s[i].probability);
    }
    WholePrefix(s);
    days := Ceil(total);
  }

  lemma {:induction false} DaysAreNonNegative(s: seq<Reachable>)
    requires forall i | 0 <= i < |s| :: s[i].probability > 0.0
    ensures ExpectedDays(s) >= 0.0
  {
    if s != [] {
      DaysAreNonNegative(s[..|s| - 1]);
      ProductMonotone(0.0, s[|s| - 1].daysToSale as real, s[|s| - 1].probability);
    }
  }

  /** A listing's three amounts share one currency and one balance type. */
  datatype Listing = Listing(currency: Currency, balance: BalanceType, price: int, buyerFee: int, depositFee: int)

  /** Base currency, paid in cash. */
  predicate Payable(listing: Listing, currency: Currency) {
    listing.currency == currency && listing.balance == CashWithdrawable
  }

  function AcquisitionCost(listings: seq<Listing>): int {
    if listings == [] then 0
    else
      var last := listings[|listings| - 1];
      AcquisitionCost(listings[..|listings| - 1]) + last.price + last.buyerFee + last.depositFee
  }

  function PriceTotal(listings: seq<Listing>): int {
    if listings == [] then 0 else PriceTotal(listings[..|listings| - 1]) + listings[|listings| - 1].price
  }

  function BuyerFeeTotal(listings: seq<Listing>): int {
    if listings == [] then 0 else BuyerFeeTotal(listings[..|listings| - 1]) + listings[|listings| - 1].buyerFee
  }

  function DepositFeeTotal(listings: seq<Listing>): int {
    if listings == [] then 0 else DepositFeeTotal(listings[..|listings| - 1]) + listings[|listings| - 1].depositFee
  }

  /** The bill is the prices with both kinds of fees. */
  lemma {:induction false} AcquisitionIsPricesAndFees(listings: seq<Listing>)
    ensures AcquisitionCost(listings) == PriceTotal(listings) + BuyerFeeTotal(listings) + DepositFeeTotal(listings)
  {
    if listings != [] {
      AcquisitionIsPricesAndFees(listings[..|listings| - 1]);
    }
  }

  /** Every listing is in this currency and paid in cash, and the prices and fees come to no negative amount. */
  ghost predicate Billable(listings: seq<Listing>, currency: Currency) {
    && PriceTotal(listings) + BuyerFeeTotal(listings) + DepositFeeTotal(listings) >= 0
    && forall i | 0 <= i < |listings| ::
         listings[i].currency == currency && listings[i].balance == CashWithdrawable
  }

  datatype EngineParts = EngineParts(
    currency: Currency, operational: int, settlementRate: real, annualRate: real,
    transferDays: nat, executionDays: nat, settlementDays: nat)

  type Engine = e: EngineParts | e.settlementRate >= 0.0 && e.annualRate >= 0.0 && e.operational >= 0
    witness EngineParts(USD, 0, 0.0, 0.0, 0, 0, 0)

  datatype Evaluation = Evaluation(
    acquisition: int, settlement: int, carry: int, allIn: int, expectedOutput: int, evNet: int, roiNet: real,
    lowerBoundEv: int, probabilityOfProfit: real, worstCase: int, bestCase: int, capitalDays: nat, profitPerDay: int)

  function LeastNet(s: seq<Reachable>): (n: int)
    requires s != []
    ensures forall i | 0 <= i < |s| :: n <= s[i].netProceeds
    ensures exists i | 0 <= i < |s| :: n == s[i].netProceeds
  {
    var last := s[|s| - 1].netProceeds;
    if |s| == 1 then last
    else
      var rest := LeastNet(s[..|s| - 1]);
      if last < rest then last else rest
  }

  function GreatestNet(s: seq<Reachable>): (n: int)
    requires s != []
    ensures forall i | 0 <= i < |s| :: s[i].netProceeds <= n
    ensures exists i | 0 <= i < |s| :: n == s[i].netProceeds
  {
    var last := s[|s| - 1].netProceeds;
    if |s| == 1 then last
    else
      var rest := GreatestNet(s[..|s| - 1]);
      if last > rest then last else rest
  }

  /** What every evaluation satisfies, whatever the evidence. */
  ghost predicate Conservative(e: Evaluation) {
    && e.lowerBoundEv <= e.evNet
    && e.worstCase <= e.evNet <= e.bestCase
    && 0.0 <= e.probabilityOfProfit <= 1.0
    && (e.probabilityOfProfit == 0.0 <==> e.bestCase <= 0)
    && (e.probabilityOfProfit == 1.0 <==> e.worstCase > 0)
    && (e.evNet > 0 ==> e.probabilityOfProfit > 0.0)
    && (e.acquisition > 0 ==> (e.roiNet > 0.0 <==> e.evNet > 0))
  }

  /** A loss earns nothing a day; an instantaneous round trip is charged one day. */
  function ProfitPerDay(evNet: int, days: nat): int {
    ScaledDown(if evNet > 0 then evNet else 0, 1.0 / (if days < 1 then 1 else days) as real)
  }

  /** The profit shared out over the days, at least one, in whole units; a loss counts as nothing. */
  lemma ProfitIsSharedOut(evNet: int, days: nat)
    ensures var profit, n := (if evNet > 0 then evNet else 0), (if days > 0 then days else 1);
            ProfitPerDay(evNet, days) * n <= profit < (ProfitPerDay(evNet, days) + 1) * n
  {
    FloorOfShare(if evNet > 0 then evNet else 0, if days > 0 then days else 1);
  }

  lemma FloorOfShare(amount: int, n: nat)
    requires n >= 1
    ensures var share := ScaledDown(amount, 1.0 / n as real); share * n <= amount < (share + 1) * n
  {
    var share, exact := ScaledDown(amount, 1.0 / n as real), amount as real * (1.0 / n as real);
    assert share as real <= exact < (share + 1) as real;
    WholeTimes(share, exact, amount, n);
  }

  lemma WholeTimes(share: int, exact: real, amount: int, n: nat)
    requires n >= 1 && share as real <= exact < (share + 1) as real && exact == amount as real * (1.0 / n as real)
    ensures share * n <= amount < (share + 1) * n
  {
    var d := n as real;
    assert exact * d == amount as real;
    ProductMonotone(share as real, exact, d);
    StrictProduct(exact, (share + 1) as real, d);
    assert (share * n) as real == share as real * d && ((share + 1) * n) as real == (share + 1) as real * d;
  }

  ghost function CapitalDays(engine: Engine, s: seq<Reachable>, lockDays: nat): nat
    requires IsCandidate(s)
  {
    DaysAreNonNegative(s);
    lockDays + engine.transferDays + engine.executionDays + Ceil(ExpectedDays(s)) + engine.settlementDays
  }

  /** The input cost with every charge, each rounded up on its own; `reserve` can have either sign. */
  function AllIn(engine: Engine, acquisition: int, capitalDays: nat, reserve: int): int {
    acquisition + engine.operational + ScaledUp(acquisition, engine.settlementRate)
    + CarryCost(engine.annualRate, acquisition, capitalDays) + reserve
  }

  /** The ratio of two amounts; of a zero amount, zero. */
  ghost predicate IsRatio(r: real, n: int, d: int) {
    if d == 0 then r == 0.0 else Times(r, d as real) == n as real
  }

  lemma RatioOf(n: int, d: int)
    requires d > 0
    ensures n as real / d as real > 0.0 <==> n > 0
    ensures IsRatio(n as real / d as real, n, d)
  {
  }

  /** How an evaluation follows from the candidate and the engine's parameters. */
  ghost predicate Evaluated(e: Evaluation, engine: Engine, listings: seq<Listing>, s: seq<Reachable>, reserve: int,
                            lockDays: nat)
    requires IsCandidate(s)
  {
    && e.acquisition == PriceTotal(listings) + BuyerFeeTotal(listings) + DepositFeeTotal(listings)
    && e.capitalDays == CapitalDays(engine, s, lockDays)
    && e.settlement == ScaledUp(e.acquisition, engine.settlementRate)
    && e.carry == CarryCost(engine.annualRate, e.acquisition, e.capitalDays)
    && e.allIn == AllIn(engine, e.acquisition, e.capitalDays, reserve) >= 0
    && e.expectedOutput == Floor(Weighted(NetTerms(s, engine.currency)))
    && e.evNet == e.expectedOutput - e.allIn
    && e.lowerBoundEv == Floor(Weighted(LowerTerms(s, engine.currency))) - e.allIn
    && e.worstCase == LeastNet(s) - e.allIn && e.bestCase == GreatestNet(s) - e.allIn
    && e.probabilityOfProfit == ProfitMass(s, e.allIn)
    && IsRatio(e.roiNet, e.evNet, e.acquisition)
    && e.profitPerDay == ProfitPerDay(e.evNet, e.capitalDays)
  }

  /** The bill is in the base currency and comes to no negative amount, before or after the charges. */
  ghost predicate Chargeable(engine: Engine, listings: seq<Listing>, s: seq<Reachable>, reserve: int, lockDays: nat)
    requires IsCandidate(s)
  {
    && Billable(listings, engine.currency)
    && AllIn(engine, AcquisitionCost(listings), CapitalDays(engine, s, lockDays), reserve) >= 0
  }

  method Evaluate(engine: Engine, listings: seq<Listing>, s: seq<Reachable>, reserve: int, lockDays: nat)
      returns (r: Result<Evaluation, string>)
    requires IsCandidate(s)
    ensures r.Ok? <==> Chargeable(engine, listings, s, reserve, lockDays)
    ensures r.Ok? ==> Evaluated(r.value, engine, listings, s, reserve, lockDays) && Conservative(r.value)
  {
    if exists i | 0 <= i < |listings| :: !Payable(listings[i], engine.currency) {
      return Err("a listing needs conversion");
    }
    var acquisition := AcquisitionCost(listings);
    AcquisitionIsPricesAndFees(listings);
    var days := ExpectedDaysToSale(s);
    DaysAreNonNegative(s);
    var capitalDays := lockDays + engine.transferDays + engine.executionDays + days + engine.settlementDays;
    var settlement := ScaledUp(acquisition, engine.settlementRate);
    if acquisition < 0 {
      return Err("carry cost requires non-negative principal");
    }
    var carry := CarryCost(engine.annualRate, acquisition, capitalDays);
    var allIn := acquisition + engine.operational + settlement + carry + reserve;
    var expected := ProbabilityWeighted(NetTerms(s, engine.currency), engine.currency);
    var lower := ProbabilityWeighted(LowerTerms(s, engine.currency), engine.currency);
    var evNet := expected.value.minor - allIn;
    var roiNet := if acquisition == 0 then 0.0 else evNet as real / acquisition as real;
    if allIn < 0 {
      return Err("all-in cost cannot be negative");
    }
    EvaluationIsConservative(s, engine.currency, allIn);
    if acquisition > 0 {
      RatioOf(evNet, acquisition);
    }
    r := Ok(Evaluation(acquisition, settlement, carry, allIn, expected.value.minor, evNet, roiNet,
                       lower.value.minor - allIn, ProfitMass(s, allIn), LeastNet(s) - allIn, GreatestNet(s) - allIn,
                       capitalDays, ProfitPerDay(evNet, capitalDays)));
  }

  /**
   The expectation lies between the extremes, its confidence bound below it, and profit is possible when it is
   positive.
   */
  lemma EvaluationIsConservative(s: seq<Reachable>, currency: Currency, allIn: int)
    requires IsCandidate(s)
    ensures var ev := Floor(Weighted(NetTerms(s, currency)));
            && Floor(Weighted(LowerTerms(s, currency))) <= ev
            && LeastNet(s) <= ev <= GreatestNet(s)
            && (ev > allIn ==> ProfitMass(s, allIn) > 0.0)
    ensures 0.0 <= ProfitMass(s, allIn) <= 1.0
    ensures ProfitMass(s, allIn) == 0.0 <==> GreatestNet(s) <= allIn
    ensures ProfitMass(s, allIn) == 1.0 <==> LeastNet(s) > allIn
  {
    var net, lower := NetTerms(s, currency), LowerTerms(s, currency);
    MassIgnoresCurrency(net, NetTerms(s, USD));
    ExpectationBetween(net, LeastNet(s), GreatestNet(s));
    forall i | 0 <= i < |s| ensures lower[i].value.minor <= net[i].value.minor {
      LowerBoundIsLower(s[i]);
    }
    WeightedMonotone(lower, net);
    FloorMonotone(Weighted(lower), Weighted(net));
    ProfitMassBounds(s, allIn);
  }

  // ----- the candidates the builder makes

  datatype Valuation = Valuation(netProceeds: nat, confidence: Confidence, daysToSale: nat)

  /** The builder values every entry of the outcome distribution on its own. */
  function Valued(outcomes: seq<OutcomeProbability>, values: seq<Valuation>): (s: seq<Reachable>)
    requires |values| == |outcomes|
    ensures |s| == |outcomes|
    ensures forall i | 0 <= i < |s| ::
      s[i] == Reachable(outcomes[i].probability, values[i].netProceeds, values[i].confidence, values[i].daysToSale)
  {
    seq(|outcomes|, i requires 0 <= i < |outcomes| =>
      Reachable(outcomes[i].probability, values[i].netProceeds, values[i].confidence, values[i].daysToSale))
  }

  lemma {:induction false} ValuedMass(outcomes: seq<OutcomeProbability>, values: seq<Valuation>)
    requires |values| == |outcomes|
    ensures TotalMass(NetTerms(Valued(outcomes, values), USD)) == Mass(outcomes)
  {
    if outcomes != [] {
      var n := |outcomes| - 1;
      var terms := NetTerms(Valued(outcomes, values), USD);
      ValuedMass(outcomes[..n], values[..n]);
      assert terms[..n] == NetTerms(Valued(outcomes[..n], values[..n]), USD);
    }
  }

  /**
   Whatever a contract's outcomes are valued at, they make a candidate, so the expectation lies between the least and
   the greatest value, and profit is certain or excluded exactly when every outcome says so.
   */
  lemma ContractIsBracketed(counts: map<int, int>, pools: map<int, EligibleOutputPool>, keys: seq<int>,
                            values: seq<Valuation>, currency: Currency, allIn: int)
    requires keys != [] && AllUsable(counts, pools, keys) && CountTotal(counts, keys) > 0
    requires |values| == |AllOutcomes(counts, pools, keys, CountTotal(counts, keys))|
    ensures var s := Valued(AllOutcomes(counts, pools, keys, CountTotal(counts, keys)), values);
            && IsCandidate(s)
            && LeastNet(s) <= Floor(Weighted(NetTerms(s, currency))) <= GreatestNet(s)
            && 0.0 <= ProfitMass(s, allIn) <= 1.0
            && (ProfitMass(s, allIn) == 0.0 <==> GreatestNet(s) <= allIn)
            && (ProfitMass(s, allIn) == 1.0 <==> LeastNet(s) > allIn)
  {
    var outcomes := AllOutcomes(counts, pools, keys, CountTotal(counts, keys));
    var s := Valued(outcomes, values);
    MassIsOne(counts, pools, keys);
    ValuedMass(outcomes, values);
    EveryOutcomeIsPossible(counts, pools, keys);
    forall i | 0 <= i < |s| ensures 0.0 < s[i].probability <= 1.0 {
      assert outcomes[i] in outcomes;
    }
    EvaluationIsConservative(s, currency, allIn);
  }
}
