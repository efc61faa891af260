/** What moving capital through the crypto rail and back costs (src/tradeup/valuation/settlement.py). */
module Settlement {
  import opened Conversion
  import opened Fees
  import opened Rounding
  import opened Wrappers

  type Haircut = h: real | 0.0 <= h < 1.0 witness 0.0

  datatype Settings = Settings(
    baseCurrency: Currency, settlementCurrency: Currency, maxQuoteAge: int, haircut: Haircut)

  datatype Rail = Rail(settings: Settings, rules: seq<FeeRule>, fundingVenue: int, networkVenue: int)

  datatype PlanError = WrongCurrency | CapitalNotPositive | WrongPair | StaleQuote | FeeProblem(fee: FeeError)

  datatype FundingLeg = FundingLeg(
    target: Money, depositFee: int, spreadFee: int, cryptoSent: Money, networkFee: int)

  datatype WithdrawalLeg = WithdrawalLeg(
    proceeds: Money, withdrawalFee: int, spreadFee: int, networkFee: int, cryptoReceived: Money, afterHaircut: Money)

  datatype SettlementPlan = SettlementPlan(funding: FundingLeg, withdrawal: WithdrawalLeg, drag: int)

  function FundingPlan(rail: Rail, capital: Money, q: ConversionQuote, moment: int): Result<FundingLeg, PlanError>
    requires Covers(q, capital.currency)
  {
    match ScheduleQuote(rail.rules, rail.fundingVenue, Deposit, capital, moment)
    case Err(e) => Err(FeeProblem(e))
    case Ok(depositFee) =>
      match ScheduleQuote(rail.rules, rail.fundingVenue, FxConversion, capital, moment)
      case Err(e) => Err(FeeProblem(e))
      case Ok(spreadFee) =>
        var sent := ConvertCost(q, capital.(minor := capital.minor + depositFee + spreadFee)).value;
        match ScheduleQuote(rail.rules, rail.networkVenue, NetworkTransfer, sent, moment)
        case Err(e) => Err(FeeProblem(e))
        case Ok(networkFee) => Ok(FundingLeg(capital, depositFee, spreadFee, sent, networkFee))
  }

  function WithdrawalPlan(rail: Rail, proceeds: Money, q: ConversionQuote, moment: int)
      : Result<WithdrawalLeg, PlanError>
    requires Covers(q, proceeds.currency)
  {
    match ScheduleQuote(rail.rules, rail.fundingVenue, Withdrawal, proceeds, moment)
    case Err(e) => Err(FeeProblem(e))
    case Ok(withdrawalFee) =>
      match ScheduleQuote(rail.rules, rail.fundingVenue, FxConversion, proceeds, moment)
      case Err(e) => Err(FeeProblem(e))
      case Ok(spreadFee) =>
        var gross := ConvertProceeds(q, proceeds.(minor := proceeds.minor - withdrawalFee - spreadFee)).value;
        match ScheduleQuote(rail.rules, rail.networkVenue, NetworkTransfer, gross, moment)
        case Err(e) => Err(FeeProblem(e))
        case Ok(networkFee) =>
          var received := gross.(minor := gross.minor - networkFee);
          Ok(WithdrawalLeg(proceeds, withdrawalFee, spreadFee, networkFee, received,
                           received.(minor := ScaledDown(received.minor, 1.0 - rail.settings.haircut))))
  }

  function Plan(rail: Rail, capital: Money, q: ConversionQuote, moment: int): Result<SettlementPlan, PlanError> {
    if capital.currency != rail.settings.baseCurrency then Err(WrongCurrency)
    else if capital.minor <= 0 then Err(CapitalNotPositive)
    else if !(q.base == rail.settings.settlementCurrency && q.quote == capital.currency) then Err(WrongPair)
    else if IsStale(q, moment, rail.settings.maxQuoteAge) then Err(StaleQuote)
    else
      match FundingPlan(rail, capital, q, moment)
      case Err(e) => Err(e)
      case Ok(f) =>
        match WithdrawalPlan(rail, capital, q, moment)
        case Err(e) => Err(e)
        case Ok(w) =>
          var outlay := f.cryptoSent.(minor := f.cryptoSent.minor + f.networkFee);
          Ok(SettlementPlan(f, w, ConvertCost(q, outlay).value.minor - ConvertProceeds(q, w.afterHaircut).value.minor))
  }

  function Min(a: int, b: int): int {
    if a <= b then a else b
  }

  function Max(a: int, b: int): int {
    if a <= b then b else a
  }

  /** What went in is valued at no less than everything the funding leg had to cover. */
  lemma FiatIn(rail: Rail, capital: Money, q: ConversionQuote, moment: int)
    requires q.quote == capital.currency && FundingPlan(rail, capital, q, moment).Ok?
    ensures var f := FundingPlan(rail, capital, q, moment).value;
            && f.depositFee >= 0 && f.spreadFee >= 0 && f.networkFee >= 0
            && f.cryptoSent.currency == q.base
            && ConvertCost(q, f.cryptoSent.(minor := f.cryptoSent.minor + f.networkFee)).value.minor
                 >= capital.minor + f.depositFee + f.spreadFee
  {
    var f := FundingPlan(rail, capital, q, moment).value;
    var covered := capital.(minor := capital.minor + f.depositFee + f.spreadFee);
    var outlay := f.cryptoSent.(minor := f.cryptoSent.minor + f.networkFee);
    ConvertFromQuote(q, covered);
    ConvertFromBase(q, f.cryptoSent);
    ConvertFromBase(q, outlay);
    ThereAndBack(covered.minor, Factor(q));
    ScaledUpMonotone(f.cryptoSent.minor, outlay.minor, Factor(q));
    FloorBelowCeil(f.cryptoSent.minor, Factor(q));
  }

  lemma FloorBelowCeil(minor: int, f: real)
    ensures ScaledDown(minor, f) <= ScaledUp(minor, f)
  {
  }

  /** What came back is valued at no more than the net proceeds, and at nothing when those are negative. */
  lemma FiatOut(rail: Rail, proceeds: Money, q: ConversionQuote, moment: int)
    requires q.quote == proceeds.currency && WithdrawalPlan(rail, proceeds, q, moment).Ok?
    ensures var w := WithdrawalPlan(rail, proceeds, q, moment).value;
            var net := proceeds.minor - w.withdrawalFee - w.spreadFee;
            && w.withdrawalFee >= 0 && w.spreadFee >= 0 && w.networkFee >= 0
            && w.afterHaircut.currency == q.base
            && ConvertProceeds(q, w.afterHaircut).value.minor <= Max(net, 0)
  {
    var w := WithdrawalPlan(rail, proceeds, q, moment).value;
    var net := proceeds.(minor := proceeds.minor - w.withdrawalFee - w.spreadFee);
    var gross := ConvertProceeds(q, net).value;
    ConvertFromQuote(q, net);
    ConvertFromBase(q, gross);
    ConvertFromBase(q, w.afterHaircut);
    ThereAndBack(net.minor, Factor(q));
    FloorBelowCeil(gross.minor, Factor(q));
    HaircutOnlyLoses(w.cryptoReceived.minor, rail.settings.haircut);
    ScaledDownMonotone(w.afterHaircut.minor, Max(gross.minor, 0), Factor(q));
    NothingConvertsToNothing(Factor(q));
    if gross.minor >= 0 {
      ScaledUpNonNegative(gross.minor, Factor(q));
    }
  }

  lemma NothingConvertsToNothing(f: real)
    ensures ScaledDown(0, f) == 0
  {
    assert 0 as real * f == 0.0;
  }

  lemma ScaledDownMonotone(a: int, b: int, f: real)
    requires a <= b && f >= 0.0
    ensures ScaledDown(a, f) <= ScaledDown(b, f)
  {
    ProductMonotone(a as real, b as real, f);
    FloorMonotone(a as real * f, b as real * f);
  }

  /** The haircut takes from a gain; it moves a debt towards zero, but never past it. */
  lemma HaircutOnlyLoses(received: int, haircut: Haircut)
    ensures received >= 0 ==> ScaledDown(received, 1.0 - haircut) <= received
    ensures received <= 0 ==> received <= ScaledDown(received, 1.0 - haircut) <= 0
  {
    var kept := received as real * (1.0 - haircut);
    if received >= 0 {
      ProductMonotone(0.0, received as real, haircut);
    } else {
      ProductMonotone(received as real, 0.0, haircut);
      ProductMonotone(received as real, 0.0, 1.0 - haircut);
    }
    assert kept == received as real - received as real * haircut;
    FloorGreatest(kept, received);
  }

  /**
   Every plan charges at least both legs' fees: the deposit fee, the inbound spread, and the withdrawal fee with
   the outbound spread, these two up to the capital itself when the withdrawal nets negative.
   */
  lemma DragCoversEveryFee(rail: Rail, capital: Money, q: ConversionQuote, moment: int)
    requires Plan(rail, capital, q, moment).Ok?
    ensures var plan := Plan(rail, capital, q, moment).value;
            var outbound := plan.withdrawal.withdrawalFee + plan.withdrawal.spreadFee;
            && plan.drag >= plan.funding.depositFee + plan.funding.spreadFee
                            + Min(outbound, capital.minor)
            && plan.drag >= 0
  {
    FiatIn(rail, capital, q, moment);
    FiatOut(rail, capital, q, moment);
  }

  lemma InboundExcess(x: int, n: int, f: real)
    requires f > 0.0
    ensures ScaledUp(DividedUp(x, f) + n, f) as real < x as real + Times((1 + n) as real, f) + 1.0
  {
    Quotients(x as real, f);
    StrictProduct((DividedUp(x, f) + n) as real, x as real / f + (1 + n) as real, f);
    assert (x as real / f + (1 + n) as real) * f == x as real / f * f + (1 + n) as real * f;
  }

  lemma OutboundShortfall(x: int, n: int, haircut: Haircut, f: real)
    requires f > 0.0
    ensures var received := DividedDown(x, f) - n;
            ScaledDown(ScaledDown(received, 1.0 - haircut), f) as real
              > x as real - Times((2 + n) as real + Times(haircut, received as real), f) - 1.0
  {
    var received := DividedDown(x, f) - n;
    var kept := ScaledDown(received, 1.0 - haircut);
    var lost := (2 + n) as real + haircut * received as real;
    Quotients(x as real, f);
    assert received as real * (1.0 - haircut) == received as real - haircut * received as real;
    StrictProduct(x as real / f - lost, kept as real, f);
    assert (x as real / f - lost) * f == x as real / f * f - lost * f;
  }

  lemma FiatInCeiling(rail: Rail, capital: Money, q: ConversionQuote, moment: int)
    requires q.quote == capital.currency && FundingPlan(rail, capital, q, moment).Ok?
    ensures var f := FundingPlan(rail, capital, q, moment).value;
            && f.cryptoSent.currency == q.base
            && ConvertCost(q, f.cryptoSent.(minor := f.cryptoSent.minor + f.networkFee)).value.minor as real
                 < (capital.minor + f.depositFee + f.spreadFee) as real
                   + Times((1 + f.networkFee) as real, Factor(q)) + 1.0
  {
    var f := FundingPlan(rail, capital, q, moment).value;
    var covered := capital.(minor := capital.minor + f.depositFee + f.spreadFee);
    ConvertFromQuote(q, covered);
    ConvertFromBase(q, f.cryptoSent.(minor := f.cryptoSent.minor + f.networkFee));
    InboundExcess(covered.minor, f.networkFee, Factor(q));
  }

  lemma FiatOutFloor(rail: Rail, proceeds: Money, q: ConversionQuote, moment: int)
    requires q.quote == proceeds.currency && WithdrawalPlan(rail, proceeds, q, moment).Ok?
    ensures var w := WithdrawalPlan(rail, proceeds, q, moment).value;
            && w.afterHaircut.currency == q.base
            && ConvertProceeds(q, w.afterHaircut).value.minor as real
                 > (proceeds.minor - w.withdrawalFee - w.spreadFee) as real - 1.0
                   - Times((2 + w.networkFee) as real + Times(rail.settings.haircut, w.cryptoReceived.minor as real),
                           Factor(q))
  {
    var w := WithdrawalPlan(rail, proceeds, q, moment).value;
    var net := proceeds.(minor := proceeds.minor - w.withdrawalFee - w.spreadFee);
    ConvertFromQuote(q, net);
    ConvertFromBase(q, w.afterHaircut);
    OutboundShortfall(net.minor, w.networkFee, rail.settings.haircut, Factor(q));
  }

  /**
   And nothing else: the drag stays below the fees of both legs, the two network fees and the haircut valued at
   the quote, and the rounding of three crypto and two fiat units.
   */
  lemma DragChargesNothingElse(rail: Rail, capital: Money, q: ConversionQuote, moment: int)
    requires Plan(rail, capital, q, moment).Ok?
    ensures var plan := Plan(rail, capital, q, moment).value;
            var f, w := plan.funding, plan.withdrawal;
            plan.drag as real
              < (f.depositFee + f.spreadFee + w.withdrawalFee + w.spreadFee + 2) as real
                + Times((1 + f.networkFee) as real, Factor(q))
                + Times((2 + w.networkFee) as real + Times(rail.settings.haircut, w.cryptoReceived.minor as real),
                        Factor(q))
  {
    FiatInCeiling(rail, capital, q, moment);
    FiatOutFloor(rail, capital, q, moment);
  }

  lemma InboundCharge(x: int, n: int, f: real)
    requires f > 0.0
    ensures ScaledUp(DividedUp(x, f) + n, f) as real >= x as real + Times(n as real, f)
  {
    Quotients(x as real, f);
    ProductMonotone(x as real / f + n as real, (DividedUp(x, f) + n) as real, f);
    assert (x as real / f + n as real) * f == x as real / f * f + n as real * f;
  }

  lemma OutboundCharge(x: int, n: int, haircut: Haircut, f: real)
    requires f > 0.0
    ensures var received := DividedDown(x, f) - n;
            ScaledDown(ScaledDown(received, 1.0 - haircut), f) as real
              <= x as real - Times(n as real + Times(haircut, received as real), f)
  {
    var received := DividedDown(x, f) - n;
    var kept := ScaledDown(received, 1.0 - haircut);
    var lost := n as real + haircut * received as real;
    Quotients(x as real, f);
    assert received as real * (1.0 - haircut) == received as real - haircut * received as real;
    ProductMonotone(kept as real, x as real / f - lost, f);
    assert (x as real / f - lost) * f == x as real / f * f - lost * f;
  }

  lemma FiatInFloor(rail: Rail, capital: Money, q: ConversionQuote, moment: int)
    requires q.quote == capital.currency && FundingPlan(rail, capital, q, moment).Ok?
    ensures var f := FundingPlan(rail, capital, q, moment).value;
            && f.cryptoSent.currency == q.base
            && ConvertCost(q, f.cryptoSent.(minor := f.cryptoSent.minor + f.networkFee)).value.minor as real
                 >= (capital.minor + f.depositFee + f.spreadFee) as real + Times(f.networkFee as real, Factor(q))
  {
    var f := FundingPlan(rail, capital, q, moment).value;
    var covered := capital.(minor := capital.minor + f.depositFee + f.spreadFee);
    ConvertFromQuote(q, covered);
    ConvertFromBase(q, f.cryptoSent.(minor := f.cryptoSent.minor + f.networkFee));
    InboundCharge(covered.minor, f.networkFee, Factor(q));
  }

  lemma FiatOutCeiling(rail: Rail, proceeds: Money, q: ConversionQuote, moment: int)
    requires q.quote == proceeds.currency && WithdrawalPlan(rail, proceeds, q, moment).Ok?
    ensures var w := WithdrawalPlan(rail, proceeds, q, moment).value;
            && w.afterHaircut.currency == q.base
            && ConvertProceeds(q, w.afterHaircut).value.minor as real
                 <= (proceeds.minor - w.withdrawalFee - w.spreadFee) as real
                    - Times(w.networkFee as real + Times(rail.settings.haircut, w.cryptoReceived.minor as real),
                            Factor(q))
  {
    var w := WithdrawalPlan(rail, proceeds, q, moment).value;
    var net := proceeds.(minor := proceeds.minor - w.withdrawalFee - w.spreadFee);
    ConvertFromQuote(q, net);
    ConvertFromBase(q, w.afterHaircut);
    OutboundCharge(net.minor, w.networkFee, rail.settings.haircut, Factor(q));
  }

  /** And all of those: both legs' fees, both network fees and the haircut, valued at the quote. */
  lemma DragChargesEverything(rail: Rail, capital: Money, q: ConversionQuote, moment: int)
    requires Plan(rail, capital, q, moment).Ok?
    ensures var plan := Plan(rail, capital, q, moment).value;
            var f, w := plan.funding, plan.withdrawal;
            plan.drag as real
              >= (f.depositFee + f.spreadFee + w.withdrawalFee + w.spreadFee) as real
                 + Times(f.networkFee as real, Factor(q))
                 + Times(w.networkFee as real + Times(rail.settings.haircut, w.cryptoReceived.minor as real), Factor(q))
  {
    FiatInFloor(rail, capital, q, moment);
    FiatOutCeiling(rail, capital, q, moment);
  }

  // ----- when there is a plan

  /** The five fees of a plan, in the order they are looked up. */
  datatype DueFees = DueFees(deposit: int, inbound: int, sending: int, withdrawal: int, returning: int)

  /** No older than the limit; a quote from the future has no age. */
  ghost predicate FreshEnough(rail: Rail, q: ConversionQuote, moment: int) {
    0 <= rail.settings.maxQuoteAge && moment <= q.observedAt + rail.settings.maxQuoteAge
  }

  /** The guards before any fee is looked up. */
  ghost predicate Accepts(rail: Rail, capital: Money, q: ConversionQuote, moment: int) {
    && capital.currency == rail.settings.baseCurrency && capital.minor > 0
    && q.base == rail.settings.settlementCurrency && q.quote == capital.currency
    && FreshEnough(rail, q, moment)
  }

  /** Every plan that is refused before the fees names the first guard it fails. */
  lemma GuardsInOrder(rail: Rail, capital: Money, q: ConversionQuote, moment: int)
    ensures var plan := Plan(rail, capital, q, moment);
            if capital.currency != rail.settings.baseCurrency then plan == Err(WrongCurrency)
            else if capital.minor < 1 then plan == Err(CapitalNotPositive)
            else if q.base != rail.settings.settlementCurrency || q.quote != capital.currency then
              plan == Err(WrongPair)
            else if !FreshEnough(rail, q, moment) then plan == Err(StaleQuote)
            else plan.Ok? || plan.error.FeeProblem?
  {
  }

  /** The crypto bought with the capital and its fiat fees. */
  function Sent(capital: Money, q: ConversionQuote, due: DueFees): Money
    requires q.quote == capital.currency
  {
    ConvertCost(q, capital.(minor := capital.minor + due.deposit + due.inbound)).value
  }

  /** The crypto that nets the capital after its fiat fees, before the network takes its own. */
  function Gross(capital: Money, q: ConversionQuote, due: DueFees): Money
    requires q.quote == capital.currency
  {
    ConvertProceeds(q, capital.(minor := capital.minor - due.withdrawal - due.inbound)).value
  }

  /** Lookup `k`, on the amount the earlier fees determine. */
  function LookupAt(rail: Rail, capital: Money, q: ConversionQuote, due: DueFees, k: nat): Lookup
    requires q.quote == capital.currency && k < 5
  {
    if k == 0 then Lookup(rail.fundingVenue, Deposit, capital)
    else if k == 1 then Lookup(rail.fundingVenue, FxConversion, capital)
    else if k == 2 then Lookup(rail.networkVenue, NetworkTransfer, Sent(capital, q, due))
    else if k == 3 then Lookup(rail.fundingVenue, Withdrawal, capital)
    else Lookup(rail.networkVenue, NetworkTransfer, Gross(capital, q, due))
  }

  function FeeAt(due: DueFees, k: nat): int
    requires k < 5
  {
    if k == 0 then due.deposit
    else if k == 1 then due.inbound
    else if k == 2 then due.sending
    else if k == 3 then due.withdrawal
    else due.returning
  }

  /** The first `n` lookups each have their answer in the schedule, and `due` has those fees. */
  ghost predicate DueUpTo(rail: Rail, capital: Money, q: ConversionQuote, moment: int, due: DueFees, n: nat)
    requires q.quote == capital.currency && n <= 5
  {
    forall k | 0 <= k < n :: Answers(rail.rules, LookupAt(rail, capital, q, due, k), moment, Ok(FeeAt(due, k)))
  }

  function FeesOf(plan: SettlementPlan): DueFees {
    DueFees(plan.funding.depositFee, plan.funding.spreadFee, plan.funding.networkFee, plan.withdrawal.withdrawalFee,
            plan.withdrawal.networkFee)
  }

  function QuoteOf(rail: Rail, moment: int, l: Lookup): Result<int, FeeError> {
    ScheduleQuote(rail.rules, l.venue, l.op, l.basis, moment)
  }

  /** The schedule's quotes up to lookup `n` are `due`. */
  lemma DueAreQuoted(rail: Rail, capital: Money, q: ConversionQuote, moment: int, due: DueFees, n: nat)
    requires q.quote == capital.currency && n <= 5
    ensures DueUpTo(rail, capital, q, moment, due, n)
       <==> forall k | 0 <= k < n :: QuoteOf(rail, moment, LookupAt(rail, capital, q, due, k)) == Ok(FeeAt(due, k))
  {
    forall k | 0 <= k < n {
      ScheduleAnswersExactly(rail.rules, LookupAt(rail, capital, q, due, k), moment, Ok(FeeAt(due, k)));
    }
  }

  lemma QuotedAt(rail: Rail, capital: Money, q: ConversionQuote, moment: int, due: DueFees, n: nat, k: nat)
    requires q.quote == capital.currency && k < n <= 5 && DueUpTo(rail, capital, q, moment, due, n)
    ensures QuoteOf(rail, moment, LookupAt(rail, capital, q, due, k)) == Ok(FeeAt(due, k))
  {
    DueAreQuoted(rail, capital, q, moment, due, n);
  }

  lemma FundingRecords(rail: Rail, capital: Money, q: ConversionQuote, moment: int)
    requires q.quote == capital.currency && FundingPlan(rail, capital, q, moment).Ok?
    ensures var funding := FundingPlan(rail, capital, q, moment).value;
            && funding.target == capital
            && ConvertCost(q, capital.(minor := capital.minor + funding.depositFee + funding.spreadFee))
               == Ok(funding.cryptoSent)
  {
  }

  lemma WithdrawalRecords(rail: Rail, proceeds: Money, q: ConversionQuote, moment: int)
    requires q.quote == proceeds.currency && WithdrawalPlan(rail, proceeds, q, moment).Ok?
    ensures var w := WithdrawalPlan(rail, proceeds, q, moment).value;
            && w.proceeds == proceeds
            && ConvertProceeds(q, proceeds.(minor := proceeds.minor - w.withdrawalFee - w.spreadFee))
               == Ok(w.cryptoReceived.(minor := w.cryptoReceived.minor + w.networkFee))
            && w.afterHaircut
               == w.cryptoReceived.(minor := ScaledDown(w.cryptoReceived.minor, 1.0 - rail.settings.haircut))
  {
  }

  /** What a plan records beside its fees: the capital at both ends, the crypto sent, and the crypto received. */
  lemma PlanRecords(rail: Rail, capital: Money, q: ConversionQuote, moment: int)
    requires Plan(rail, capital, q, moment).Ok?
    ensures var plan := Plan(rail, capital, q, moment).value;
            var funding, w := plan.funding, plan.withdrawal;
            && capital.currency == q.quote && funding.target == capital == w.proceeds
            && ConvertCost(q, capital.(minor := capital.minor + funding.depositFee + funding.spreadFee))
               == Ok(funding.cryptoSent)
            && ConvertProceeds(q, capital.(minor := capital.minor - w.withdrawalFee - w.spreadFee))
               == Ok(w.cryptoReceived.(minor := w.cryptoReceived.minor + w.networkFee))
            && w.afterHaircut
               == w.cryptoReceived.(minor := ScaledDown(w.cryptoReceived.minor, 1.0 - rail.settings.haircut))
  {
    FundingRecords(rail, capital, q, moment);
    WithdrawalRecords(rail, capital, q, moment);
  }

  lemma FundingIsQuoted(rail: Rail, capital: Money, q: ConversionQuote, moment: int)
    requires q.quote == capital.currency && FundingPlan(rail, capital, q, moment).Ok?
    ensures var f := FundingPlan(rail, capital, q, moment).value;
            && QuoteOf(rail, moment, Lookup(rail.fundingVenue, Deposit, capital)) == Ok(f.depositFee)
            && QuoteOf(rail, moment, Lookup(rail.fundingVenue, FxConversion, capital)) == Ok(f.spreadFee)
            && QuoteOf(rail, moment, Lookup(rail.networkVenue, NetworkTransfer, f.cryptoSent)) == Ok(f.networkFee)
  {
  }

  lemma WithdrawalIsQuoted(rail: Rail, proceeds: Money, q: ConversionQuote, moment: int)
    requires q.quote == proceeds.currency && WithdrawalPlan(rail, proceeds, q, moment).Ok?
    ensures var w := WithdrawalPlan(rail, proceeds, q, moment).value;
            var gross := w.cryptoReceived.(minor := w.cryptoReceived.minor + w.networkFee);
            && QuoteOf(rail, moment, Lookup(rail.fundingVenue, Withdrawal, proceeds)) == Ok(w.withdrawalFee)
            && QuoteOf(rail, moment, Lookup(rail.fundingVenue, FxConversion, proceeds)) == Ok(w.spreadFee)
            && QuoteOf(rail, moment, Lookup(rail.networkVenue, NetworkTransfer, gross)) == Ok(w.networkFee)
  {
  }

  lemma PlanIsQuoted(rail: Rail, capital: Money, q: ConversionQuote, moment: int, due: DueFees, k: nat)
    requires Plan(rail, capital, q, moment).Ok? && due == FeesOf(Plan(rail, capital, q, moment).value) && k < 5
    ensures Accepts(rail, capital, q, moment)
    ensures due.inbound == Plan(rail, capital, q, moment).value.withdrawal.spreadFee
    ensures QuoteOf(rail, moment, LookupAt(rail, capital, q, due, k)) == Ok(FeeAt(due, k))
  {
    FundingIsQuoted(rail, capital, q, moment);
    WithdrawalIsQuoted(rail, capital, q, moment);
    PlanRecords(rail, capital, q, moment);
  }

  /** A plan's fees are those of the only rules that match its five lookups; the spread is the same both ways. */
  lemma PlanIsDue(rail: Rail, capital: Money, q: ConversionQuote, moment: int)
    requires Plan(rail, capital, q, moment).Ok?
    ensures var plan := Plan(rail, capital, q, moment).value;
            && Accepts(rail, capital, q, moment) && plan.withdrawal.spreadFee == plan.funding.spreadFee
            && DueUpTo(rail, capital, q, moment, FeesOf(plan), 5)
  {
    var due := FeesOf(Plan(rail, capital, q, moment).value);
    forall k: nat | k < 5 ensures QuoteOf(rail, moment, LookupAt(rail, capital, q, due, k)) == Ok(FeeAt(due, k)) {
      PlanIsQuoted(rail, capital, q, moment, due, k);
    }
    PlanIsQuoted(rail, capital, q, moment, due, 0);
    DueAreQuoted(rail, capital, q, moment, due, 5);
  }

  lemma InboundIsPlanned(rail: Rail, capital: Money, q: ConversionQuote, moment: int, due: DueFees)
    requires q.quote == capital.currency && DueUpTo(rail, capital, q, moment, due, 3)
    ensures FundingPlan(rail, capital, q, moment)
         == Ok(FundingLeg(capital, due.deposit, due.inbound, Sent(capital, q, due), due.sending))
  {
    QuotedAt(rail, capital, q, moment, due, 3, 0);
    QuotedAt(rail, capital, q, moment, due, 3, 1);
    QuotedAt(rail, capital, q, moment, due, 3, 2);
  }

  lemma DueUpToFewer(rail: Rail, capital: Money, q: ConversionQuote, moment: int, due: DueFees, n: nat, m: nat)
    requires q.quote == capital.currency && m <= n <= 5 && DueUpTo(rail, capital, q, moment, due, n)
    ensures DueUpTo(rail, capital, q, moment, due, m)
  {
  }

  lemma DueIsPlanned(rail: Rail, capital: Money, q: ConversionQuote, moment: int, due: DueFees)
    requires Accepts(rail, capital, q, moment) && DueUpTo(rail, capital, q, moment, due, 5)
    ensures Plan(rail, capital, q, moment).Ok? && FeesOf(Plan(rail, capital, q, moment).value) == due
  {
    DueUpToFewer(rail, capital, q, moment, due, 5, 3);
    InboundIsPlanned(rail, capital, q, moment, due);
    QuotedAt(rail, capital, q, moment, due, 5, 1);
    QuotedAt(rail, capital, q, moment, due, 5, 3);
    QuotedAt(rail, capital, q, moment, due, 5, 4);
  }

  /** Lookup `k` is the first without a fee. */
  ghost predicate FailsAt(rail: Rail, capital: Money, q: ConversionQuote, moment: int, due: DueFees, k: nat,
                          e: FeeError)
    requires q.quote == capital.currency && k < 5
  {
    DueUpTo(rail, capital, q, moment, due, k)
    && Answers(rail.rules, LookupAt(rail, capital, q, due, k), moment, Err(e))
  }

  ghost predicate FailsWith(rail: Rail, capital: Money, q: ConversionQuote, moment: int, e: FeeError) {
    Accepts(rail, capital, q, moment) && exists due, k :: 0 <= k < 5 && FailsAt(rail, capital, q, moment, due, k, e)
  }

  lemma InboundFails(rail: Rail, capital: Money, q: ConversionQuote, moment: int, due: DueFees, k: nat, e: FeeError)
    requires q.quote == capital.currency && k < 3 && DueUpTo(rail, capital, q, moment, due, k)
    requires QuoteOf(rail, moment, LookupAt(rail, capital, q, due, k)) == Err(e)
    ensures FundingPlan(rail, capital, q, moment) == Err(FeeProblem(e))
  {
    if k > 0 {
      QuotedAt(rail, capital, q, moment, due, k, 0);
    }
    if k > 1 {
      QuotedAt(rail, capital, q, moment, due, k, 1);
    }
  }

  lemma OutboundFails(rail: Rail, capital: Money, q: ConversionQuote, moment: int, due: DueFees, k: nat, e: FeeError)
    requires q.quote == capital.currency && 3 <= k < 5 && DueUpTo(rail, capital, q, moment, due, k)
    requires QuoteOf(rail, moment, LookupAt(rail, capital, q, due, k)) == Err(e)
    ensures WithdrawalPlan(rail, capital, q, moment) == Err(FeeProblem(e))
  {
    QuotedAt(rail, capital, q, moment, due, k, 1);
    if k > 3 {
      QuotedAt(rail, capital, q, moment, due, k, 3);
    }
  }

  lemma FailureIsReported(rail: Rail, capital: Money, q: ConversionQuote, moment: int, due: DueFees, k: nat,
                          e: FeeError)
    requires Accepts(rail, capital, q, moment) && k < 5 && FailsAt(rail, capital, q, moment, due, k, e)
    ensures Plan(rail, capital, q, moment) == Err(FeeProblem(e))
  {
    ScheduleAnswersExactly(rail.rules, LookupAt(rail, capital, q, due, k), moment, Err(e));
    if k < 3 {
      InboundFails(rail, capital, q, moment, due, k, e);
    } else {
      DueUpToFewer(rail, capital, q, moment, due, k, 3);
      InboundIsPlanned(rail, capital, q, moment, due);
      OutboundFails(rail, capital, q, moment, due, k, e);
    }
  }

  /** The fees found, as far as the lookups succeed. */
  lemma FoundFees(rail: Rail, capital: Money, q: ConversionQuote, moment: int) returns (due: DueFees, n: nat)
    requires q.quote == capital.currency
    ensures n <= 5 && DueUpTo(rail, capital, q, moment, due, n)
    ensures n < 5 ==> QuoteOf(rail, moment, LookupAt(rail, capital, q, due, n)).Err?
  {
    due, n := DueFees(0, 0, 0, 0, 0), 0;
    while n < 5 && QuoteOf(rail, moment, LookupAt(rail, capital, q, due, n)).Ok?
      invariant n <= 5 && DueUpTo(rail, capital, q, moment, due, n)
    {
      due := OneMoreFee(rail, capital, q, moment, due, n);
      n := n + 1;
    }
  }

  lemma OneMoreFee(rail: Rail, capital: Money, q: ConversionQuote, moment: int, due: DueFees, n: nat)
      returns (more: DueFees)
    requires q.quote == capital.currency && n < 5 && DueUpTo(rail, capital, q, moment, due, n)
    requires QuoteOf(rail, moment, LookupAt(rail, capital, q, due, n)).Ok?
    ensures DueUpTo(rail, capital, q, moment, more, n + 1)
  {
    var fee := QuoteOf(rail, moment, LookupAt(rail, capital, q, due, n)).value;
    more := if n == 0 then due.(deposit := fee) else if n == 1 then due.(inbound := fee)
            else if n == 2 then due.(sending := fee) else if n == 3 then due.(withdrawal := fee)
            else due.(returning := fee);
    forall k | 0 <= k <= n
      ensures Answers(rail.rules, LookupAt(rail, capital, q, more, k), moment, Ok(FeeAt(more, k)))
    {
      if k < n {
        assert LookupAt(rail, capital, q, more, k) == LookupAt(rail, capital, q, due, k);
        assert FeeAt(more, k) == FeeAt(due, k);
      } else {
        ScheduleAnswersExactly(rail.rules, LookupAt(rail, capital, q, more, k), moment, Ok(fee));
      }
    }
  }

  /**
   A plan exists exactly when every guard holds and each of the five lookups has one matching rule with a fee; a fee
   that is missing, ambiguous or negative is reported, for the first lookup it stops.
   */
  lemma PlanExistsExactly(rail: Rail, capital: Money, q: ConversionQuote, moment: int)
    ensures Plan(rail, capital, q, moment).Ok?
       <==> Accepts(rail, capital, q, moment) && exists due :: DueUpTo(rail, capital, q, moment, due, 5)
    ensures forall e :: Plan(rail, capital, q, moment) == Err(FeeProblem(e)) <==> FailsWith(rail, capital, q, moment, e)
  {
    if Plan(rail, capital, q, moment).Ok? {
      PlanIsDue(rail, capital, q, moment);
    }
    if Accepts(rail, capital, q, moment) {
      forall due | DueUpTo(rail, capital, q, moment, due, 5) ensures Plan(rail, capital, q, moment).Ok? {
        DueIsPlanned(rail, capital, q, moment, due);
      }
      forall due, k: nat, e | k < 5 && FailsAt(rail, capital, q, moment, due, k, e)
        ensures Plan(rail, capital, q, moment) == Err(FeeProblem(e))
      {
        FailureIsReported(rail, capital, q, moment, due, k, e);
      }
      var due, n := FoundFees(rail, capital, q, moment);
      if n < 5 {
        var failing := LookupAt(rail, capital, q, due, n);
        var e := QuoteOf(rail, moment, failing).error;
        ScheduleAnswersExactly(rail.rules, failing, moment, Err(e));
        assert FailsAt(rail, capital, q, moment, due, n, e);
      }
    }
  }
}
