/** Explicit cross-currency conversion (src/tradeup/domain/conversion.py). Moments are integer seconds. */
module Conversion {
  import opened Fees
  import opened Rounding
  import opened Wrappers

  /** Minor units in one major unit. */
  function Scale(c: Currency): (n: int)
    ensures n > 0
  {
    match c
    case USD => 100
    case EUR => 100
    case GBP => 100
    case BTC => 100000000
    case ETH => 1000000000000000000
    case USDT => 1000000
  }

  datatype Pair = Pair(base: Currency, quote: Currency, rate: real, observedAt: int)

  /** One observed rate: quote-currency major units for one base-currency major unit. */
  type ConversionQuote = q: Pair | q.rate > 0.0 && q.base != q.quote witness Pair(BTC, USD, 1.0, 0)

  predicate Covers(q: ConversionQuote, c: Currency) {
    c == q.base || c == q.quote
  }

  function AgeSeconds(q: ConversionQuote, now: int): int {
    if now - q.observedAt < 0 then 0 else now - q.observedAt
  }

  predicate IsStale(q: ConversionQuote, now: int, maxAge: int) {
    AgeSeconds(q, now) > maxAge
  }

  function Other(q: ConversionQuote, c: Currency): Currency {
    if c == q.base then q.quote else q.base
  }

  /** The exact rational value of an amount in the pair's other currency. */
  function Exact(q: ConversionQuote, minor: int, from: Currency): real {
    if from == q.base then minor as real * q.rate * (Scale(q.quote) as real / Scale(q.base) as real)
    else minor as real * Scale(q.base) as real / Scale(q.quote) as real / q.rate
  }

  /** `_convert`: exact, rounded once. */
  function Convert(q: ConversionQuote, amount: Money, roundUp: bool): Result<Money, string> {
    if !Covers(q, amount.currency) then Err("the quote cannot convert an amount in this currency")
    else
      var exact := Exact(q, amount.minor, amount.currency);
      Ok(Money(if roundUp then Ceil(exact) else Floor(exact), Other(q, amount.currency), amount.balance))
  }

  /** An amount we must pay is never understated. */
  function ConvertCost(q: ConversionQuote, amount: Money): Result<Money, string> {
    Convert(q, amount, true)
  }

  /** An amount we expect to receive is never overstated. */
  function ConvertProceeds(q: ConversionQuote, amount: Money): Result<Money, string> {
    Convert(q, amount, false)
  }

  // ----- both directions share one exchange factor

  /** Quote-currency minor units for one base-currency minor unit. */
  ghost function Factor(q: ConversionQuote): (f: real)
    ensures f > 0.0
  {
    PositiveProduct(q.rate, Scale(q.quote) as real / Scale(q.base) as real);
    q.rate * (Scale(q.quote) as real / Scale(q.base) as real)
  }

  lemma PositiveProduct(a: real, b: real)
    requires a > 0.0 && b > 0.0
    ensures a * b > 0.0
  {
  }

  lemma ExactIsFactor(q: ConversionQuote, minor: int)
    ensures Exact(q, minor, q.base) == minor as real * Factor(q)
    ensures Exact(q, minor, q.quote) == minor as real / Factor(q)
  {
    var n, r, s, t := minor as real, q.rate, Scale(q.quote) as real, Scale(q.base) as real;
    assert n * r * (s / t) == n * (r * (s / t));
    NestedQuotient(n, r, s, t);
  }

  lemma NestedQuotient(n: real, r: real, s: real, t: real)
    requires r > 0.0 && s > 0.0 && t > 0.0
    ensures r * (s / t) > 0.0
    ensures n * t / s / r == n / (r * (s / t))
  {
    PositiveProduct(r, s / t);
    var x := n * t / s / r;
    assert x * r == n * t / s;
    assert x * r * s == n * t;
    assert x * (r * (s / t)) == x * r * s / t;
    assert x * r * s / t == n;
    QuotientUnique(n, r * (s / t), x);
  }

  lemma QuotientUnique(n: real, d: real, x: real)
    requires d > 0.0 && x * d == n
    ensures x == n / d
  {
  }

  ghost function DividedUp(minor: int, f: real): int
    requires f > 0.0
  {
    Ceil(minor as real / f)
  }

  ghost function DividedDown(minor: int, f: real): int
    requires f > 0.0
  {
    Floor(minor as real / f)
  }

  lemma ThereAndBack(x: int, f: real)
    requires f > 0.0
    ensures DividedDown(ScaledUp(x, f), f) >= x >= DividedUp(ScaledDown(x, f), f)
    ensures ScaledDown(DividedUp(x, f), f) >= x >= ScaledUp(DividedDown(x, f), f)
  {
    ScaleThenDivide(x, ScaledUp(x, f), ScaledDown(x, f), f);
    DivideThenScale(x, DividedUp(x, f), DividedDown(x, f), f);
  }

  lemma ScaleThenDivide(x: int, above: int, below: int, f: real)
    requires f > 0.0 && below as real <= x as real * f <= above as real
    ensures DividedDown(above, f) >= x >= DividedUp(below, f)
  {
    Quotients(x as real, f);
    DivideMonotone(x as real * f, above as real, f);
    DivideMonotone(below as real, x as real * f, f);
    var high, low := above as real / f, below as real / f;
    assert low <= x as real <= high;
    FloorGreatest(high, x);
    CeilLeast(low, x);
  }

  lemma DivideThenScale(x: int, above: int, below: int, f: real)
    requires f > 0.0 && below as real <= x as real / f <= above as real
    ensures ScaledDown(above, f) >= x >= ScaledUp(below, f)
  {
    Quotients(x as real, f);
    ProductMonotone(x as real / f, above as real, f);
    ProductMonotone(below as real, x as real / f, f);
    var high, low := above as real * f, below as real * f;
    assert low <= x as real <= high;
    FloorGreatest(high, x);
    CeilLeast(low, x);
  }

  lemma Quotients(x: real, f: real)
    requires f > 0.0
    ensures x * f / f == x && x / f * f == x
  {
  }

  lemma DivideMonotone(a: real, b: real, f: real)
    requires a <= b && f > 0.0
    ensures a / f <= b / f
  {
    Quotients(a, f);
    Quotients(b, f);
    if a / f > b / f {
      StrictProduct(b / f, a / f, f);
    }
  }

  lemma RoundedOnce(q: ConversionQuote, amount: Money, exact: real)
    requires Covers(q, amount.currency) && Exact(q, amount.minor, amount.currency) == exact
    ensures ConvertCost(q, amount) == Ok(Money(Ceil(exact), Other(q, amount.currency), amount.balance))
    ensures ConvertProceeds(q, amount) == Ok(Money(Floor(exact), Other(q, amount.currency), amount.balance))
  {
  }

  lemma ScaledOnce(q: ConversionQuote, amount: Money, exact: real, f: real)
    requires Covers(q, amount.currency) && Exact(q, amount.minor, amount.currency) == exact
    requires exact == amount.minor as real * f
    ensures ConvertCost(q, amount) == Ok(Money(ScaledUp(amount.minor, f), Other(q, amount.currency), amount.balance))
    ensures ConvertProceeds(q, amount)
         == Ok(Money(ScaledDown(amount.minor, f), Other(q, amount.currency), amount.balance))
  {
    RoundedOnce(q, amount, exact);
    ScalingRounds(amount.minor, f, exact);
  }

  lemma ScalingRounds(minor: int, f: real, exact: real)
    requires exact == minor as real * f
    ensures Ceil(exact) == ScaledUp(minor, f) && Floor(exact) == ScaledDown(minor, f)
  {
  }

  lemma ConvertFromBase(q: ConversionQuote, amount: Money)
    requires amount.currency == q.base
    ensures ConvertCost(q, amount) == Ok(Money(ScaledUp(amount.minor, Factor(q)), q.quote, amount.balance))
    ensures ConvertProceeds(q, amount) == Ok(Money(ScaledDown(amount.minor, Factor(q)), q.quote, amount.balance))
  {
    ExactIsFactor(q, amount.minor);
    ScaledOnce(q, amount, Exact(q, amount.minor, q.base), Factor(q));
  }

  lemma ConvertFromQuote(q: ConversionQuote, amount: Money)
    requires amount.currency == q.quote
    ensures ConvertCost(q, amount) == Ok(Money(DividedUp(amount.minor, Factor(q)), q.base, amount.balance))
    ensures ConvertProceeds(q, amount) == Ok(Money(DividedDown(amount.minor, Factor(q)), q.base, amount.balance))
  {
    ExactIsFactor(q, amount.minor);
    RoundedOnce(q, amount, amount.minor as real / Factor(q));
  }

  /**
   A round trip never flatters: paying for what a cost converts to brings back at least the cost, and what
   proceeds convert to costs no more than the proceeds.  In both directions of the pair, negative amounts included.
   */
  lemma RoundTrip(q: ConversionQuote, amount: Money)
    requires Covers(q, amount.currency)
    ensures var paid := ConvertCost(q, amount).value;
            var back := ConvertProceeds(q, paid);
            back.Ok? && back.value.currency == amount.currency && back.value.minor >= amount.minor
    ensures var received := ConvertProceeds(q, amount).value;
            var cost := ConvertCost(q, received);
            cost.Ok? && cost.value.currency == amount.currency && cost.value.minor <= amount.minor
  {
    var x, f := amount.minor, Factor(q);
    ThereAndBack(x, f);
    if amount.currency == q.base {
      ConvertFromBase(q, amount);
      ConvertFromQuote(q, ConvertCost(q, amount).value);
      ConvertFromQuote(q, ConvertProceeds(q, amount).value);
    } else {
      ConvertFromQuote(q, amount);
      ConvertFromBase(q, ConvertCost(q, amount).value);
      ConvertFromBase(q, ConvertProceeds(q, amount).value);
    }
  }

  /** The rate prices whole base units in whole quote units, and back, whatever the two currencies' minor units. */
  lemma RateIsMajorPerMajor(q: ConversionQuote, n: int)
    ensures Exact(q, n * Scale(q.base), q.base) == n as real * q.rate * Scale(q.quote) as real
    ensures Exact(q, n * Scale(q.quote), q.quote) * q.rate == n as real * Scale(q.base) as real
  {
    var s, t := Scale(q.quote) as real, Scale(q.base) as real;
    assert (n * Scale(q.base)) as real == n as real * t && (n * Scale(q.quote)) as real == n as real * s;
    BaseUnits(n as real, q.rate, s, t);
    QuoteUnits(n as real, q.rate, s, t);
  }

  lemma BaseUnits(n: real, r: real, s: real, t: real)
    requires t > 0.0
    ensures n * t * r * (s / t) == n * r * s
  {
    assert s / t * t == s;
    assert n * t * r * (s / t) == n * r * (s / t * t);
  }

  lemma QuoteUnits(n: real, r: real, s: real, t: real)
    requires r > 0.0 && s > 0.0
    ensures n * s * t / s / r * r == n * t
  {
    var x := n * s * t / s;
    assert x * s == n * s * t;
    QuotientUnique(n * t * s, s, n * t);
    assert x == n * t;
  }

  /** An amount that is whole in both currencies is not rounded down past the rate, nor up beyond it. */
  lemma WholeAmount(q: ConversionQuote, amount: Money, n: int)
    requires amount.currency == q.base && amount.minor == n * Scale(q.base)
    ensures ConvertProceeds(q, amount)
         == Ok(Money(Floor(n as real * q.rate * Scale(q.quote) as real), q.quote, amount.balance))
    ensures ConvertCost(q, amount)
         == Ok(Money(Ceil(n as real * q.rate * Scale(q.quote) as real), q.quote, amount.balance))
  {
    RateIsMajorPerMajor(q, n);
    RoundedOnce(q, amount, n as real * q.rate * Scale(q.quote) as real);
  }

  /** One bitcoin is 100 000 000 satoshi, one ether 10^18 wei, one tether a million micro-units, the rest 100 cents. */
  ghost predicate IsOneUnit(c: Currency, minor: int) {
    match c
    case BTC => minor == 100000000
    case ETH => minor == 1000000000000000000
    case USDT => minor == 1000000
    case _ => minor == 100
  }

  /** One whole unit converts at the rate itself, in minor units of the other currency: down, or up as a cost. */
  lemma OneUnitConvertsAtTheRate(q: ConversionQuote, one: Money, quoteUnit: int)
    requires one.currency == q.base && IsOneUnit(q.base, one.minor) && IsOneUnit(q.quote, quoteUnit)
    ensures ConvertProceeds(q, one) == Ok(Money(Floor(q.rate * quoteUnit as real), q.quote, one.balance))
    ensures ConvertCost(q, one) == Ok(Money(Ceil(q.rate * quoteUnit as real), q.quote, one.balance))
  {
    WholeAmount(q, one, 1);
    assert 1 as real * q.rate * quoteUnit as real == q.rate * quoteUnit as real;
  }
}
