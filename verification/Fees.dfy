/** Fee rules and their lookup, which fails closed (src/tradeup/domain/fees.py). */
module Fees {
  import opened Rounding
  import opened Wrappers

  datatype Currency = USD | EUR | GBP | BTC | ETH | USDT

  datatype BalanceType = CashWithdrawable | VenueReusableBalance | SteamWallet | NonWithdrawableCredit

  datatype FeeOperation =
    Purchase | Deposit | Sale | Withdrawal | FxConversion | NetworkTransfer | PaymentSurcharge

  datatype Money = Money(minor: int, currency: Currency, balance: BalanceType)

  /** One tier of one venue's fee; venues and rule ids are opaque, moments are integers. */
  datatype Rule = Rule(
    venue: int,
    operation: FeeOperation,
    balance: BalanceType,
    currency: Currency,
    percentage: real,
    fixedMinor: int,
    effectiveFrom: int,
    effectiveUntil: Option<int>,
    tierLower: int,
    tierUpper: Option<int>,
    minimumFee: Option<int>,
    maximumFee: Option<int>)

  /** What the rule's constructor insists on. */
  predicate WellFormed(r: Rule) {
    && r.percentage >= 0.0 && r.fixedMinor >= 0
    && (r.effectiveUntil.Some? ==> r.effectiveFrom < r.effectiveUntil.value)
    && (r.tierUpper.Some? ==> r.tierLower < r.tierUpper.value)
  }

  type FeeRule = r: Rule | WellFormed(r)
    witness Rule(0, Purchase, CashWithdrawable, USD, 0.0, 0, 0, None, 0, None, None, None)

  datatype FeeError = UnknownFee | AmbiguousFee | NegativeFee

  function Abs(n: int): nat {
    if n < 0 then -n else n
  }

  predicate CoversTime(r: FeeRule, moment: int) {
    r.effectiveFrom <= moment && (r.effectiveUntil.None? || moment < r.effectiveUntil.value)
  }

  /** The lower tier bound is inclusive, the upper one exclusive. */
  predicate CoversAmount(r: FeeRule, minor: int) {
    r.tierLower <= Abs(minor) && (r.tierUpper.None? || Abs(minor) < r.tierUpper.value)
  }

  /** Everything but the amount. */
  predicate Applies(r: FeeRule, venue: int, op: FeeOperation, currency: Currency, balance: BalanceType, moment: int) {
    r.venue == venue && r.operation == op && r.balance == balance && r.currency == currency && CoversTime(r, moment)
  }

  predicate Matches(r: FeeRule, venue: int, op: FeeOperation, basis: Money, moment: int) {
    Applies(r, venue, op, basis.currency, basis.balance, moment) && CoversAmount(r, basis.minor)
  }

  function AtLeast(fee: int, bound: Option<int>): int {
    if bound.Some? && fee < bound.value then bound.value else fee
  }

  function AtMost(fee: int, bound: Option<int>): int {
    if bound.Some? && fee > bound.value then bound.value else fee
  }

  /** The fee on an amount, rounded up and then clamped. */
  function Fee(r: FeeRule, minor: int): int {
    AtMost(AtLeast(ScaledUp(Abs(minor), r.percentage) + r.fixedMinor, r.minimumFee), r.maximumFee)
  }

  /** `FeeRule.quote`: a negative fee is refused. */
  function RuleQuote(r: FeeRule, minor: int): Result<int, FeeError> {
    if Fee(r, minor) < 0 then Err(NegativeFee) else Ok(Fee(r, minor))
  }

  predicate CappedBelowZero(r: FeeRule) {
    r.maximumFee.Some? && r.maximumFee.value < 0
  }

  /** Only a negative maximum can make a fee negative, and then it does so on every amount. */
  lemma NegativeFeeIsNegativeCap(r: FeeRule, minor: int)
    ensures Fee(r, minor) < 0 <==> CappedBelowZero(r)
  {
    ScaledUpNonNegative(Abs(minor), r.percentage);
  }

  /**
   The fee covers the rate by less than one unit, except where a clamp decides it; the maximum wins over the minimum.
   */
  lemma FeeCoversTheRate(r: FeeRule, minor: int)
    ensures var exact := Abs(minor) as real * r.percentage + r.fixedMinor as real;
            && (Fee(r, minor) as real < exact ==> r.maximumFee == Option.Some(Fee(r, minor)))
            && (Fee(r, minor) as real >= exact + 1.0 ==> r.minimumFee.Some? && Fee(r, minor) <= r.minimumFee.value)
    ensures r.maximumFee.Some? ==> Fee(r, minor) <= r.maximumFee.value
    ensures r.minimumFee.Some? && Fee(r, minor) < r.minimumFee.value ==> r.maximumFee == Option.Some(Fee(r, minor))
  {
  }

  lemma FeeMonotone(r: FeeRule, a: nat, b: nat)
    requires a <= b
    ensures Fee(r, a) <= Fee(r, b)
  {
    ScaledUpMonotone(a, b, r.percentage);
  }

  // ----- the schedule

  function Filter<T(!new)>(keep: T -> bool, s: seq<T>): (r: seq<T>)
    ensures forall x :: x in r <==> x in s && keep(x)
  {
    if s == [] then []
    else if keep(s[0]) then [s[0]] + Filter(keep, s[1..])
    else Filter(keep, s[1..])
  }

  /** Whose fee, for what, on which amount. */
  datatype Lookup = Lookup(venue: int, op: FeeOperation, basis: Money)

  function Matching(l: Lookup, moment: int): FeeRule -> bool {
    (r: FeeRule) => Matches(r, l.venue, l.op, l.basis, moment)
  }

  function MatchingRules(rules: seq<FeeRule>, venue: int, op: FeeOperation, basis: Money, moment: int): seq<FeeRule> {
    Filter(Matching(Lookup(venue, op, basis), moment), rules)
  }

  /** `FeeSchedule.quote`: exactly one rule must match. */
  function ScheduleQuote(rules: seq<FeeRule>, venue: int, op: FeeOperation, basis: Money, moment: int)
      : Result<int, FeeError>
  {
    var matches := MatchingRules(rules, venue, op, basis, moment);
    if matches == [] then Err(UnknownFee)
    else if |matches| > 1 then Err(AmbiguousFee)
    else RuleQuote(matches[0], basis.minor)
  }

  // ----- what a lookup answers

  ghost predicate Only<T(!new)>(keep: T -> bool, s: seq<T>, i: int) {
    0 <= i < |s| && keep(s[i]) && forall j | 0 <= j < |s| && j != i :: !keep(s[j])
  }

  ghost predicate Two<T(!new)>(keep: T -> bool, s: seq<T>) {
    exists i, j :: 0 <= i < j < |s| && keep(s[i]) && keep(s[j])
  }

  lemma {:induction false} FilterPositions<T(!new)>(keep: T -> bool, s: seq<T>)
    ensures Filter(keep, s) == [] <==> forall i | 0 <= i < |s| :: !keep(s[i])
    ensures |Filter(keep, s)| == 1 ==> exists i :: Only(keep, s, i) && s[i] == Filter(keep, s)[0]
    ensures |Filter(keep, s)| > 1 ==> Two(keep, s)
  {
    if s != [] {
      FilterPositions(keep, s[1..]);
      if keep(s[0]) {
        KeptHead(keep, s);
      } else {
        DroppedHead(keep, s);
      }
    }
  }

  lemma KeptHead<T(!new)>(keep: T -> bool, s: seq<T>)
    requires s != [] && keep(s[0])
    requires Filter(keep, s[1..]) == [] <==> forall i | 0 <= i < |s[1..]| :: !keep(s[1..][i])
    ensures Filter(keep, s[1..]) == [] ==> Only(keep, s, 0)
    ensures Filter(keep, s[1..]) != [] ==> Two(keep, s)
  {
    var rest := s[1..];
    assert forall j | 1 <= j < |s| :: s[j] == rest[j - 1];
    if Filter(keep, rest) != [] {
      var j :| 0 <= j < |rest| && keep(rest[j]);
      assert keep(s[0]) && keep(s[j + 1]);
    }
  }

  lemma DroppedHead<T(!new)>(keep: T -> bool, s: seq<T>)
    requires s != [] && !keep(s[0])
    ensures (forall i | 0 <= i < |s| :: !keep(s[i])) <==> forall i | 0 <= i < |s[1..]| :: !keep(s[1..][i])
    ensures forall i :: Only(keep, s[1..], i) ==> Only(keep, s, i + 1) && s[i + 1] == s[1..][i]
    ensures Two(keep, s[1..]) ==> Two(keep, s)
  {
    var rest := s[1..];
    assert forall i | 0 <= i < |rest| :: rest[i] == s[i + 1];
    assert forall j | 1 <= j < |s| :: s[j] == rest[j - 1];
    if Two(keep, rest) {
      var i, j :| 0 <= i < j < |rest| && keep(rest[i]) && keep(rest[j]);
      assert keep(s[i + 1]) && keep(s[j + 1]);
    }
  }

  // ----- field by field

  /** The rule is for this venue, operation, balance type and currency, in force now, and its tier holds the amount. */
  ghost predicate AgreesWith(r: FeeRule, l: Lookup, moment: int) {
    var amount := if l.basis.minor < 0 then -l.basis.minor else l.basis.minor;
    && r.venue == l.venue && r.operation == l.op
    && r.balance == l.basis.balance && r.currency == l.basis.currency
    && r.effectiveFrom <= moment && (r.effectiveUntil.Some? ==> moment < r.effectiveUntil.value)
    && r.tierLower <= amount && (r.tierUpper.Some? ==> amount < r.tierUpper.value)
  }

  /** The fee of one rule, from its fields: the rate rounded up and the fixed part, no less than the minimum, capped. */
  ghost predicate IsFeeOf(r: FeeRule, minor: int, fee: int) {
    var amount := if minor < 0 then -minor else minor;
    IsClamped(fee, ScaledUp(amount, r.percentage) + r.fixedMinor, r.minimumFee, r.maximumFee)
  }

  ghost predicate IsClamped(fee: int, raw: int, minimum: Option<int>, maximum: Option<int>) {
    var floored := if minimum.Some? && minimum.value > raw then minimum.value else raw;
    fee == if maximum.Some? && maximum.value < floored then maximum.value else floored
  }

  lemma ClampsOnce(fee: int, raw: int, minimum: Option<int>, maximum: Option<int>)
    ensures IsClamped(fee, raw, minimum, maximum) <==> fee == AtMost(AtLeast(raw, minimum), maximum)
  {
  }

  /** `AgreesWith` as a test of rules. */
  ghost function Agreeing(l: Lookup, moment: int): FeeRule -> bool {
    (r: FeeRule) => AgreesWith(r, l, moment)
  }

  lemma AgreeingRulesMatch(r: FeeRule, l: Lookup, moment: int)
    ensures Matching(l, moment)(r) <==> AgreesWith(r, l, moment)
  {
  }

  lemma FeeFromFields(r: FeeRule, minor: int, fee: int)
    ensures IsFeeOf(r, minor, fee) <==> fee == Fee(r, minor)
  {
    var amount := if minor < 0 then -minor else minor;
    assert Abs(minor) == amount;
    ClampsOnce(fee, ScaledUp(amount, r.percentage) + r.fixedMinor, r.minimumFee, r.maximumFee);
  }

  /**
   The answer a lookup deserves, in the fields of the rules: the fee of the only rule that agrees with it, or the
   reason there is none.  Two entries of the schedule are ambiguous even when they are equal, and a rule with a
   negative maximum charges nothing at all.
   */
  ghost predicate Answers(rules: seq<FeeRule>, l: Lookup, moment: int, r: Result<int, FeeError>) {
    match r
    case Ok(fee) => exists i :: Only(Agreeing(l, moment), rules, i) && IsFeeOf(rules[i], l.basis.minor, fee) && fee >= 0
    case Err(UnknownFee) => forall i | 0 <= i < |rules| :: !AgreesWith(rules[i], l, moment)
    case Err(AmbiguousFee) => Two(Agreeing(l, moment), rules)
    case Err(NegativeFee) =>
      exists i :: Only(Agreeing(l, moment), rules, i) && rules[i].maximumFee.Some? && rules[i].maximumFee.value < 0
  }

  lemma {:induction false} FilterSame<T(!new)>(p: T -> bool, p': T -> bool, s: seq<T>)
    requires forall x | x in s :: p(x) == p'(x)
    ensures Filter(p, s) == Filter(p', s)
  {
    if s != [] {
      FilterSame(p, p', s[1..]);
    }
  }

  /** The matching rules are those that agree. */
  lemma MatchingIsAgreeing(rules: seq<FeeRule>, l: Lookup, moment: int)
    ensures MatchingRules(rules, l.venue, l.op, l.basis, moment) == Filter(Agreeing(l, moment), rules)
  {
    forall r | r in rules ensures Matching(l, moment)(r) == Agreeing(l, moment)(r) {
      AgreeingRulesMatch(r, l, moment);
    }
    FilterSame(Matching(l, moment), Agreeing(l, moment), rules);
  }

  lemma QuoteOfOnly(r: FeeRule, minor: int)
    ensures RuleQuote(r, minor) == Err(NegativeFee) <==> r.maximumFee.Some? && r.maximumFee.value < 0
    ensures forall fee :: RuleQuote(r, minor) == Ok(fee) <==> IsFeeOf(r, minor, fee) && fee >= 0
  {
    forall fee ensures IsFeeOf(r, minor, fee) <==> fee == Fee(r, minor) { FeeFromFields(r, minor, fee); }
    NegativeFeeIsNegativeCap(r, minor);
  }

  /** `FeeSchedule.quote` gives exactly the answer deserved. */
  lemma ScheduleAnswersExactly(rules: seq<FeeRule>, l: Lookup, moment: int, r: Result<int, FeeError>)
    ensures ScheduleQuote(rules, l.venue, l.op, l.basis, moment) == r <==> Answers(rules, l, moment, r)
  {
    var keep := Agreeing(l, moment);
    var matches := Filter(keep, rules);
    MatchingIsAgreeing(rules, l, moment);
    FilterPositions(keep, rules);
    if |matches| == 1 {
      var i :| Only(keep, rules, i) && rules[i] == matches[0];
      QuoteOfOnly(rules[i], l.basis.minor);
    }
  }

  // ----- one rule more

  lemma {:induction false} FilterAppend<T(!new)>(keep: T -> bool, a: seq<T>, b: seq<T>)
    ensures Filter(keep, a + b) == Filter(keep, a) + Filter(keep, b)
  {
    if a == [] {
      assert a + b == b;
    } else {
      assert (a + b)[1..] == a[1..] + b;
      FilterAppend(keep, a[1..], b);
    }
  }

  lemma FilterInserted<T(!new)>(keep: T -> bool, a: seq<T>, x: T, b: seq<T>)
    ensures Filter(keep, a + [x] + b) == Filter(keep, a) + (if keep(x) then [x] else []) + Filter(keep, b)
    ensures Filter(keep, a + b) == Filter(keep, a) + Filter(keep, b)
  {
    FilterAppend(keep, a + [x], b);
    FilterAppend(keep, a, [x]);
    FilterAppend(keep, a, b);
    assert [x][1..] == [] && Filter(keep, [x]) == if keep(x) then [x] else [];
  }

  /** The quote, given the matching rules. */
  ghost function QuoteOfMatches(matches: seq<FeeRule>, minor: int): Result<int, FeeError> {
    if matches == [] then Err(UnknownFee)
    else if |matches| > 1 then Err(AmbiguousFee)
    else RuleQuote(matches[0], minor)
  }

  lemma OneMoreMatch(a: seq<FeeRule>, r: FeeRule, b: seq<FeeRule>, minor: int)
    ensures QuoteOfMatches(a + b, minor) != Err(UnknownFee) ==> QuoteOfMatches(a + [r] + b, minor) == Err(AmbiguousFee)
    ensures QuoteOfMatches(a + b, minor) == Err(UnknownFee) ==>
      QuoteOfMatches(a + [r] + b, minor) == RuleQuote(r, minor)
  {
  }

  lemma QuoteIsOfMatches(rules: seq<FeeRule>, l: Lookup, moment: int)
    ensures ScheduleQuote(rules, l.venue, l.op, l.basis, moment)
         == QuoteOfMatches(Filter(Agreeing(l, moment), rules), l.basis.minor)
  {
    MatchingIsAgreeing(rules, l, moment);
  }

  /** A rule that differs in venue, operation, balance type, currency, time window or tier changes no quote. */
  lemma UnrelatedRule(earlier: seq<FeeRule>, r: FeeRule, later: seq<FeeRule>, l: Lookup, moment: int)
    requires !AgreesWith(r, l, moment)
    ensures ScheduleQuote(earlier + [r] + later, l.venue, l.op, l.basis, moment)
         == ScheduleQuote(earlier + later, l.venue, l.op, l.basis, moment)
  {
    var keep := Agreeing(l, moment);
    FilterInserted(keep, earlier, r, later);
    assert Filter(keep, earlier) + [] + Filter(keep, later) == Filter(keep, earlier + later);
    QuoteIsOfMatches(earlier + [r] + later, l, moment);
    QuoteIsOfMatches(earlier + later, l, moment);
  }

  /**
   A rule that agrees in all of these answers an unknown lookup with its own fee, which is refused exactly when its
   maximum is negative, and makes every other lookup ambiguous.
   */
  lemma AgreeingRule(earlier: seq<FeeRule>, r: FeeRule, later: seq<FeeRule>, l: Lookup, moment: int)
    requires AgreesWith(r, l, moment)
    ensures var before := ScheduleQuote(earlier + later, l.venue, l.op, l.basis, moment);
            var after := ScheduleQuote(earlier + [r] + later, l.venue, l.op, l.basis, moment);
            if before != Err(UnknownFee) then after == Err(AmbiguousFee)
            else if r.maximumFee.Some? && r.maximumFee.value < 0 then after == Err(NegativeFee)
            else after.Ok? && after.value >= 0 && IsFeeOf(r, l.basis.minor, after.value)
  {
    var keep := Agreeing(l, moment);
    FilterInserted(keep, earlier, r, later);
    OneMoreMatch(Filter(keep, earlier), r, Filter(keep, later), l.basis.minor);
    QuoteIsOfMatches(earlier + [r] + later, l, moment);
    QuoteIsOfMatches(earlier + later, l, moment);
    QuoteOfOnly(r, l.basis.minor);
  }
}
