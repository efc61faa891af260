/**
 The largest affordable sticker price under a tiered fee schedule (src/tradeup/valuation/entry_targets.py,
 `max_sticker_price`).
 */
module StickerPrice {
  import opened EntryTargets
  import opened Fees
  import opened Rounding
  import opened Sorting
  import opened Wrappers

  /** Who is buying, where, when and with what: everything about a request but the sticker and the operation. */
  datatype Request = Request(rules: seq<FeeRule>, venue: int, currency: Currency, balance: BalanceType, moment: int)

  /** How the operations resolve at one sticker. */
  datatype Coverage = Ambiguous | Uncovered | Covered(rules: seq<FeeRule>)

  /** The rules that could apply to an operation at some amount. */
  function Candidates(q: Request, op: FeeOperation): seq<FeeRule> {
    Filter((r: FeeRule) => Applies(r, q.venue, op, q.currency, q.balance, q.moment), q.rules)
  }

  /** Those of them whose tier holds the sticker. */
  function Matched(q: Request, op: FeeOperation, sticker: int): seq<FeeRule> {
    Filter((r: FeeRule) => CoversAmount(r, sticker), Candidates(q, op))
  }

  /** Operations are resolved in order; the first one not resolving to a single rule decides. */
  function Resolve(q: Request, ops: seq<FeeOperation>, sticker: int): Coverage {
    if ops == [] then Covered([])
    else
      var matched := Matched(q, ops[|ops| - 1], sticker);
      match Resolve(q, ops[..|ops| - 1], sticker)
      case Ambiguous => Ambiguous
      case Uncovered => Uncovered
      case Covered(earlier) =>
        if |matched| > 1 then Ambiguous
        else if matched == [] then Uncovered
        else Covered(earlier + [matched[0]])
  }

  function FeeTotal(rules: seq<FeeRule>, sticker: int): int {
    if rules == [] then 0 else FeeTotal(rules[..|rules| - 1], sticker) + Fee(rules[|rules| - 1], sticker)
  }

  /** Sticker plus every resolved fee. */
  function LoadedCost(rules: seq<FeeRule>, sticker: int): int {
    sticker + FeeTotal(rules, sticker)
  }

  /** Quoting a rule with a negative maximum raises. */
  predicate SomeNegative(rules: seq<FeeRule>) {
    exists r | r in rules :: CappedBelowZero(r)
  }

  /** What trying a sticker comes to. */
  datatype Probe = Fault(error: FeeError) | Skipped | Priced(cost: int)

  function Try(q: Request, ops: seq<FeeOperation>, sticker: int): Probe {
    SegmentTry(Resolve(q, ops, sticker), sticker)
  }

  function SegmentTry(coverage: Coverage, sticker: int): Probe {
    match coverage
    case Ambiguous => Fault(AmbiguousFee)
    case Uncovered => Skipped
    case Covered(rules) => if SomeNegative(rules) then Fault(NegativeFee) else Priced(LoadedCost(rules, sticker))
  }

  predicate Affordable(q: Request, ops: seq<FeeOperation>, cap: int, sticker: int) {
    Try(q, ops, sticker).Priced? && Try(q, ops, sticker).cost <= cap
  }

  const HalfBelow100: FeeRule :=
    Rule(1, Purchase, CashWithdrawable, USD, 0.5, 0, 0, None, 0, Option.Some(100), None, None)

  const FreeFrom100: FeeRule :=
    Rule(1, Purchase, CashWithdrawable, USD, 0.0, 0, 0, None, 100, None, None, None)

  const TwoTiers: Request := Request([HalfBelow100, FreeFrom100], 1, USD, CashWithdrawable, 0)

  /** The greatest affordable sticker is no threshold: a sticker below it, in a dearer tier, can be out of reach. */
  lemma AffordabilityIsNotMonotone()
    ensures !Affordable(TwoTiers, [Purchase], 120, 99) && Affordable(TwoTiers, [Purchase], 120, 100)
  {
    FilterPair<FeeRule>((r: FeeRule) => Applies(r, 1, Purchase, USD, CashWithdrawable, 0), HalfBelow100, FreeFrom100);
    assert Candidates(TwoTiers, Purchase) == [HalfBelow100, FreeFrom100];
    FilterPair<FeeRule>((r: FeeRule) => CoversAmount(r, 99), HalfBelow100, FreeFrom100);
    FilterPair<FeeRule>((r: FeeRule) => CoversAmount(r, 100), HalfBelow100, FreeFrom100);
    OneRule(TwoTiers, 99, HalfBelow100);
    OneRule(TwoTiers, 100, FreeFrom100);
    CeilLeast(99 as real * 0.5, 49);
    CeilLeast(100 as real * 0.0, 0);
  }

  lemma OneRule(q: Request, sticker: int, r: FeeRule)
    requires Matched(q, Purchase, sticker) == [r] && r.maximumFee.None?
    ensures Try(q, [Purchase], sticker) == Priced(sticker + Fee(r, sticker))
  {
    assert [Purchase][..0] == [] && [r][..0] == [];
    assert Resolve(q, [], sticker) == Covered([]);
    assert Resolve(q, [Purchase], sticker) == Covered([] + [r]);
    assert [] + [r] == [r];
    assert FeeTotal([], sticker) == 0;
  }

  lemma FilterPair<T(!new)>(p: T -> bool, a: T, b: T)
    ensures Filter(p, [a, b]) == (if p(a) then [a] else []) + (if p(b) then [b] else [])
  {
    assert [a, b][1..] == [b] && [b][1..] == [];
    assert Filter(p, [b]) == if p(b) then [b] else [];
    assert Filter(p, [a, b]) == if p(a) then [a] + Filter(p, [b]) else Filter(p, [b]);
  }

  // ----- agreement with `FeeSchedule.quote`

  lemma {:induction false} FilterTwice<T(!new)>(p: T -> bool, p': T -> bool, both: T -> bool, s: seq<T>)
    requires forall x | x in s :: both(x) == (p(x) && p'(x))
    ensures Filter(p', Filter(p, s)) == Filter(both, s)
  {
    if s != [] {
      FilterTwice(p, p', both, s[1..]);
      var kept := Filter(p, s[1..]);
      if p(s[0]) {
        assert ([s[0]] + kept)[1..] == kept;
      }
    }
  }

  lemma MatchedIsMatching(q: Request, op: FeeOperation, sticker: int)
    ensures Matched(q, op, sticker)
         == MatchingRules(q.rules, q.venue, op, Money(sticker, q.currency, q.balance), q.moment)
  {
    var basis := Money(sticker, q.currency, q.balance);
    FilterTwice((r: FeeRule) => Applies(r, q.venue, op, q.currency, q.balance, q.moment),
                (r: FeeRule) => CoversAmount(r, sticker),
                Matching(Lookup(q.venue, op, basis), q.moment), q.rules);
  }

  function Quote(q: Request, op: FeeOperation, sticker: int): Result<int, FeeError> {
    ScheduleQuote(q.rules, q.venue, op, Money(sticker, q.currency, q.balance), q.moment)
  }

  /** The sum of the schedule's own quotes, when every operation gets one. */
  function QuotedFees(q: Request, ops: seq<FeeOperation>, sticker: int): Option<int> {
    if ops == [] then Option.Some(0)
    else
      var earlier := QuotedFees(q, ops[..|ops| - 1], sticker);
      var last := Quote(q, ops[|ops| - 1], sticker);
      if earlier.Some? && last.Ok? then Option.Some(earlier.value + last.value) else None
  }

  /** A sticker is priced exactly when the schedule quotes every operation on it, and then at their sum. */
  lemma {:induction false} PricedIsQuoted(q: Request, ops: seq<FeeOperation>, sticker: int)
    ensures Try(q, ops, sticker).Priced? <==> QuotedFees(q, ops, sticker).Some?
    ensures Try(q, ops, sticker).Priced? ==> Try(q, ops, sticker).cost == sticker + QuotedFees(q, ops, sticker).value
  {
    if ops != [] {
      var init, op := ops[..|ops| - 1], ops[|ops| - 1];
      PricedIsQuoted(q, init, sticker);
      MatchedIsMatching(q, op, sticker);
      var matched := Matched(q, op, sticker);
      var resolved := Resolve(q, init, sticker);
      if resolved.Covered? && |matched| == 1 {
        NegativeFeeIsNegativeCap(matched[0], sticker);
        var rules := resolved.rules + [matched[0]];
        assert rules[..|rules| - 1] == resolved.rules;
        assert SomeNegative(rules) <==> SomeNegative(resolved.rules) || Fee(matched[0], sticker) < 0 by {
          assert matched[0] in rules;
          assert forall r :: r in rules <==> r in resolved.rules || r == matched[0];
        }
      }
    }
  }

  // ----- which rules count

  lemma MatchedAgree(q: Request, op: FeeOperation, sticker: int)
    ensures Matched(q, op, sticker)
         == Filter(Agreeing(Lookup(q.venue, op, Money(sticker, q.currency, q.balance)), q.moment), q.rules)
  {
    MatchedIsMatching(q, op, sticker);
    MatchingIsAgreeing(q.rules, Lookup(q.venue, op, Money(sticker, q.currency, q.balance)), q.moment);
  }

  /** The rule bears on this operation at this sticker. */
  ghost predicate Bears(r: FeeRule, q: Request, op: FeeOperation, sticker: int) {
    AgreesWith(r, Lookup(q.venue, op, Money(sticker, q.currency, q.balance)), q.moment)
  }

  lemma MatchedWithOneMore(q: Request, q': Request, earlier: seq<FeeRule>, r: FeeRule, later: seq<FeeRule>,
                           op: FeeOperation, sticker: int)
    requires q.rules == earlier + later && q' == q.(rules := earlier + [r] + later)
    ensures !Bears(r, q, op, sticker) ==> Matched(q', op, sticker) == Matched(q, op, sticker)
    ensures Bears(r, q, op, sticker) ==> |Matched(q', op, sticker)| == |Matched(q, op, sticker)| + 1
  {
    MatchedAgree(q, op, sticker);
    MatchedAgree(q', op, sticker);
    var keep := Agreeing(Lookup(q.venue, op, Money(sticker, q.currency, q.balance)), q.moment);
    FilterInserted(keep, earlier, r, later);
    assert Filter(keep, earlier) + [] == Filter(keep, earlier);
  }

  /** A rule that bears on none of the operations changes nothing about a sticker. */
  lemma {:induction false} UnrelatedRuleKeepsSticker(q: Request, q': Request, earlier: seq<FeeRule>, r: FeeRule,
                                                     later: seq<FeeRule>, ops: seq<FeeOperation>, sticker: int)
    requires q.rules == earlier + later && q' == q.(rules := earlier + [r] + later)
    requires forall op | op in ops :: !Bears(r, q, op, sticker)
    ensures Resolve(q', ops, sticker) == Resolve(q, ops, sticker) && Try(q', ops, sticker) == Try(q, ops, sticker)
  {
    if ops != [] {
      var n := |ops| - 1;
      assert ops[n] in ops && forall op | op in ops[..n] :: op in ops;
      UnrelatedRuleKeepsSticker(q, q', earlier, r, later, ops[..n], sticker);
      MatchedWithOneMore(q, q', earlier, r, later, ops[n], sticker);
    }
  }

  /** A second rule that bears on an operation makes a priced sticker ambiguous. */
  lemma {:induction false} SecondRuleIsAmbiguous(q: Request, q': Request, earlier: seq<FeeRule>, r: FeeRule,
                                                 later: seq<FeeRule>, ops: seq<FeeOperation>, sticker: int)
    requires q.rules == earlier + later && q' == q.(rules := earlier + [r] + later)
    requires Resolve(q, ops, sticker).Covered? && exists op | op in ops :: Bears(r, q, op, sticker)
    ensures Try(q', ops, sticker) == Fault(AmbiguousFee)
  {
    var n := |ops| - 1;
    assert ops == ops[..n] + [ops[n]];
    MatchedWithOneMore(q, q', earlier, r, later, ops[n], sticker);
    if exists op | op in ops[..n] :: Bears(r, q, op, sticker) {
      SecondRuleIsAmbiguous(q, q', earlier, r, later, ops[..n], sticker);
    } else {
      UnrelatedRuleKeepsSticker(q, q', earlier, r, later, ops[..n], sticker);
    }
  }

  // ----- within a segment nothing changes but the cost, and that strictly rises

  /** The two stickers lie in the same tiers of every candidate rule. */
  ghost predicate SameTiers(q: Request, ops: seq<FeeOperation>, s: int, t: int) {
    forall op, r | op in ops && r in Candidates(q, op) :: CoversAmount(r, s) == CoversAmount(r, t)
  }

  lemma {:induction false} SameResolution(q: Request, ops: seq<FeeOperation>, s: int, t: int)
    requires SameTiers(q, ops, s, t)
    ensures Resolve(q, ops, s) == Resolve(q, ops, t)
  {
    if ops != [] {
      var op := ops[|ops| - 1];
      SameResolution(q, ops[..|ops| - 1], s, t);
      FilterSame((r: FeeRule) => CoversAmount(r, s), (r: FeeRule) => CoversAmount(r, t), Candidates(q, op));
    }
  }

  lemma {:induction false} FeesRise(rules: seq<FeeRule>, s: nat, t: nat)
    requires s <= t
    ensures FeeTotal(rules, s) <= FeeTotal(rules, t)
  {
    if rules != [] {
      FeesRise(rules[..|rules| - 1], s, t);
      FeeMonotone(rules[|rules| - 1], s, t);
    }
  }

  lemma CostRises(rules: seq<FeeRule>, s: nat, t: nat)
    requires s < t
    ensures LoadedCost(rules, s) < LoadedCost(rules, t)
  {
    FeesRise(rules, s, t);
  }

  // ----- cutting the sticker range at every tier edge

  function RuleEdges(r: FeeRule): set<int> {
    {if r.tierLower < 1 then 1 else r.tierLower} + if r.tierUpper.Some? then {r.tierUpper.value} else {}
  }

  ghost function EdgesOf(rules: seq<FeeRule>): set<int> {
    set r, e | r in rules && e in RuleEdges(r) :: e
  }

  ghost function Edges(q: Request, ops: seq<FeeOperation>): set<int> {
    set op, e | op in ops && e in EdgesOf(Candidates(q, op)) :: e
  }

  method AddEdges(before: set<int>, rules: seq<FeeRule>) returns (boundaries: set<int>)
    ensures boundaries == before + EdgesOf(rules)
  {
    boundaries := before;
    for i := 0 to |rules|
      invariant boundaries == before + EdgesOf(rules[..i])
    {
      PrefixStep(rules, i);
      boundaries := boundaries + RuleEdges(rules[i]);
      OneMoreRule(rules[..i], rules[i]);
    }
    WholePrefix(rules);
  }

  lemma OneMoreRule(rules: seq<FeeRule>, r: FeeRule)
    ensures EdgesOf(rules + [r]) == EdgesOf(rules) + RuleEdges(r)
  {
  }

  lemma OneMoreOperation(q: Request, ops: seq<FeeOperation>, op: FeeOperation)
    ensures Edges(q, ops + [op]) == Edges(q, ops) + EdgesOf(Candidates(q, op))
  {
  }

  /** Ascending points from 1 to `cap + 1` with every tier edge in between among them. */
  ghost predicate CutsAt(points: seq<int>, edges: set<int>, cap: int) {
    && |points| >= 2 && Ascending(points)
    && points[0] == 1 && points[|points| - 1] == cap + 1
    && (forall i, e | 0 <= i < |points| - 1 && e in edges :: !(points[i] < e < points[i + 1]))
  }

  method TierPoints(q: Request, ops: seq<FeeOperation>, cap: int) returns (points: seq<int>)
    requires cap >= 1
    ensures CutsAt(points, Edges(q, ops), cap)
  {
    var boundaries := AllEdges(q, ops, cap);
    points := SortedKeys(set b | b in boundaries && 1 <= b <= cap + 1);
    SortedEdgesCut(points, boundaries, Edges(q, ops), cap);
  }

  lemma SortedEdgesCut(points: seq<int>, boundaries: set<int>, edges: set<int>, cap: int)
    requires cap >= 1 && boundaries == {1, cap + 1} + edges
    requires points == SortedKeys(set b | b in boundaries && 1 <= b <= cap + 1)
    ensures CutsAt(points, edges, cap)
  {
    var within := set b | b in boundaries && 1 <= b <= cap + 1;
    SortedCuts(points, within, cap);
    NoEdgeBetween(points, within, edges, cap);
  }

  lemma NoEdgeBetween(points: seq<int>, within: set<int>, edges: set<int>, cap: int)
    requires points == SortedKeys(within) && forall b | b in within :: 1 <= b <= cap + 1
    requires forall e | e in edges && 1 <= e <= cap + 1 :: e in within
    ensures forall i, e | 0 <= i < |points| - 1 && e in edges :: !(points[i] < e < points[i + 1])
  {
    forall i, e | 0 <= i < |points| - 1 && e in edges ensures !(points[i] < e < points[i + 1]) {
      assert points[i] in within && points[i + 1] in within;
      if 1 <= e <= cap + 1 {
        assert e in points;
        NothingBetween(points, i, e);
      }
    }
  }

  method AllEdges(q: Request, ops: seq<FeeOperation>, cap: int) returns (boundaries: set<int>)
    ensures boundaries == {1, cap + 1} + Edges(q, ops)
  {
    boundaries := {1, cap + 1};
    for i := 0 to |ops|
      invariant boundaries == {1, cap + 1} + Edges(q, ops[..i])
    {
      PrefixStep(ops, i);
      boundaries := AddEdges(boundaries, Candidates(q, ops[i]));
      OneMoreOperation(q, ops[..i], ops[i]);
    }
    WholePrefix(ops);
  }

  lemma SortedCuts(points: seq<int>, within: set<int>, cap: int)
    requires cap >= 1 && points == SortedKeys(within)
    requires 1 in within && cap + 1 in within && forall b | b in within :: 1 <= b <= cap + 1
    ensures |points| >= 2 && points[0] == 1 && points[|points| - 1] == cap + 1
  {
    assert 1 in points && cap + 1 in points;
    var i :| 0 <= i < |points| && points[i] == 1;
    var j :| 0 <= j < |points| && points[j] == cap + 1;
    assert points[0] in within && points[|points| - 1] in within;
  }

  lemma NothingBetween(points: seq<int>, i: nat, e: int)
    requires Ascending(points) && i + 1 < |points| && e in points
    ensures !(points[i] < e < points[i + 1])
  {
    var k :| 0 <= k < |points| && points[k] == e;
    assert k <= i ==> points[k] <= points[i];
    assert k >= i + 1 ==> points[k] >= points[i + 1];
  }

  lemma TierIsConstant(r: FeeRule, start: int, stop: int, sticker: int)
    requires 1 <= start <= sticker < stop && forall e | e in RuleEdges(r) :: !(start < e < stop)
    ensures CoversAmount(r, start) == CoversAmount(r, sticker)
  {
    var lower := if r.tierLower < 1 then 1 else r.tierLower;
    assert lower in RuleEdges(r);
    assert r.tierUpper.Some? ==> r.tierUpper.value in RuleEdges(r);
  }

  lemma SegmentSharesTiers(points: seq<int>, q: Request, ops: seq<FeeOperation>, cap: int, i: nat, sticker: int)
    requires CutsAt(points, Edges(q, ops), cap) && i + 1 < |points| && points[i] <= sticker < points[i + 1]
    ensures Try(q, ops, sticker) == SegmentTry(Resolve(q, ops, points[i]), sticker)
  {
    assert i == 0 || points[0] < points[i];
    forall op, r | op in ops && r in Candidates(q, op)
      ensures CoversAmount(r, points[i]) == CoversAmount(r, sticker)
    {
      forall e | e in RuleEdges(r) ensures !(points[i] < e < points[i + 1]) {
        assert e in EdgesOf(Candidates(q, op));
        assert e in Edges(q, ops);
      }
      TierIsConstant(r, points[i], points[i + 1], sticker);
    }
    SameResolution(q, ops, points[i], sticker);
  }

  // ----- the search

  /** Resolves the operations in order, stopping at the first that has no rule or more than one. */
  method ResolveOperations(q: Request, ops: seq<FeeOperation>, sticker: int) returns (c: Coverage)
    ensures c == Resolve(q, ops, sticker)
  {
    var segmentRules: seq<FeeRule> := [];
    for i := 0 to |ops|
      invariant Resolve(q, ops[..i], sticker) == Covered(segmentRules)
    {
      PrefixStep(ops, i);
      var matched := Matched(q, ops[i], sticker);
      if |matched| > 1 || matched == [] {
        FailureSticks(q, ops, i + 1, sticker);
        return if matched == [] then Uncovered else Ambiguous;
      }
      segmentRules := segmentRules + [matched[0]];
    }
    WholePrefix(ops);
    c := Covered(segmentRules);
  }

  lemma {:induction false} FailureSticks(q: Request, ops: seq<FeeOperation>, i: nat, sticker: int)
    requires i <= |ops| && !Resolve(q, ops[..i], sticker).Covered?
    ensures Resolve(q, ops, sticker) == Resolve(q, ops[..i], sticker)
  {
    if i == |ops| {
      assert ops[..i] == ops;
    } else {
      assert ops[..|ops| - 1][..i] == ops[..i];
      FailureSticks(q, ops[..|ops| - 1], i, sticker);
    }
  }

  /** The greatest sticker of a segment whose loaded cost fits the cap, or 0 if none does. */
  method HighestInSegment(rules: seq<FeeRule>, start: nat, stop: nat, cap: int) returns (best: nat)
    requires 1 <= start < stop
    ensures best == 0 || start <= best < stop
    ensures forall s | start <= s < stop :: LoadedCost(rules, s) <= cap <==> s <= best
  {
    var top := stop - 1;
    if LoadedCost(rules, start) > cap {
      forall s | start < s < stop ensures LoadedCost(rules, s) > cap { CostRises(rules, start, s); }
      return 0;
    }
    if LoadedCost(rules, top) <= cap {
      forall s | start <= s < top ensures LoadedCost(rules, s) <= cap { CostRises(rules, s, top); }
      return top;
    }
    var low, high := start, top;
    while high - low > 1
      invariant start <= low < high <= top
      invariant LoadedCost(rules, low) <= cap < LoadedCost(rules, high)
    {
      var mid := (low + high) / 2;
      if LoadedCost(rules, mid) <= cap {
        low := mid;
      } else {
        high := mid;
      }
    }
    forall s | start <= s < stop ensures LoadedCost(rules, s) <= cap <==> s <= low {
      if s < low { CostRises(rules, s, low); }
      if s > high { CostRises(rules, high, s); }
    }
    return low;
  }

  ghost predicate NoFaultBelow(q: Request, ops: seq<FeeOperation>, limit: int) {
    forall s | 1 <= s < limit :: !Try(q, ops, s).Fault?
  }

  ghost predicate SomePricedBelow(q: Request, ops: seq<FeeOperation>, limit: int) {
    exists s | 1 <= s < limit :: Try(q, ops, s).Priced?
  }

  /** `best` is the greatest affordable sticker below `limit`, or 0 when there is none. */
  ghost predicate BestBelow(q: Request, ops: seq<FeeOperation>, cap: int, limit: int, best: int) {
    && 0 <= best < limit
    && (best > 0 ==> Affordable(q, ops, cap, best))
    && (forall s | best < s < limit :: !Affordable(q, ops, cap, s))
  }

  /**
   The answer, over every positive sticker up to the cap: the error of the least faulty one if any is faulty,
   a refusal if none is priced at all, and otherwise the greatest affordable one.
   */
  ghost predicate Verdict(q: Request, ops: seq<FeeOperation>, cap: int, r: Result<int, FeeError>) {
    match r
    case Err(UnknownFee) => NoFaultBelow(q, ops, cap + 1) && !SomePricedBelow(q, ops, cap + 1)
    case Err(e) => exists s | 1 <= s <= cap :: Try(q, ops, s) == Fault(e) && NoFaultBelow(q, ops, s)
    case Ok(best) =>
      NoFaultBelow(q, ops, cap + 1) && SomePricedBelow(q, ops, cap + 1) && BestBelow(q, ops, cap, cap + 1, best)
  }

  /** Every sticker of the segment resolves as its first one does. */
  ghost predicate SegmentResolves(q: Request, ops: seq<FeeOperation>, start: int, stop: int, coverage: Coverage) {
    forall s | start <= s < stop :: Try(q, ops, s) == SegmentTry(coverage, s)
  }

  lemma SegmentHasOneCoverage(points: seq<int>, q: Request, ops: seq<FeeOperation>, cap: int, i: nat)
    requires CutsAt(points, Edges(q, ops), cap) && i + 1 < |points|
    ensures SegmentResolves(q, ops, points[i], points[i + 1], Resolve(q, ops, points[i]))
  {
    forall s | points[i] <= s < points[i + 1] ensures Try(q, ops, s) == SegmentTry(Resolve(q, ops, points[i]), s) {
      SegmentSharesTiers(points, q, ops, cap, i, s);
    }
  }

  lemma UncoveredSegment(q: Request, ops: seq<FeeOperation>, cap: int, start: int, stop: int, best: int)
    requires 1 <= start < stop && SegmentResolves(q, ops, start, stop, Uncovered)
    requires NoFaultBelow(q, ops, start) && BestBelow(q, ops, cap, start, best)
    ensures NoFaultBelow(q, ops, stop) && BestBelow(q, ops, cap, stop, best)
    ensures SomePricedBelow(q, ops, stop) <==> SomePricedBelow(q, ops, start)
  {
  }

  lemma CoveredSegment(q: Request, ops: seq<FeeOperation>, cap: int, start: int, stop: int, best: int,
                       rules: seq<FeeRule>, highest: nat)
    requires 1 <= start < stop && SegmentResolves(q, ops, start, stop, Covered(rules)) && !SomeNegative(rules)
    requires NoFaultBelow(q, ops, start) && BestBelow(q, ops, cap, start, best)
    requires highest == 0 || start <= highest < stop
    requires forall s | start <= s < stop :: LoadedCost(rules, s) <= cap <==> s <= highest
    ensures NoFaultBelow(q, ops, stop) && SomePricedBelow(q, ops, stop)
    ensures BestBelow(q, ops, cap, stop, if highest > best then highest else best)
  {
    assert Try(q, ops, start).Priced?;
  }

  ghost predicate SameStickers(q: Request, q': Request, ops: seq<FeeOperation>, cap: int) {
    forall s | 1 <= s <= cap :: Try(q', ops, s) == Try(q, ops, s)
  }

  lemma SameVerdict(q: Request, q': Request, ops: seq<FeeOperation>, cap: int, answer: Result<int, FeeError>)
    requires SameStickers(q, q', ops, cap) && Verdict(q, ops, cap, answer)
    ensures Verdict(q', ops, cap, answer)
  {
    forall limit | NoFaultBelow(q, ops, limit) && limit <= cap + 1 ensures NoFaultBelow(q', ops, limit) {
    }
    assert SomePricedBelow(q', ops, cap + 1) <==> SomePricedBelow(q, ops, cap + 1);
    assert forall s | 1 <= s <= cap :: Affordable(q', ops, cap, s) == Affordable(q, ops, cap, s);
    if answer.Err? && answer.error != UnknownFee {
      var s :| 1 <= s <= cap && Try(q, ops, s) == Fault(answer.error) && NoFaultBelow(q, ops, s);
      assert Try(q', ops, s) == Fault(answer.error) && NoFaultBelow(q', ops, s);
    }
  }

  /** So a rule that bears on no operation at any sticker up to the cap leaves the answer as it is. */
  lemma UnrelatedRuleKeepsVerdict(q: Request, q': Request, earlier: seq<FeeRule>, r: FeeRule, later: seq<FeeRule>,
                                  ops: seq<FeeOperation>, cap: int, answer: Result<int, FeeError>)
    requires q.rules == earlier + later && q' == q.(rules := earlier + [r] + later)
    requires forall op, s | op in ops && 1 <= s <= cap :: !Bears(r, q, op, s)
    ensures Verdict(q', ops, cap, answer) <==> Verdict(q, ops, cap, answer)
  {
    forall s | 1 <= s <= cap ensures Try(q', ops, s) == Try(q, ops, s) {
      UnrelatedRuleKeepsSticker(q, q', earlier, r, later, ops, s);
    }
    assert SameStickers(q, q', ops, cap) && SameStickers(q', q, ops, cap);
    if Verdict(q, ops, cap, answer) { SameVerdict(q, q', ops, cap, answer); }
    if Verdict(q', ops, cap, answer) { SameVerdict(q', q, ops, cap, answer); }
  }

  method MaxStickerPrice(q: Request, ops: seq<FeeOperation>, cap: int) returns (r: Result<int, FeeError>)
    ensures cap < 1 ==> r == Ok(0)
    ensures cap >= 1 ==> Verdict(q, ops, cap, r)
  {
    if cap < 1 {
      return Ok(0);
    }
    var points := TierPoints(q, ops, cap);
    var best := 0;
    var coveredAnywhere := false;
    for i := 0 to |points| - 1
      invariant 1 <= points[i] <= cap + 1
      invariant NoFaultBelow(q, ops, points[i])
      invariant coveredAnywhere <==> SomePricedBelow(q, ops, points[i])
      invariant BestBelow(q, ops, cap, points[i], best)
    {
      var start, stop := points[i], points[i + 1];
      var resolved := ResolveOperations(q, ops, start);
      SegmentHasOneCoverage(points, q, ops, cap, i);
      match resolved {
        case Ambiguous =>
          assert Try(q, ops, start) == Fault(AmbiguousFee);
          return Err(AmbiguousFee);
        case Uncovered =>
          UncoveredSegment(q, ops, cap, start, stop, best);
        case Covered(rules) =>
          if SomeNegative(rules) {
            assert Try(q, ops, start) == Fault(NegativeFee);
            return Err(NegativeFee);
          }
          coveredAnywhere := true;
          var highest := HighestInSegment(rules, start, stop, cap);
          CoveredSegment(q, ops, cap, start, stop, best, rules, highest);
          if highest > best {
            best := highest;
          }
      }
    }
    if !coveredAnywhere {
      return Err(UnknownFee);
    }
    return Ok(best);
  }

  // ----- from stickers back to the ROI floor

  lemma {:induction false} FeesNonNegative(rules: seq<FeeRule>, sticker: int)
    requires !SomeNegative(rules)
    ensures FeeTotal(rules, sticker) >= 0
  {
    if rules != [] {
      var init, last := rules[..|rules| - 1], rules[|rules| - 1];
      assert forall r | r in init :: r in rules;
      FeesNonNegative(init, sticker);
      assert last in rules;
      NegativeFeeIsNegativeCap(last, sticker);
    }
  }

  /** What each sticker comes to, fees included. */
  function LoadedCosts(q: Request, ops: seq<FeeOperation>, stickers: seq<int>): (costs: seq<int>)
    requires forall i | 0 <= i < |stickers| :: Try(q, ops, stickers[i]).Priced?
    ensures |costs| == |stickers| && forall i | 0 <= i < |stickers| :: costs[i] == Try(q, ops, stickers[i]).cost
  {
    seq(|stickers|, i requires 0 <= i < |stickers| => Try(q, ops, stickers[i]).cost)
  }

  lemma {:induction false} TotalAtLeastOne(costs: seq<int>)
    requires costs != [] && forall i | 0 <= i < |costs| :: costs[i] >= 1
    ensures Total(costs) >= 1
  {
    if |costs| > 1 {
      TotalAtLeastOne(costs[1..]);
    }
  }

  /**
   The two inversions compose: positive stickers, each affordable under the per-unit share of the spending
   cap, make a bundle whose forward ROI on what actually leaves the wallet meets the target.
   */
  lemma AffordableStickersKeepTheFloor(value: int, target: real, fixedOverhead: Option<int>, overhead: real, cap: int,
                                       q: Request, ops: seq<FeeOperation>, stickers: seq<int>)
    requires target > -1.0 && overhead >= 0.0
    requires IsSpendingCap(cap, value, target, fixedOverhead, overhead)
    requires stickers != [] && PerUnitEntryTarget(cap, |stickers|).Ok?
    requires forall i | 0 <= i < |stickers| :: stickers[i] >= 1 && Try(q, ops, stickers[i]).Priced?
    requires forall i | 0 <= i < |stickers| ::
      Try(q, ops, stickers[i]).cost <= PerUnitEntryTarget(cap, |stickers|).value
    ensures 1 <= Total(LoadedCosts(q, ops, stickers)) <= cap
    ensures ForwardRoi(value, fixedOverhead, overhead, Total(LoadedCosts(q, ops, stickers))) >= target
  {
    var costs := LoadedCosts(q, ops, stickers);
    forall i | 0 <= i < |costs| ensures costs[i] >= 1 {
      FeesNonNegative(Resolve(q, ops, stickers[i]).rules, stickers[i]);
    }
    TotalAtLeastOne(costs);
    UnitTargetKeepsTheFloor(value, target, fixedOverhead, overhead, cap, costs);
  }
}
