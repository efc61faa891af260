/**
 Is buying the most fragile listing first the best order?  The claims beside the ordering step of
 src/tradeup/valuation/partial_fill.py, compared with every other order of the same bundle.
 */
module PurchaseOrder {
  import opened PartialFill
  import opened Rounding
  import opened Sorting

  ghost predicate SameBundle(s: seq<Leg>, t: seq<Leg>) {
    multiset(s) == multiset(t)
  }

  ghost predicate Fragile(s: seq<Leg>) {
    forall i, j | 0 <= i < j < |s| :: s[i].survival <= s[j].survival
  }

  lemma PurchasesAreFragileFirst(inputs: seq<Leg>)
    ensures Fragile(Purchases(inputs)) && SameBundle(Purchases(inputs), inputs)
  {
    var s := Purchases(inputs);
    forall i, j | 0 <= i < j < |s| ensures s[i].survival <= s[j].survival {
      assert RiskLe(s[i], s[j]);
    }
  }

  /** Splits an order at one of its purchases. */
  lemma SplitAt(t: seq<Leg>, x: Leg) returns (u: seq<Leg>, v: seq<Leg>)
    requires x in t
    ensures t == u + [x] + v
    ensures multiset(t) == multiset{x} + multiset(u + v)
  {
    var k :| 0 <= k < |t| && t[k] == x;
    u, v := t[..k], t[k + 1..];
    assert t == u + [x] + v;
  }

  lemma Uncons(s: seq<Leg>)
    requires s != []
    ensures s == [s[0]] + s[1..] && multiset(s) == multiset{s[0]} + multiset(s[1..])
  {
    assert s == [s[0]] + s[1..];
  }

  lemma TimesCommutes(a: real, b: real, c: real)
    ensures Times(a, b) == Times(b, a)
    ensures Times(Times(a, b), c) == Times(a, Times(b, c))
  {
  }

  lemma TimesMonotone(a: real, b: real, x: real, y: real)
    requires 0.0 <= a <= b && 0.0 <= x <= y
    ensures Times(a, x) <= Times(b, y)
  {
    ProductMonotone(a, b, x);
    ProductMonotone(x, y, b);
  }

  lemma {:induction false} ReachAppend(u: seq<Leg>, v: seq<Leg>)
    ensures Reach(u + v) == Times(Reach(u), Reach(v))
  {
    if v == [] {
      assert u + v == u;
      assert Times(Reach(u), 1.0) == Reach(u);
    } else {
      assert (u + v)[..|u + v| - 1] == u + v[..|v| - 1];
      ReachAppend(u, v[..|v| - 1]);
      TimesCommutes(Reach(u), Reach(v[..|v| - 1]), v[|v| - 1].survival);
    }
  }

  lemma ReachOne(x: Leg)
    ensures Reach([x]) == x.survival
  {
    assert [x][..0] == [];
    assert Times(1.0, x.survival) == x.survival;
  }

  /** Moving a purchase to the front leaves the chance of completing unchanged. */
  lemma ReachToFront(u: seq<Leg>, x: Leg, v: seq<Leg>)
    ensures Reach(u + [x] + v) == Times(x.survival, Reach(u + v))
  {
    ReachAppend(u + [x], v);
    ReachAppend(u, [x]);
    ReachOne(x);
    ReachAppend(u, v);
    TimesCommutes(Reach(u), x.survival, Reach(v));
    TimesCommutes(x.survival, Reach(u), Reach(v));
  }

  /** Moving the most fragile purchase to the front never makes it likelier to have reached a position. */
  lemma FragileToFront(u: seq<Leg>, x: Leg, v: seq<Leg>, i: nat)
    requires 0 < i <= |u| + 1 + |v| && forall y | y in u :: x.survival <= y.survival
    ensures Times(x.survival, Reach((u + v)[..i - 1])) <= Reach((u + [x] + v)[..i])
  {
    if i <= |u| {
      assert (u + v)[..i - 1] == u[..i - 1] && (u + [x] + v)[..i] == u[..i];
      assert u[..i][..i - 1] == u[..i - 1];
      ReachIsProbability(u[..i - 1]);
      TimesMonotone(x.survival, u[i - 1].survival, Reach(u[..i - 1]), Reach(u[..i - 1]));
      TimesCommutes(u[i - 1].survival, Reach(u[..i - 1]), 1.0);
    } else {
      var w := v[..i - 1 - |u|];
      assert (u + v)[..i - 1] == u + w && (u + [x] + v)[..i] == u + [x] + w;
      ReachToFront(u, x, w);
    }
  }

  /** The most fragile leg, wherever the other order has it, and what is left of that order. */
  lemma PullFirst(s: seq<Leg>, t: seq<Leg>) returns (u: seq<Leg>, v: seq<Leg>)
    requires Fragile(s) && SameBundle(s, t) && s != []
    ensures t == u + [s[0]] + v && SameBundle(s[1..], u + v) && Fragile(s[1..])
    ensures |s| == |t| && |s[1..]| == |u + v|
    ensures forall y | y in u :: s[0].survival <= y.survival
  {
    Uncons(s);
    assert s[0] in multiset(t);
    u, v := SplitAt(t, s[0]);
    SameRest(s[0], multiset(u + v), multiset(s[1..]));
    SameLength(u + v, s[1..]);
    forall y | y in u ensures s[0].survival <= y.survival {
      assert y in multiset(t);
      assert y in s;
    }
  }

  /** At every position, the fragile-first order is the least likely to have got that far. */
  lemma {:induction false} LeastReach(s: seq<Leg>, t: seq<Leg>, i: nat)
    requires Fragile(s) && SameBundle(s, t) && i <= |s| == |t|
    ensures Reach(s[..i]) <= Reach(t[..i])
  {
    if i > 0 {
      var u, v := PullFirst(s, t);
      LeastReach(s[1..], u + v, i - 1);
      FirstOut(s, u, v, i);
    }
  }

  lemma AfterFirst(x: Leg, p: real, q: real)
    requires p <= q
    ensures Times(x.survival, p) <= Times(x.survival, q)
  {
    ProductMonotone(p, q, x.survival);
  }

  lemma FirstOut(s: seq<Leg>, u: seq<Leg>, v: seq<Leg>, i: nat)
    requires 0 < i <= |s| == |u| + 1 + |v| && forall y | y in u :: s[0].survival <= y.survival
    requires Reach(s[1..][..i - 1]) <= Reach((u + v)[..i - 1])
    ensures Reach(s[..i]) <= Reach((u + [s[0]] + v)[..i])
  {
    FrontReach(s, i);
    AfterFirst(s[0], Reach(s[1..][..i - 1]), Reach((u + v)[..i - 1]));
    FragileToFront(u, s[0], v, i);
  }

  lemma FrontReach(s: seq<Leg>, i: nat)
    requires 0 < i <= |s|
    ensures Reach(s[..i]) == Times(s[0].survival, Reach(s[1..][..i - 1]))
  {
    assert s[..i] == [s[0]] + s[1..][..i - 1];
    ReachAppend([s[0]], s[1..][..i - 1]);
    ReachOne(s[0]);
  }

  lemma SameLength(s: seq<Leg>, t: seq<Leg>)
    requires SameBundle(s, t)
    ensures |s| == |t|
  {
    assert |multiset(s)| == |s| && |multiset(t)| == |t|;
  }

  /** The order does not change the chance of completing, nor the bill. */
  lemma {:induction false} CompletionIgnoresOrder(s: seq<Leg>, t: seq<Leg>)
    requires SameBundle(s, t)
    ensures Reach(s) == Reach(t) && Spent(s) == Spent(t)
  {
    SameLength(s, t);
    if s != [] {
      Uncons(s);
      assert s[0] in multiset(t);
      var u, v := SplitAt(t, s[0]);
      SameRest(s[0], multiset(u + v), multiset(s[1..]));
      CompletionIgnoresOrder(s[1..], u + v);
      ReachToFront(u, s[0], v);
      SpentToFront(u, s[0], v);
      FromTheFront(s);
    }
  }

  lemma FromTheFront(s: seq<Leg>)
    requires s != []
    ensures Reach(s) == Times(s[0].survival, Reach(s[1..])) && Spent(s) == s[0].cost + Spent(s[1..])
  {
    ReachToFront([], s[0], s[1..]);
    SpentToFront([], s[0], s[1..]);
    assert [] + [s[0]] + s[1..] == s && [] + s[1..] == s[1..];
  }

  lemma {:induction false} SpentAppend(u: seq<Leg>, v: seq<Leg>)
    ensures Spent(u + v) == Spent(u) + Spent(v)
  {
    if v == [] {
      assert u + v == u;
    } else {
      assert (u + v)[..|u + v| - 1] == u + v[..|v| - 1];
      SpentAppend(u, v[..|v| - 1]);
    }
  }

  lemma SpentToFront(u: seq<Leg>, x: Leg, v: seq<Leg>)
    ensures Spent(u + [x] + v) == x.cost + Spent(u + v)
  {
    SpentAppend(u + [x], v);
    SpentAppend(u, [x]);
    SpentAppend(u, v);
    assert [x][..0] == [];
  }

  // ----- inputs of one price

  ghost predicate AllCost(s: seq<Leg>, cost: int) {
    forall i | 0 <= i < |s| :: s[i].cost == cost
  }

  lemma {:induction false} EqualSpent(s: seq<Leg>, cost: int, i: nat)
    requires AllCost(s, cost) && i <= |s|
    ensures Spent(s[..i]) == cost * i
  {
    if i > 0 {
      EqualSpent(s, cost, i - 1);
      ReachStep(s, i - 1);
    }
  }

  /** Summation by parts: `l` grows by the same amount for both orders, and `s` is less likely to get here. */
  lemma ByParts(ws: real, wt: real, l0: real, l1: real, rs: real, rt: real)
    requires ws + Times(l0, rs) <= wt + Times(l0, rt) && l0 <= l1 && rs <= rt
    ensures ws + Times(l1, rs) <= wt + Times(l1, rt)
  {
    ProductMonotone(rs, rt, l1 - l0);
    assert Times(l1, rs) == Times(l0, rs) + rs * (l1 - l0);
    assert Times(l1, rt) == Times(l0, rt) + rt * (l1 - l0);
  }

  lemma SplitMass(s: seq<Leg>, n: nat, loss: real)
    requires n < |s|
    ensures Times(loss, FailsAt(s, n)) + Times(loss, Reach(s[..n + 1])) == Times(loss, Reach(s[..n]))
  {
    ReachStep(s, n);
    Distribute(loss, FailsAt(s, n), Reach(s[..n + 1]));
  }

  lemma {:induction false} EqualCostsSoFar(s: seq<Leg>, t: seq<Leg>, cost: nat, salvageRate: Probability, n: nat)
    requires Fragile(s) && SameBundle(s, t) && AllCost(s, cost) && AllCost(t, cost) && 0 < n <= |s| == |t|
    ensures ExactLoss(s, n, salvageRate) + Times(LossAt(s, n - 1, salvageRate) as real, Reach(s[..n]))
         <= ExactLoss(t, n, salvageRate) + Times(LossAt(s, n - 1, salvageRate) as real, Reach(t[..n]))
  {
    var m := n - 1;
    var loss := LossAt(s, m, salvageRate) as real;
    EqualSpent(s, cost, m);
    EqualSpent(t, cost, m);
    SplitMass(s, m, loss);
    SplitMass(t, m, loss);
    LeastReach(s, t, m);
    if m > 0 {
      EqualCostsSoFar(s, t, cost, salvageRate, m);
      LossesGrow(s, m - 1, m, salvageRate);
      ByParts(ExactLoss(s, m, salvageRate), ExactLoss(t, m, salvageRate), LossAt(s, m - 1, salvageRate) as real, loss,
              Reach(s[..m]), Reach(t[..m]));
    } else {
      assert s[..0] == t[..0] == [];
    }
  }

  /** When all inputs cost the same, no order has a smaller expected loss, salvage rounding included. */
  lemma EqualCostsFragileFirstIsBest(inputs: seq<Leg>, t: seq<Leg>, cost: nat, salvageRate: Probability)
    requires SameBundle(inputs, t) && AllCost(inputs, cost)
    ensures ExactLoss(Purchases(inputs), |Purchases(inputs)|, salvageRate) <= ExactLoss(t, |t|, salvageRate)
  {
    var s := Purchases(inputs);
    PurchasesAreFragileFirst(inputs);
    SameLength(s, t);
    CostsSurviveReordering(inputs, s, cost);
    CostsSurviveReordering(inputs, t, cost);
    if s != [] {
      EqualCostsSoFar(s, t, cost, salvageRate, |s|);
      CompletionIgnoresOrder(s, t);
      WholePrefix(s);
      WholePrefix(t);
    }
  }

  /**
   The charged loss rounds every term up, so with equal costs it can be undercut, but by no more than `n - 2` units:
   for two inputs fragile-first is still the best order.
   */
  lemma EqualCostsChargedLoss(inputs: seq<Leg>, t: seq<Leg>, cost: nat, salvageRate: Probability)
    requires SameBundle(inputs, t) && AllCost(inputs, cost) && |inputs| >= 2
    ensures |Purchases(inputs)| == |t| == |inputs|
    ensures ExpectedLoss(Purchases(inputs), |inputs|, salvageRate)
         <= ExpectedLoss(t, |inputs|, salvageRate) + |inputs| - 2
  {
    EqualCostsFragileFirstIsBest(inputs, t, cost, salvageRate);
    SameLength(inputs, t);
    SameLength(Purchases(inputs), t);
    RoundingCharge(Purchases(inputs), |inputs|, salvageRate);
    RoundingCharge(t, |inputs|, salvageRate);
  }

  ghost predicate StrictlyOrdered(s: seq<Leg>) {
    forall i, j | 0 <= i < j < |s| :: RiskLe(s[i], s[j]) && !RiskLe(s[j], s[i])
  }

  lemma {:induction false} StrictOrderIsKept(s: seq<Leg>, t: seq<Leg>)
    requires SortedBy(RiskLe, s) && StrictlyOrdered(t) && SameBundle(s, t)
    ensures s == t
  {
    SameLength(s, t);
    if s != [] {
      assert s == [s[0]] + s[1..] && t == [t[0]] + t[1..];
      assert s[0] in multiset(t) && t[0] in multiset(s);
      assert s[0] == t[0];
      SameRest(s[0], multiset(s[1..]), multiset(t[1..]));
      StrictOrderIsKept(s[1..], t[1..]);
    }
  }

  lemma TripleCharge(x: Leg, y: Leg, z: Leg, first: real, second: real)
    requires first == x.cost as real * (x.survival * (1.0 - y.survival))
    requires second == (x.cost + y.cost) as real * (x.survival * y.survival * (1.0 - z.survival))
    ensures ExpectedLoss([x, y, z], 3, 0.0) == Ceil(first) + Ceil(second)
  {
    var s := [x, y, z];
    assert s[..0] == [] && s[..1] == [x] && s[..2] == [x, y] && [x][..0] == [] && [x, y][..1] == [x];
    ReachOne(x);
    assert Reach([x, y]) == Times(x.survival, y.survival);
    SpentOnTwo(x, y);
    NothingSalvaged(0);
    NothingSalvaged(x.cost);
    NothingSalvaged(x.cost + y.cost);
    assert 0 as real * FailsAt(s, 0) == 0.0;
    assert ExpectedLoss(s, 1, 0.0) == 0;
    assert ExpectedLoss(s, 2, 0.0) == Ceil(first);
  }

  lemma SpentOnTwo(x: Leg, y: Leg)
    ensures Spent([x]) == x.cost && Spent([x, y]) == x.cost + y.cost
  {
    assert [x][..0] == [] && [x, y][..1] == [x];
    assert Spent([]) == 0;
  }

  lemma NothingSalvaged(committed: int)
    ensures Loss(committed, 0.0) == committed
  {
    assert committed as real * 0.0 == 0.0;
  }

  lemma TripleIsPurchased(x: Leg, y: Leg, z: Leg)
    requires x.survival <= y.survival <= z.survival && x.identity < y.identity < z.identity
    ensures Purchases([x, y, z]) == [x, y, z]
  {
    StrictOrderIsKept(Purchases([x, y, z]), [x, y, z]);
  }

  /** With three inputs the bound is met: rounding makes another order one unit cheaper. */
  lemma RoundingCanReorder()
    ensures var a, b, c := Leg(0, 0.3, 5), Leg(1, 0.3, 5), Leg(2, 0.4, 5);
            Purchases([a, b, c]) == [a, b, c]
            && ExpectedLoss([a, b, c], 3, 0.0) == 3 && ExpectedLoss([a, c, b], 3, 0.0) == 2
  {
    var a, b, c := Leg(0, 0.3, 5), Leg(1, 0.3, 5), Leg(2, 0.4, 5);
    TripleIsPurchased(a, b, c);
    TripleCharge(a, b, c, 1.05, 0.54);
    TripleCharge(a, c, b, 0.9, 0.84);
  }

  lemma CostsSurviveReordering(s: seq<Leg>, t: seq<Leg>, cost: int)
    requires SameBundle(s, t) && AllCost(s, cost)
    ensures AllCost(t, cost)
  {
    forall i | 0 <= i < |t| ensures t[i].cost == cost {
      assert t[i] in multiset(s);
    }
  }

  // ----- inputs of different prices

  /** The expected spend already committed at the moment a failure among the first `n` steps is discovered. */
  ghost function CommittedAtFailure(s: seq<Leg>, n: nat): real
    requires n <= |s|
  {
    if n == 0 then 0.0 else CommittedAtFailure(s, n - 1) + Times(Spent(s[..n - 1]) as real, FailsAt(s, n - 1))
  }

  /** The expected total spend: each price, weighted by the chance of getting to pay it. */
  ghost function ExpectedSpend(s: seq<Leg>): real {
    if s == [] then 0.0 else ExpectedSpend(s[..|s| - 1]) + Times(s[|s| - 1].cost as real, Reach(s))
  }

  /** Every unit spent is either committed when a failure is found, or part of a completed bundle. */
  lemma {:induction false} SpendIsCommittedOrCompleted(s: seq<Leg>, n: nat)
    requires n <= |s|
    ensures CommittedAtFailure(s, n) + Times(Spent(s[..n]) as real, Reach(s[..n])) == ExpectedSpend(s[..n])
  {
    if n > 0 {
      var m := n - 1;
      assert s[..n][..m] == s[..m];
      SpendIsCommittedOrCompleted(s, m);
      SplitMass(s, m, Spent(s[..m]) as real);
      ReachStep(s, m);
      DistributeSum(Spent(s[..m]) as real, s[m].cost as real, Reach(s[..n]));
    }
  }

  lemma DistributeSum(x: real, y: real, p: real)
    ensures Times(x + y, p) == Times(x, p) + Times(y, p)
  {
  }

  lemma {:induction false} SpendAppend(u: seq<Leg>, v: seq<Leg>)
    ensures ExpectedSpend(u + v) == ExpectedSpend(u) + Times(Reach(u), ExpectedSpend(v))
  {
    if v == [] {
      assert u + v == u;
      assert Times(Reach(u), 0.0) == 0.0;
    } else {
      var w, x := v[..|v| - 1], v[|v| - 1];
      assert (u + v)[..|u + v| - 1] == u + w;
      SpendAppend(u, w);
      ReachAppend(u, v);
      Interchange(x.cost as real, Reach(u), Reach(v));
      Distribute(Reach(u), ExpectedSpend(w), Times(x.cost as real, Reach(v)));
    }
  }

  lemma Interchange(a: real, b: real, c: real)
    ensures Times(a, Times(b, c)) == Times(b, Times(a, c))
  {
  }

  lemma SpendOne(x: Leg)
    ensures ExpectedSpend([x]) == Times(x.cost as real, x.survival)
  {
    ReachOne(x);
    assert [x][..0] == [];
  }

  /** What buying `x` first and then spending `rest` is expected to cost. */
  ghost function SpendVia(x: Leg, rest: real): real {
    Times(x.survival, x.cost as real + rest)
  }

  lemma SpendCons(x: Leg, s: seq<Leg>)
    ensures ExpectedSpend([x] + s) == SpendVia(x, ExpectedSpend(s))
  {
    SpendAppend([x], s);
    SpendOne(x);
    ReachOne(x);
    TimesCommutes(x.cost as real, x.survival, 1.0);
    Distribute(x.survival, x.cost as real, ExpectedSpend(s));
  }

  /** The odds-weighted price of `x` is no more than that of `y`: cost * survival / (1 - survival), cross-multiplied. */
  predicate OddsLe(x: Leg, y: Leg) {
    x.cost as real * x.survival * (1.0 - y.survival) <= y.cost as real * y.survival * (1.0 - x.survival)
  }

  /** Of two adjacent purchases, that with the lower odds-weighted price is better first, whatever follows. */
  lemma SwapAdjacent(x: Leg, y: Leg, rest: real)
    ensures OddsLe(x, y) <==> SpendVia(x, SpendVia(y, rest)) <= SpendVia(y, SpendVia(x, rest))
  {
    var p, q, a, b := x.survival, y.survival, x.cost as real, y.cost as real;
    assert SpendVia(x, SpendVia(y, rest)) == p * a + p * (q * b) + p * (q * rest);
    assert SpendVia(y, SpendVia(x, rest)) == q * b + q * (p * a) + q * (p * rest);
    assert p * (q * rest) == q * (p * rest);
    assert a * p * (1.0 - q) == p * a - q * (p * a);
    assert b * q * (1.0 - p) == q * b - p * (q * b);
  }

  lemma SpendViaMonotone(x: Leg, r: real, r': real)
    requires r <= r'
    ensures SpendVia(x, r) <= SpendVia(x, r')
  {
    ProductMonotone(x.cost as real + r, x.cost as real + r', x.survival);
  }

  lemma {:induction false} MoveToFront(u: seq<Leg>, x: Leg, v: seq<Leg>)
    requires forall y | y in u :: OddsLe(x, y)
    ensures SpendVia(x, ExpectedSpend(u + v)) <= ExpectedSpend(u + [x] + v)
  {
    if u == [] {
      assert u + [x] + v == [x] + v && u + v == v;
      SpendCons(x, v);
    } else {
      var y, w := u[0], u[1..];
      assert u + [x] + v == [y] + (w + [x] + v) && u + v == [y] + (w + v);
      MoveToFront(w, x, v);
      SpendCons(y, w + [x] + v);
      SpendCons(y, w + v);
      SpendViaMonotone(y, SpendVia(x, ExpectedSpend(w + v)), ExpectedSpend(w + [x] + v));
      SwapAdjacent(x, y, ExpectedSpend(w + v));
    }
  }

  /** Every earlier purchase has the lower odds-weighted price. */
  ghost predicate OddsOrdered(s: seq<Leg>) {
    forall i, j | 0 <= i < j < |s| :: OddsLe(s[i], s[j])
  }

  lemma {:induction false} OddsOrderIsBest(s: seq<Leg>, t: seq<Leg>)
    requires OddsOrdered(s) && SameBundle(s, t)
    ensures ExpectedSpend(s) <= ExpectedSpend(t)
  {
    SameLength(s, t);
    if s != [] {
      var x := s[0];
      Uncons(s);
      assert x in multiset(t);
      var u, v := SplitAt(t, x);
      SameRest(x, multiset(u + v), multiset(s[1..]));
      OddsOrderIsBest(s[1..], u + v);
      forall y | y in u ensures OddsLe(x, y) {
        assert y in multiset(t);
        assert y in s;
        var j :| 0 <= j < |s| && s[j] == y;
        assert j == 0 || OddsLe(s[0], s[j]);
      }
      MoveToFront(u, x, v);
      SpendCons(x, s[1..]);
      SpendViaMonotone(x, ExpectedSpend(s[1..]), ExpectedSpend(u + v));
    }
  }

  lemma OddsTransitive(x: Leg, y: Leg, z: Leg)
    requires 0.0 < x.survival <= y.survival <= z.survival && x.cost >= 0 && y.cost >= 0 && z.cost >= 0
    requires OddsLe(x, y) && OddsLe(y, z)
    ensures OddsLe(x, z)
  {
    var a, b, c := x.cost as real * x.survival, y.cost as real * y.survival, z.cost as real * z.survival;
    var p, q, r := 1.0 - x.survival, 1.0 - y.survival, 1.0 - z.survival;
    ProductMonotone(0.0, z.cost as real, z.survival);
    if q > 0.0 {
      CrossMultiply(a, b, c, p, q, r);
    } else {
      assert r == 0.0 && a * r == 0.0;
      ProductMonotone(0.0, c, p);
    }
  }

  lemma CrossMultiply(a: real, b: real, c: real, p: real, q: real, r: real)
    requires p >= 0.0 && q > 0.0 && r >= 0.0
    requires a * q <= b * p && b * r <= c * q
    ensures a * r <= c * p
  {
    ProductMonotone(a * q, b * p, r);
    ProductMonotone(b * r, c * q, p);
    assert a * r * q <= c * p * q;
    if a * r > c * p {
      StrictProduct(c * p, a * r, q);
    }
  }

  /** Each purchase compared only with the next one: what a caller would check. */
  predicate AdjacentOdds(s: seq<Leg>) {
    forall i | 0 <= i < |s| - 1 :: OddsLe(s[i], s[i + 1])
  }

  lemma {:induction false} AdjacentIsEnough(s: seq<Leg>, i: nat, j: nat)
    requires Fragile(s) && NonNegativeCosts(s) && AdjacentOdds(s)
    requires i < j < |s| && s[0].survival > 0.0
    ensures OddsLe(s[i], s[j])
  {
    if j > i + 1 {
      AdjacentIsEnough(s, i, j - 1);
      assert OddsLe(s[j - 1], s[j - 1 + 1]);
      assert s[0].survival <= s[i].survival;
      OddsTransitive(s[i], s[j - 1], s[j]);
    }
  }

  lemma {:induction false} ReachPositive(s: seq<Leg>)
    requires forall i | 0 <= i < |s| :: s[i].survival > 0.0
    ensures Reach(s) > 0.0
  {
    if s != [] {
      ReachPositive(s[..|s| - 1]);
      StrictProduct(0.0, Reach(s[..|s| - 1]), s[|s| - 1].survival);
    }
  }

  ghost function InOrder(u: seq<Leg>, x: Leg, y: Leg, v: seq<Leg>): seq<Leg> {
    u + ([x] + ([y] + v))
  }

  lemma SpendInOrder(u: seq<Leg>, x: Leg, y: Leg, v: seq<Leg>)
    ensures ExpectedSpend(InOrder(u, x, y, v))
         == ExpectedSpend(u) + Times(Reach(u), SpendVia(x, SpendVia(y, ExpectedSpend(v))))
  {
    SpendAppend(u, [x] + ([y] + v));
    SpendCons(x, [y] + v);
    SpendCons(y, v);
  }

  /** If exchanging two neighbours does not help, they are in odds order. */
  lemma NoBetterSwapped(u: seq<Leg>, x: Leg, y: Leg, v: seq<Leg>)
    requires forall k | 0 <= k < |u| :: u[k].survival > 0.0
    requires ExpectedSpend(InOrder(u, x, y, v)) <= ExpectedSpend(InOrder(u, y, x, v))
    ensures OddsLe(x, y)
  {
    SpendInOrder(u, x, y, v);
    SpendInOrder(u, y, x, v);
    ReachPositive(u);
    CancelReach(Reach(u), SpendVia(x, SpendVia(y, ExpectedSpend(v))), SpendVia(y, SpendVia(x, ExpectedSpend(v))));
    SwapAdjacent(x, y, ExpectedSpend(v));
  }

  lemma CancelReach(p: real, x: real, y: real)
    requires p > 0.0 && Times(p, x) <= Times(p, y)
    ensures x <= y
  {
    if x > y {
      StrictProduct(y, x, p);
    }
  }

  /** No order of the bundle leaves less committed, in expectation, when a failure is discovered. */
  ghost predicate LeastCommitted(s: seq<Leg>) {
    forall t | SameBundle(s, t) :: CommittedAtFailure(s, |s|) <= CommittedAtFailure(t, |t|)
  }

  lemma CommittedFollowsSpend(s: seq<Leg>, t: seq<Leg>)
    requires SameBundle(s, t)
    ensures CommittedAtFailure(s, |s|) <= CommittedAtFailure(t, |t|) <==> ExpectedSpend(s) <= ExpectedSpend(t)
  {
    SpendIsCommittedOrCompleted(s, |s|);
    SpendIsCommittedOrCompleted(t, |t|);
    WholePrefix(s);
    WholePrefix(t);
    CompletionIgnoresOrder(s, t);
  }

  lemma {:induction false} SpendNonNegative(s: seq<Leg>)
    requires NonNegativeCosts(s)
    ensures ExpectedSpend(s) >= 0.0
  {
    if s != [] {
      SpendNonNegative(s[..|s| - 1]);
      ReachIsProbability(s);
      ProductMonotone(0.0, s[|s| - 1].cost as real, Reach(s));
    }
  }

  lemma DoomedFirstIsBest(s: seq<Leg>, t: seq<Leg>)
    requires s != [] && s[0].survival == 0.0 && SameBundle(s, t) && NonNegativeCosts(s)
    ensures ExpectedSpend(s) <= ExpectedSpend(t)
  {
    Uncons(s);
    SpendCons(s[0], s[1..]);
    forall i | 0 <= i < |t| ensures t[i].cost >= 0 {
      assert t[i] in multiset(s);
    }
    SpendNonNegative(t);
  }

  /**
   Exactly when the claim holds that riskiest-first "minimises committed capital at the moment of discovery": some
   input is certain to be gone, or the odds-weighted prices already ascend along the chosen order.
   */
  lemma FragileFirstIsBestExactly(inputs: seq<Leg>)
    requires inputs != [] && NonNegativeCosts(inputs)
    ensures LeastCommitted(Purchases(inputs))
       <==> Purchases(inputs)[0].survival == 0.0 || AdjacentOdds(Purchases(inputs))
  {
    var s := Purchases(inputs);
    PurchasesAreFragileFirst(inputs);
    SameLength(s, inputs);
    forall i | 0 <= i < |s| ensures s[i].cost >= 0 {
      assert s[i] in multiset(inputs);
    }
    if s[0].survival == 0.0 {
      forall t | SameBundle(s, t) ensures CommittedAtFailure(s, |s|) <= CommittedAtFailure(t, |t|) {
        DoomedFirstIsBest(s, t);
        CommittedFollowsSpend(s, t);
      }
    } else if AdjacentOdds(s) {
      AdjacentOrderIsLeast(s);
    } else if LeastCommitted(s) {
      LeastOrderIsAdjacent(s);
    }
  }

  lemma AdjacentOrderIsLeast(s: seq<Leg>)
    requires s != [] && Fragile(s) && NonNegativeCosts(s) && s[0].survival > 0.0 && AdjacentOdds(s)
    ensures LeastCommitted(s)
  {
    forall i, j | 0 <= i < j < |s| ensures OddsLe(s[i], s[j]) {
      AdjacentIsEnough(s, i, j);
    }
    forall t | SameBundle(s, t) ensures CommittedAtFailure(s, |s|) <= CommittedAtFailure(t, |t|) {
      OddsOrderIsBest(s, t);
      CommittedFollowsSpend(s, t);
    }
  }

  lemma LeastCommittedSpendsLeast(s: seq<Leg>, t: seq<Leg>)
    requires LeastCommitted(s) && SameBundle(s, t)
    ensures ExpectedSpend(s) <= ExpectedSpend(t)
  {
    CommittedFollowsSpend(s, t);
  }

  lemma LeastOrderIsAdjacent(s: seq<Leg>)
    requires s != [] && Fragile(s) && s[0].survival > 0.0 && LeastCommitted(s)
    ensures AdjacentOdds(s)
  {
    forall i | 0 <= i < |s| - 1 ensures OddsLe(s[i], s[i + 1]) {
      ExchangeNeighbours(s, i);
      LeastCommittedSpendsLeast(s, InOrder(s[..i], s[i + 1], s[i], s[i + 2..]));
      PrefixPositive(s, i);
      NoBetterSwapped(s[..i], s[i], s[i + 1], s[i + 2..]);
    }
  }

  lemma PrefixPositive(s: seq<Leg>, i: nat)
    requires i <= |s| && s != [] && Fragile(s) && s[0].survival > 0.0
    ensures forall k | 0 <= k < |s[..i]| :: s[..i][k].survival > 0.0
  {
    assert forall k | 0 < k < |s| :: s[0].survival <= s[k].survival;
  }

  lemma ExchangeNeighbours(s: seq<Leg>, i: nat)
    requires i < |s| - 1
    ensures s == InOrder(s[..i], s[i], s[i + 1], s[i + 2..])
    ensures SameBundle(s, InOrder(s[..i], s[i + 1], s[i], s[i + 2..]))
  {
    assert s == InOrder(s[..i], s[i], s[i + 1], s[i + 2..]);
  }

  /** The claim does fail: one dear fragile listing and one cheap sturdier one. */
  lemma FragileFirstCanBeWorse()
    ensures var dear, cheap := Leg(0, 0.5, 100), Leg(1, 0.6, 1);
            Purchases([dear, cheap]) == [dear, cheap]
            && CommittedAtFailure([dear, cheap], 2) == 20.0
            && CommittedAtFailure([cheap, dear], 2) == 0.3
  {
    var dear, cheap := Leg(0, 0.5, 100), Leg(1, 0.6, 1);
    PairCommitted(dear, cheap);
    PairCommitted(cheap, dear);
    StrictOrderIsKept(Purchases([dear, cheap]), [dear, cheap]);
  }

  lemma PairCommitted(x: Leg, y: Leg)
    ensures CommittedAtFailure([x, y], 2) == x.cost as real * (x.survival * (1.0 - y.survival))
  {
    var s := [x, y];
    assert s[..0] == [] && s[..1] == [x] && [x][..0] == [];
    ReachOne(x);
    assert Times(0.0, FailsAt(s, 0)) == 0.0;
    assert CommittedAtFailure(s, 0) == 0.0;
    assert CommittedAtFailure(s, 1) == Times(0.0, FailsAt(s, 0));
  }
}
