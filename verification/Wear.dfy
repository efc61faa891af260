/**
 Wear bands and output-float projection (src/tradeup/domain/items.py, src/tradeup/domain/mathematics.py).
 `Fraction` and `Decimal` are exact reals; the one rounding, half-even at twelve places, is explicit.
 */
module Wear {
  import opened Rounding

  datatype Range = Range(minimum: real, maximum: real)

  type FloatRange = r: Range | 0.0 <= r.minimum < r.maximum <= 1.0 witness Range(0.0, 1.0)

  datatype WearCondition = FactoryNew | MinimalWear | FieldTested | WellWorn | BattleScarred

  /** Lower bounds of the bands above the first one. */
  const INTERIOR_BOUNDARIES: set<real> := {0.07, 0.15, 0.38, 0.45}

  /** A value on a boundary belongs to the higher-wear band. */
  function ClassifyWear(value: real): WearCondition {
    if value < 0.07 then FactoryNew
    else if value < 0.15 then MinimalWear
    else if value < 0.38 then FieldTested
    else if value < 0.45 then WellWorn
    else BattleScarred
  }

  function Rank(w: WearCondition): nat {
    match w
    case FactoryNew => 0
    case MinimalWear => 1
    case FieldTested => 2
    case WellWorn => 3
    case BattleScarred => 4
  }

  predicate NoMoreWorn(a: WearCondition, b: WearCondition) {
    Rank(a) <= Rank(b)
  }

  /** A band is the set of boundaries reached: `a` is no more worn than `b` iff it reaches no further ones. */
  lemma WearIsBoundariesReached(a: real, b: real)
    ensures NoMoreWorn(ClassifyWear(a), ClassifyWear(b))
       <==> forall w | w in INTERIOR_BOUNDARIES :: w <= a ==> w <= b
  {
    assert 0.07 in INTERIOR_BOUNDARIES && 0.15 in INTERIOR_BOUNDARIES;
    assert 0.38 in INTERIOR_BOUNDARIES && 0.45 in INTERIOR_BOUNDARIES;
  }

  // ----- projection

  /** `project_output_float_exact`. */
  function Project(z: real, r: FloatRange): real {
    r.minimum + z * (r.maximum - r.minimum)
  }

  /** The normalised float at which the output crosses boundary `w`. */
  function Crossing(r: FloatRange, w: real): real {
    (w - r.minimum) / (r.maximum - r.minimum)
  }

  lemma QuotientBound(n: real, d: real, z: real)
    requires d > 0.0
    ensures n / d <= z <==> n <= z * d
  {
    assert n / d * d == n;
    if n / d <= z {
      assert n / d * d <= z * d;
    } else {
      assert n / d * d > z * d;
    }
  }

  lemma CrossingIsBoundary(r: FloatRange, w: real, z: real)
    ensures w <= Project(z, r) <==> Crossing(r, w) <= z
  {
    QuotientBound(w - r.minimum, r.maximum - r.minimum, z);
  }

  lemma CrossingRange(r: FloatRange, w: real)
    requires r.minimum < w <= r.maximum
    ensures 0.0 < Crossing(r, w) <= 1.0
  {
    QuotientBound(w - r.minimum, r.maximum - r.minimum, 0.0);
    QuotientBound(w - r.minimum, r.maximum - r.minimum, 1.0);
  }

  lemma ProjectMonotone(z: real, z': real, r: FloatRange)
    requires z <= z'
    ensures Project(z, r) <= Project(z', r)
  {
    var d := r.maximum - r.minimum;
    ProductMonotone(z, z', d);
    assert Project(z, r) == r.minimum + z * d && Project(z', r) == r.minimum + z' * d;
  }

  lemma ProjectInRange(z: real, r: FloatRange)
    requires 0.0 <= z <= 1.0
    ensures r.minimum <= Project(z, r) <= r.maximum
  {
    ProjectMonotone(0.0, z, r);
    ProjectMonotone(z, 1.0, r);
  }

  // ----- rendering

  const QUANTA: real := 1000000000000.0
  const HALF_QUANTUM: real := 0.5 / QUANTA

  /** `to_decimal` at twelve places. */
  function ToDecimal(value: real): real {
    RoundHalfEven(value * QUANTA) as real / QUANTA
  }

  function Clamp(value: real, r: FloatRange): (c: real)
    ensures r.minimum <= c <= r.maximum
  {
    if value < r.minimum then r.minimum else if value > r.maximum then r.maximum else value
  }

  /** `project_output_wear`: the band of the rendered output float. */
  function RenderedWear(z: real, r: FloatRange): WearCondition {
    ClassifyWear(Clamp(ToDecimal(Project(z, r)), r))
  }

  /** Every boundary is an even number of quanta, so the half-way tie below it rounds up onto it. */
  lemma RoundsOnto(y: real, n: int)
    requires n % 2 == 0
    ensures RoundHalfEven(y) >= n <==> y >= n as real - 0.5
  {
  }

  lemma BoundaryQuanta(w: real) returns (n: int)
    requires w in INTERIOR_BOUNDARIES
    ensures n % 2 == 0 && w * QUANTA == n as real
  {
    n := if w == 0.07 then 70000000000 else if w == 0.15 then 150000000000
         else if w == 0.38 then 380000000000 else 450000000000;
  }

  /** A rendered value reaches a boundary exactly when the exact one comes within half a quantum of it. */
  lemma RenderingReaches(v: real, w: real)
    requires w in INTERIOR_BOUNDARIES
    ensures w <= ToDecimal(v) <==> w - HALF_QUANTUM <= v
  {
    var n := BoundaryQuanta(w);
    var m := RoundHalfEven(v * QUANTA);
    RoundsOnto(v * QUANTA, n);
    assert ToDecimal(v) == m as real / QUANTA && w == n as real / QUANTA;
    assert m >= n <==> m as real / QUANTA >= n as real / QUANTA;
  }

  lemma RenderedReaches(z: real, r: FloatRange, w: real)
    requires 0.0 <= z <= 1.0 && w in INTERIOR_BOUNDARIES
    ensures w <= Clamp(ToDecimal(Project(z, r)), r)
       <==> w <= r.minimum || (w <= r.maximum && w - HALF_QUANTUM <= Project(z, r))
  {
    RenderingReaches(Project(z, r), w);
  }

  /** Rendering moves an output into a worse band exactly in the half quantum below a reachable boundary. */
  lemma RenderingChangesWear(z: real, r: FloatRange)
    requires 0.0 <= z <= 1.0
    ensures NoMoreWorn(ClassifyWear(Project(z, r)), RenderedWear(z, r))
    ensures RenderedWear(z, r) != ClassifyWear(Project(z, r))
       <==> exists w | w in INTERIOR_BOUNDARIES :: w - HALF_QUANTUM <= Project(z, r) < w <= r.maximum
  {
    var v, q := Project(z, r), Clamp(ToDecimal(Project(z, r)), r);
    ProjectInRange(z, r);
    forall w | w in INTERIOR_BOUNDARIES
      ensures w <= q <==> w <= r.minimum || (w <= r.maximum && w - HALF_QUANTUM <= v)
    {
      RenderedReaches(z, r, w);
    }
    WearIsBoundariesReached(v, q);
    WearIsBoundariesReached(q, v);
    SameRank(RenderedWear(z, r), ClassifyWear(v));
  }

  lemma SameRank(a: WearCondition, b: WearCondition)
    ensures a == b <==> NoMoreWorn(a, b) && NoMoreWorn(b, a)
  {
  }
}
