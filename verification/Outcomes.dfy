/** Outcome probabilities (src/tradeup/domain/mathematics.py, `outcome_probabilities` and `aggregate_by_skin`). */
module Outcomes {
  import opened Rounding
  import opened Sorting
  import opened Wrappers

  /** The output skins of one collection. */
  datatype EligibleOutputPool = EligibleOutputPool(outputs: seq<int>)

  datatype OutcomeProbability = OutcomeProbability(collection: int, skin: int, probability: real)

  datatype MathematicsError =
    | UnsupportedMethod
    | NoCollections
    | NoInputs
    | NonPositiveCount(collection: int)
    | NoPool(collection: int)
    | EmptyPool(collection: int)
    | MassIsNotOne

  /** Does the collection contribute a well-defined share? */
  predicate Usable(counts: map<int, int>, pools: map<int, EligibleOutputPool>, c: int)
    requires c in counts
  {
    counts[c] > 0 && c in pools && pools[c].outputs != []
  }

  predicate Keyed(counts: map<int, int>, keys: seq<int>) {
    forall i | 0 <= i < |keys| :: keys[i] in counts
  }

  /** The collections, each once, ascending. */
  ghost predicate InOrder(counts: map<int, int>, keys: seq<int>) {
    Keyed(counts, keys) && Ascending(keys) && forall c | c in counts :: c in keys
  }

  predicate AllUsable(counts: map<int, int>, pools: map<int, EligibleOutputPool>, keys: seq<int>) {
    Keyed(counts, keys) && forall i | 0 <= i < |keys| :: Usable(counts, pools, keys[i])
  }

  function Fault(counts: map<int, int>, pools: map<int, EligibleOutputPool>, c: int): MathematicsError
    requires c in counts && !Usable(counts, pools, c)
  {
    if counts[c] <= 0 then NonPositiveCount(c)
    else if c !in pools then NoPool(c)
    else EmptyPool(c)
  }

  function CountTotal(counts: map<int, int>, keys: seq<int>): int
    requires Keyed(counts, keys)
  {
    if keys == [] then 0 else CountTotal(counts, keys[..|keys| - 1]) + counts[keys[|keys| - 1]]
  }

  function Share(count: int, total: int, outcomes: nat): real
    requires total > 0 && outcomes > 0
  {
    count as real / (total * outcomes) as real
  }

  ghost function Ratio(a: int, b: int): real
    requires b > 0
  {
    a as real / b as real
  }

  function Mass(outcomes: seq<OutcomeProbability>): real {
    if outcomes == [] then 0.0 else Mass(outcomes[..|outcomes| - 1]) + outcomes[|outcomes| - 1].probability
  }

  /** One collection's outcomes, in pool order. */
  function PoolOutcomes(c: int, skins: seq<int>, share: real): (r: seq<OutcomeProbability>)
    ensures |r| == |skins| && forall i | 0 <= i < |r| :: r[i] == OutcomeProbability(c, skins[i], share)
  {
    seq(|skins|, i requires 0 <= i < |skins| => OutcomeProbability(c, skins[i], share))
  }

  /** Every collection's outcomes, collections ascending. */
  function AllOutcomes(counts: map<int, int>, pools: map<int, EligibleOutputPool>, keys: seq<int>, total: int)
      : seq<OutcomeProbability>
    requires total > 0 && AllUsable(counts, pools, keys)
  {
    if keys == [] then []
    else
      var c := keys[|keys| - 1];
      AllOutcomes(counts, pools, keys[..|keys| - 1], total)
      + PoolOutcomes(c, pools[c].outputs, Share(counts[c], total, |pools[c].outputs|))
  }

  // ----- exactly one

  lemma {:induction false} MassAppend(a: seq<OutcomeProbability>, b: seq<OutcomeProbability>)
    ensures Mass(a + b) == Mass(a) + Mass(b)
  {
    if b == [] {
      assert a + b == a;
    } else {
      assert (a + b)[..|a + b| - 1] == a + b[..|b| - 1];
      MassAppend(a, b[..|b| - 1]);
    }
  }

  lemma {:induction false} EqualMass(c: int, skins: seq<int>, share: real)
    ensures Mass(PoolOutcomes(c, skins, share)) == Times(|skins| as real, share)
  {
    var outcomes := PoolOutcomes(c, skins, share);
    if skins != [] {
      EqualMass(c, skins[..|skins| - 1], share);
      assert outcomes[..|outcomes| - 1] == PoolOutcomes(c, skins[..|skins| - 1], share);
    }
  }

  lemma ShareOfMass(count: int, total: int, outcomes: nat)
    requires total > 0 && outcomes > 0
    ensures Times(outcomes as real, Share(count, total, outcomes)) == Ratio(count, total)
  {
    var n, t, k := count as real, total as real, outcomes as real;
    assert (total * outcomes) as real == t * k;
    assert t * k > 0.0;
    var share := n / (t * k);
    assert share * (t * k) == n;
    assert k * share * t == n;
  }

  lemma AddQuotients(a: int, b: int, total: int)
    requires total > 0
    ensures Ratio(a, total) + Ratio(b, total) == Ratio(a + b, total)
  {
  }

  /** Every collection gets mass in proportion to its inputs. */
  lemma {:induction false} MassIsInputShare(counts: map<int, int>, pools: map<int, EligibleOutputPool>, keys: seq<int>,
                                            total: int)
    requires total > 0 && AllUsable(counts, pools, keys)
    ensures Mass(AllOutcomes(counts, pools, keys, total)) == Ratio(CountTotal(counts, keys), total)
  {
    if keys != [] {
      var rest, c := keys[..|keys| - 1], keys[|keys| - 1];
      var k := |pools[c].outputs|;
      MassIsInputShare(counts, pools, rest, total);
      MassAppend(AllOutcomes(counts, pools, rest, total),
                 PoolOutcomes(c, pools[c].outputs, Share(counts[c], total, k)));
      EqualMass(c, pools[c].outputs, Share(counts[c], total, k));
      ShareOfMass(counts[c], total, k);
      AddQuotients(CountTotal(counts, rest), counts[c], total);
    }
  }

  lemma {:induction false} PositiveTotal(counts: map<int, int>, keys: seq<int>)
    requires keys != [] && Keyed(counts, keys) && forall i | 0 <= i < |keys| :: counts[keys[i]] > 0
    ensures CountTotal(counts, keys) > 0
  {
    if |keys| == 1 {
      assert CountTotal(counts, keys[..0]) == 0;
    } else {
      PositiveTotal(counts, keys[..|keys| - 1]);
    }
  }

  ghost predicate IsFirstFault(counts: map<int, int>, pools: map<int, EligibleOutputPool>, c: int)
    requires c in counts
  {
    !Usable(counts, pools, c) && forall d | d in counts && d < c :: Usable(counts, pools, d)
  }

  /** The error names collection `c` and the first thing wrong with it. */
  ghost predicate Describes(e: MathematicsError, counts: map<int, int>, pools: map<int, EligibleOutputPool>, c: int)
    requires c in counts
  {
    || (counts[c] < 1 && e == NonPositiveCount(c))
    || (counts[c] >= 1 && c !in pools && e == NoPool(c))
    || (counts[c] >= 1 && c in pools && pools[c] == EligibleOutputPool([]) && e == EmptyPool(c))
  }

  ghost predicate ReportsFirstFault(counts: map<int, int>, pools: map<int, EligibleOutputPool>, e: MathematicsError) {
    exists c | c in counts :: IsFirstFault(counts, pools, c) && Describes(e, counts, pools, c)
  }

  lemma KeysAreCollections(counts: map<int, int>, pools: map<int, EligibleOutputPool>)
    requires counts != map[]
    ensures var keys := SortedKeys(counts.Keys);
            keys != [] && InOrder(counts, keys)
            && (AllUsable(counts, pools, keys) <==> forall c | c in counts :: Usable(counts, pools, c))
  {
    var keys := SortedKeys(counts.Keys);
    var c := Sorting.Some(counts.Keys);
    assert c in keys;
    assert forall i | 0 <= i < |keys| :: keys[i] in keys;
    assert forall c | c in counts :: c in keys;
  }

  lemma WholeIsOne(total: int)
    requires total > 0
    ensures Ratio(total, total) == 1.0
  {
  }

  /** Whatever the counts and pools, the mass is exactly one. */
  lemma MassIsOne(counts: map<int, int>, pools: map<int, EligibleOutputPool>, keys: seq<int>)
    requires AllUsable(counts, pools, keys) && CountTotal(counts, keys) > 0
    ensures Mass(AllOutcomes(counts, pools, keys, CountTotal(counts, keys))) == 1.0
  {
    var total := CountTotal(counts, keys);
    MassIsInputShare(counts, pools, keys, total);
    WholeIsOne(total);
  }

  lemma {:induction false} SharesArePositive(counts: map<int, int>, pools: map<int, EligibleOutputPool>, keys: seq<int>,
                                             total: int)
    requires total > 0 && AllUsable(counts, pools, keys)
    ensures forall o | o in AllOutcomes(counts, pools, keys, total) :: o.probability > 0.0
  {
    if keys != [] {
      SharesArePositive(counts, pools, keys[..|keys| - 1], total);
    }
  }

  lemma {:induction false} PartOfMass(outcomes: seq<OutcomeProbability>)
    requires forall o | o in outcomes :: o.probability > 0.0
    ensures Mass(outcomes) >= 0.0 && forall o | o in outcomes :: o.probability <= Mass(outcomes)
  {
    if outcomes != [] {
      var rest, last := outcomes[..|outcomes| - 1], outcomes[|outcomes| - 1];
      assert last in outcomes && outcomes == rest + [last];
      PartOfMass(rest);
    }
  }

  /** Every outcome listed is possible, as the construction of a candidate demands. */
  lemma EveryOutcomeIsPossible(counts: map<int, int>, pools: map<int, EligibleOutputPool>, keys: seq<int>)
    requires AllUsable(counts, pools, keys) && CountTotal(counts, keys) > 0
    ensures forall o | o in AllOutcomes(counts, pools, keys, CountTotal(counts, keys)) :: 0.0 < o.probability <= 1.0
  {
    SharesArePositive(counts, pools, keys, CountTotal(counts, keys));
    PartOfMass(AllOutcomes(counts, pools, keys, CountTotal(counts, keys)));
    MassIsOne(counts, pools, keys);
  }

  lemma SomeCountNotPositive(counts: map<int, int>, pools: map<int, EligibleOutputPool>, keys: seq<int>)
    requires keys != [] && Keyed(counts, keys) && CountTotal(counts, keys) <= 0
    ensures !AllUsable(counts, pools, keys)
  {
    if AllUsable(counts, pools, keys) {
      PositiveTotal(counts, keys);
    }
  }

  ghost predicate StopsOnFault(counts: map<int, int>, pools: map<int, EligibleOutputPool>, keys: seq<int>,
                               e: MathematicsError)
    requires Keyed(counts, keys)
  {
    exists i | 0 <= i < |keys| ::
      !Usable(counts, pools, keys[i]) && e == Fault(counts, pools, keys[i]) && AllUsable(counts, pools, keys[..i])
  }

  lemma EarlierKeysAreUsable(counts: map<int, int>, pools: map<int, EligibleOutputPool>, keys: seq<int>, i: nat)
    requires InOrder(counts, keys) && i < |keys|
    requires AllUsable(counts, pools, keys[..i])
    ensures forall d | d in counts && d < keys[i] :: Usable(counts, pools, d)
  {
    forall d | d in counts && d < keys[i] ensures Usable(counts, pools, d) {
      assert d in keys;
      var j :| 0 <= j < |keys| && keys[j] == d;
      assert j < i;
      assert keys[..i][j] == d;
    }
  }

  lemma LeastKeyIsFirstFault(counts: map<int, int>, pools: map<int, EligibleOutputPool>, keys: seq<int>,
                             e: MathematicsError)
    requires InOrder(counts, keys) && StopsOnFault(counts, pools, keys, e)
    ensures ReportsFirstFault(counts, pools, e) && !AllUsable(counts, pools, keys) && e != MassIsNotOne && e != NoInputs
  {
    var i :| 0 <= i < |keys| && !Usable(counts, pools, keys[i]) && e == Fault(counts, pools, keys[i])
      && AllUsable(counts, pools, keys[..i]);
    EarlierKeysAreUsable(counts, pools, keys, i);
    assert IsFirstFault(counts, pools, keys[i]) && Describes(e, counts, pools, keys[i]);
  }

  /** The loop over the collections, ascending. */
  method CollectOutcomes(counts: map<int, int>, pools: map<int, EligibleOutputPool>, keys: seq<int>, total: int)
      returns (r: Result<seq<OutcomeProbability>, MathematicsError>)
    requires total > 0 && Keyed(counts, keys)
    ensures r.Ok? <==> AllUsable(counts, pools, keys)
    ensures r.Ok? ==> r.value == AllOutcomes(counts, pools, keys, total)
    ensures r.Err? ==> StopsOnFault(counts, pools, keys, r.error)
  {
    var outcomes: seq<OutcomeProbability> := [];
    for i := 0 to |keys|
      invariant AllUsable(counts, pools, keys[..i]) && outcomes == AllOutcomes(counts, pools, keys[..i], total)
    {
      var c := keys[i];
      if !Usable(counts, pools, c) {
        return Err(Fault(counts, pools, c));
      }
      var share := Share(counts[c], total, |pools[c].outputs|);
      outcomes := outcomes + PoolOutcomes(c, pools[c].outputs, share);
      assert keys[..i + 1][..i] == keys[..i];
    }
    WholePrefix(keys);
    return Ok(outcomes);
  }

  /** What the collections give, once there are some and the method is supported. */
  method ProbabilitiesOver(counts: map<int, int>, pools: map<int, EligibleOutputPool>, keys: seq<int>)
      returns (r: Result<seq<OutcomeProbability>, MathematicsError>)
    requires InOrder(counts, keys) && keys != []
    ensures r.Ok? <==> AllUsable(counts, pools, keys)
    ensures r != Err(UnsupportedMethod) && r != Err(NoCollections) && r != Err(MassIsNotOne)
    ensures r == Err(NoInputs) <==> CountTotal(counts, keys) <= 0
    ensures r.Ok? ==>
      && CountTotal(counts, keys) > 0 && r.value == AllOutcomes(counts, pools, keys, CountTotal(counts, keys))
      && Mass(r.value) == 1.0
    ensures r.Err? && r.error != NoInputs ==> ReportsFirstFault(counts, pools, r.error)
  {
    var total := CountTotal(counts, keys);
    if total <= 0 {
      SomeCountNotPositive(counts, pools, keys);
      return Err(NoInputs);
    }
    r := CollectOutcomes(counts, pools, keys, total);
    if r.Err? {
      LeastKeyIsFirstFault(counts, pools, keys, r.error);
    } else {
      MassIsOne(counts, pools, keys);
      if Mass(r.value) != 1.0 {
        return Err(MassIsNotOne);
      }
    }
  }

  /** Fails exactly on an unsupported method or an unusable collection; the final mass check is never reached. */
  method OutcomeProbabilities(counts: map<int, int>, pools: map<int, EligibleOutputPool>, methodSupported: bool)
      returns (r: Result<seq<OutcomeProbability>, MathematicsError>)
    ensures r.Ok? <==> methodSupported && counts != map[] && forall c | c in counts :: Usable(counts, pools, c)
    ensures r != Err(MassIsNotOne)
    ensures r == Err(UnsupportedMethod) <==> !methodSupported
    ensures r == Err(NoCollections) <==> methodSupported && counts == map[]
    ensures methodSupported && counts != map[] ==>
      var keys := SortedKeys(counts.Keys);
      && (r == Err(NoInputs) <==> CountTotal(counts, keys) <= 0)
      && (r.Ok? ==> CountTotal(counts, keys) > 0
                    && r.value == AllOutcomes(counts, pools, keys, CountTotal(counts, keys)) && Mass(r.value) == 1.0)
      && (r.Err? && r.error != NoInputs ==> ReportsFirstFault(counts, pools, r.error))
  {
    if !methodSupported {
      return Err(UnsupportedMethod);
    }
    if counts == map[] {
      return Err(NoCollections);
    }
    KeysAreCollections(counts, pools);
    r := ProbabilitiesOver(counts, pools, SortedKeys(counts.Keys));
  }

  // ----- per skin

  function MassOf(outcomes: seq<OutcomeProbability>, skin: int): real {
    if outcomes == [] then 0.0
    else MassOf(outcomes[..|outcomes| - 1], skin)
         + if outcomes[|outcomes| - 1].skin == skin then outcomes[|outcomes| - 1].probability else 0.0
  }

  /** A skin two collections share is priced once, with both their masses. */
  method AggregateBySkin(outcomes: seq<OutcomeProbability>) returns (merged: map<int, real>)
    ensures merged.Keys == set o | o in outcomes :: o.skin
    ensures forall s | s in merged :: merged[s] == MassOf(outcomes, s)
  {
    merged := map[];
    for i := 0 to |outcomes|
      invariant merged.Keys == set o | o in outcomes[..i] :: o.skin
      invariant forall s :: MassOf(outcomes[..i], s) == if s in merged then merged[s] else 0.0
    {
      var outcome := outcomes[i];
      PrefixStep(outcomes, i);
      assert outcomes[..i + 1][..i] == outcomes[..i];
      var soFar := if outcome.skin in merged then merged[outcome.skin] else 0.0;
      merged := merged[outcome.skin := soFar + outcome.probability];
    }
    WholePrefix(outcomes);
  }

  function MassOfAll(outcomes: seq<OutcomeProbability>, skins: seq<int>): real {
    if skins == [] then 0.0 else MassOfAll(outcomes, skins[..|skins| - 1]) + MassOf(outcomes, skins[|skins| - 1])
  }

  lemma {:induction false} MassOfAllStep(outcomes: seq<OutcomeProbability>, skins: seq<int>)
    requires outcomes != [] && Distinct(skins)
    ensures var last := outcomes[|outcomes| - 1];
            MassOfAll(outcomes, skins)
              == MassOfAll(outcomes[..|outcomes| - 1], skins) + (if last.skin in skins then last.probability else 0.0)
  {
    if skins != [] {
      MassOfAllStep(outcomes, skins[..|skins| - 1]);
      assert skins == skins[..|skins| - 1] + [skins[|skins| - 1]];
    }
  }

  lemma {:induction false} NoOutcomesNoMass(skins: seq<int>)
    ensures MassOfAll([], skins) == 0.0
  {
    if skins != [] {
      NoOutcomesNoMass(skins[..|skins| - 1]);
    }
  }

  /** Aggregation conserves probability: the skins' masses add up to the outcomes'. */
  lemma {:induction false} AggregationConservesMass(outcomes: seq<OutcomeProbability>, skins: seq<int>)
    requires Distinct(skins) && forall o | o in outcomes :: o.skin in skins
    ensures MassOfAll(outcomes, skins) == Mass(outcomes)
  {
    if outcomes == [] {
      NoOutcomesNoMass(skins);
    } else {
      MassOfAllStep(outcomes, skins);
      AggregationConservesMass(outcomes[..|outcomes| - 1], skins);
    }
  }
}
