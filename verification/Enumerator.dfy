/** Collection-composition enumeration (src/tradeup/discovery/enumerator.py). */
module Enumerator {
  import opened Bundle
  import opened Sorting
  import opened Wrappers

  datatype Limits = Limits(maxDistinct: nat, minInputs: nat)

  type CompositionConstraints = l: Limits | l.maxDistinct >= 1 && l.minInputs >= 1 witness Limits(2, 1)

  // ----- lists without repetition

  lemma DistinctAppend<T>(a: seq<T>, b: seq<T>)
    requires Distinct(a) && Distinct(b) && forall x | x in a :: x !in b
    ensures Distinct(a + b)
  {
    forall i, j | 0 <= i < j < |a + b| ensures (a + b)[i] != (a + b)[j] {
      if i < |a| <= j {
        assert (a + b)[i] in a && (a + b)[j] in b;
      }
    }
  }

  function PrependAll<T>(x: T, ss: seq<seq<T>>): (r: seq<seq<T>>)
    ensures |r| == |ss| && forall i | 0 <= i < |ss| :: r[i] == [x] + ss[i]
  {
    seq(|ss|, i requires 0 <= i < |ss| => [x] + ss[i])
  }

  lemma PrependAllContents<T(!new)>(x: T, ss: seq<seq<T>>)
    ensures forall s :: s in PrependAll(x, ss) <==> s != [] && s[0] == x && s[1..] in ss
    ensures Distinct(ss) ==> Distinct(PrependAll(x, ss))
  {
    var r := PrependAll(x, ss);
    forall s ensures s in r <==> s != [] && s[0] == x && s[1..] in ss {
      if s in r {
        var i :| 0 <= i < |r| && r[i] == s;
        assert s[1..] == ss[i];
      }
      if s != [] && s[0] == x && s[1..] in ss {
        var i :| 0 <= i < |ss| && ss[i] == s[1..];
        assert r[i] == s;
      }
    }
    if Distinct(ss) {
      forall i, j | 0 <= i < j < |r| ensures r[i] != r[j] {
        assert r[i][1..] == ss[i] && r[j][1..] == ss[j];
      }
    }
  }

  // ----- ordered partitions

  function Sum(s: seq<nat>): nat {
    if s == [] then 0 else s[0] + Sum(s[1..])
  }

  /** `_partitions`: every way to split `total` into one bounded part per cap. */
  function Partitions(total: int, caps: seq<nat>, minimum: nat): seq<seq<nat>>
    decreases |caps|, 0, 0
  {
    if |caps| == 0 then []
    else if |caps| == 1 then (if minimum <= total <= caps[0] then [[total]] else [])
    else
      var room := total - minimum * (|caps| - 1);
      PartitionsFrom(minimum, if caps[0] <= room then caps[0] else room, total, caps, minimum)
  }

  /** The partitions whose first part runs from `first` to `upper`. */
  function PartitionsFrom(first: nat, upper: int, total: int, caps: seq<nat>, minimum: nat): seq<seq<nat>>
    requires |caps| > 1
    decreases |caps| - 1, 1, upper - first + 1
  {
    if first > upper then []
    else PrependAll(first, Partitions(total - first, caps[1..], minimum))
         + PartitionsFrom(first + 1, upper, total, caps, minimum)
  }

  ghost predicate IsPartition(s: seq<nat>, total: int, caps: seq<nat>, minimum: nat) {
    |s| == |caps| > 0 && Sum(s) == total && forall i | 0 <= i < |s| :: minimum <= s[i] <= caps[i]
  }

  lemma {:induction false} SumAtLeast(s: seq<nat>, minimum: nat)
    requires forall i | 0 <= i < |s| :: minimum <= s[i]
    ensures Sum(s) >= minimum * |s|
  {
    if s != [] {
      SumAtLeast(s[1..], minimum);
    }
  }

  lemma HeadAndTail(s: seq<nat>, total: int, caps: seq<nat>, minimum: nat)
    requires |caps| > 1 && |s| == |caps|
    ensures IsPartition(s, total, caps, minimum)
       <==> minimum <= s[0] <= caps[0] && IsPartition(s[1..], total - s[0], caps[1..], minimum)
  {
    assert forall i | 1 <= i < |s| :: s[i] == s[1..][i - 1] && caps[i] == caps[1..][i - 1];
  }

  /** Sound, complete and without repetition. */
  lemma {:induction false} PartitionsCorrect(total: int, caps: seq<nat>, minimum: nat)
    ensures forall s :: s in Partitions(total, caps, minimum) <==> IsPartition(s, total, caps, minimum)
    ensures Distinct(Partitions(total, caps, minimum))
    decreases |caps|, 0, 0
  {
    if |caps| == 1 {
      forall s ensures s in Partitions(total, caps, minimum) <==> IsPartition(s, total, caps, minimum) {
        assert |s| == 1 ==> s == [s[0]] && Sum(s) == s[0];
      }
    } else if |caps| > 1 {
      var room := total - minimum * (|caps| - 1);
      PartitionsFromCorrect(minimum, if caps[0] <= room then caps[0] else room, total, caps, minimum);
      forall s ensures s in Partitions(total, caps, minimum) <==> IsPartition(s, total, caps, minimum) {
        if |s| == |caps| {
          HeadAndTail(s, total, caps, minimum);
        }
        if IsPartition(s, total, caps, minimum) {
          SumAtLeast(s[1..], minimum);
        }
      }
    }
  }

  lemma {:induction false} PartitionsFromCorrect(first: nat, upper: int, total: int, caps: seq<nat>, minimum: nat)
    requires |caps| > 1
    ensures forall s :: s in PartitionsFrom(first, upper, total, caps, minimum)
                   <==> |s| == |caps| && first <= s[0] <= upper && IsPartition(s[1..], total - s[0], caps[1..], minimum)
    ensures Distinct(PartitionsFrom(first, upper, total, caps, minimum))
    decreases |caps| - 1, 1, upper - first + 1
  {
    if first <= upper {
      PartitionsCorrect(total - first, caps[1..], minimum);
      PartitionsFromCorrect(first + 1, upper, total, caps, minimum);
      StartingAt(first, Partitions(total - first, caps[1..], minimum), total, caps, minimum);
      DistinctAppend(PrependAll(first, Partitions(total - first, caps[1..], minimum)),
                     PartitionsFrom(first + 1, upper, total, caps, minimum));
    }
  }

  lemma StartingAt(first: nat, rest: seq<seq<nat>>, total: int, caps: seq<nat>, minimum: nat)
    requires |caps| > 1 && Distinct(rest)
    requires forall s :: s in rest <==> IsPartition(s, total - first, caps[1..], minimum)
    ensures Distinct(PrependAll(first, rest))
    ensures forall s :: s in PrependAll(first, rest)
                   <==> |s| == |caps| && s[0] == first && IsPartition(s[1..], total - s[0], caps[1..], minimum)
  {
    PrependAllContents(first, rest);
  }

  // ----- combinations

  /** `itertools.combinations(ids, size)`. */
  function Combinations(ids: seq<int>, size: nat): seq<seq<int>> {
    if size == 0 then [[]]
    else if ids == [] then []
    else PrependAll(ids[0], Combinations(ids[1..], size - 1)) + Combinations(ids[1..], size)
  }

  ghost predicate IsCombination(c: seq<int>, ids: seq<int>, size: nat) {
    |c| == size && Ascending(c) && forall i | 0 <= i < |c| :: c[i] in ids
  }

  /** Of ascending ids, the combinations are exactly the ascending choices, each produced once. */
  lemma {:induction false} CombinationsCorrect(ids: seq<int>, size: nat)
    requires Ascending(ids)
    ensures forall c :: c in Combinations(ids, size) <==> IsCombination(c, ids, size)
    ensures Distinct(Combinations(ids, size))
  {
    if size > 0 && ids != [] {
      var x, rest := ids[0], ids[1..];
      var withX, without := Combinations(rest, size - 1), Combinations(rest, size);
      CombinationsCorrect(rest, size - 1);
      CombinationsCorrect(rest, size);
      PrependAllContents(x, withX);
      forall c ensures c in Combinations(ids, size) <==> IsCombination(c, ids, size) {
        CombinationSplit(c, ids, size);
      }
      forall c | c in without ensures c != [] && c[0] != x {
        assert c[0] in rest;
      }
      DistinctAppend(PrependAll(x, withX), without);
    } else {
      forall c ensures c in Combinations(ids, size) <==> IsCombination(c, ids, size) {
        assert c == [] <==> |c| == 0;
        CombinationNeedsIds(c, ids, size);
      }
    }
  }

  lemma CombinationNeedsIds(c: seq<int>, ids: seq<int>, size: nat)
    ensures IsCombination(c, ids, size) && size > 0 ==> ids != []
  {
    if IsCombination(c, ids, size) && size > 0 {
      assert c[0] in ids;
    }
  }

  lemma CombinationSplit(c: seq<int>, ids: seq<int>, size: nat)
    requires Ascending(ids) && ids != [] && size > 0
    ensures IsCombination(c, ids, size)
       <==> (c != [] && c[0] == ids[0] && IsCombination(c[1..], ids[1..], size - 1))
            || IsCombination(c, ids[1..], size)
  {
    assert forall y :: y in ids <==> y == ids[0] || y in ids[1..];
    assert forall y | y in ids[1..] :: y > ids[0];
    if IsCombination(c, ids, size) {
      assert c[0] in ids;
      assert forall i | 1 <= i < |c| :: c[i] > c[0] && c[i] in ids[1..];
      assert forall i | 0 <= i < |c[1..]| :: c[1..][i] == c[i + 1];
    }
    if c != [] && c[0] == ids[0] && IsCombination(c[1..], ids[1..], size - 1) {
      assert forall i | 1 <= i < |c| :: c[i] == c[1..][i - 1] && c[i] in ids[1..];
    }
  }

  // ----- compositions

  /** `dict(zip(subset, counts))`. */
  function Zip(subset: seq<int>, counts: seq<nat>): (m: map<int, nat>)
    requires |subset| == |counts|
    ensures forall c :: c in m <==> c in subset
  {
    if subset == [] then map[]
    else
      var n := |subset| - 1;
      assert subset == subset[..n] + [subset[n]];
      Zip(subset[..n], counts[..n])[subset[n] := counts[n]]
  }

  lemma {:induction false} SumSnoc(s: seq<nat>, x: nat)
    ensures Sum(s + [x]) == Sum(s) + x
  {
    if s != [] {
      assert (s + [x])[1..] == s[1..] + [x];
      SumSnoc(s[1..], x);
    }
  }

  lemma {:induction false} ZipAt(subset: seq<int>, counts: seq<nat>, i: nat)
    requires |subset| == |counts| && Ascending(subset) && i < |subset|
    ensures Zip(subset, counts)[subset[i]] == counts[i]
  {
    if i < |subset| - 1 {
      ZipAt(subset[..|subset| - 1], counts[..|subset| - 1], i);
    }
  }

  lemma ZipKeys(subset: seq<int>, counts: seq<nat>)
    requires |subset| == |counts| && Ascending(subset)
    ensures SortedKeys(Zip(subset, counts).Keys) == subset
  {
    AscendingUnique(SortedKeys(Zip(subset, counts).Keys), subset);
  }

  /** A map is the zip of its sorted keys with its values. */
  lemma ZipOfValues(m: Composition, keys: seq<int>, values: seq<nat>)
    requires keys == SortedKeys(m.Keys) && |values| == |keys|
    requires forall i | 0 <= i < |keys| :: values[i] == m[keys[i]]
    ensures Zip(keys, values) == m
  {
    forall c | c in m ensures Zip(keys, values)[c] == m[c] {
      assert c in m.Keys && c in keys;
      var i := Position(keys, c);
      ZipAt(keys, values, i);
    }
    assert forall c :: c in Zip(keys, values).Keys <==> c in m.Keys;
    SameMap(Zip(keys, values), m);
  }

  lemma Position(s: seq<int>, x: int) returns (i: nat)
    requires x in s
    ensures i < |s| && s[i] == x
  {
    i :| 0 <= i < |s| && s[i] == x;
  }

  lemma SameMap<K, V>(a: map<K, V>, b: map<K, V>)
    requires a.Keys == b.Keys && forall c | c in a :: a[c] == b[c]
    ensures a == b
  {
  }

  lemma {:induction false} TotalOfValues(m: Composition, keys: seq<int>, values: seq<nat>)
    requires |keys| == |values| && forall i | 0 <= i < |keys| :: keys[i] in m && values[i] == m[keys[i]]
    ensures CountsOver(keys, m) == Sum(values)
  {
    if keys != [] {
      var n := |keys| - 1;
      TotalOfValues(m, keys[..n], values[..n]);
      SumSnoc(values[..n], values[n]);
      assert values == values[..n] + [values[n]];
    }
  }

  ghost predicate Between(m: map<int, nat>, minInputs: nat, caps: map<int, nat>) {
    forall c | c in m :: c in caps && minInputs <= m[c] <= caps[c]
  }

  /** Every shape the search is willing to consider. */
  ghost predicate Admissible(m: Composition, available: map<int, nat>, inputCount: int,
                             limits: CompositionConstraints)
  {
    && |m| <= limits.maxDistinct
    && Between(m, limits.minInputs, available)
    && TotalInputs(m) == inputCount
  }

  /** What each collection can contribute at most: never more than the contract holds. */
  function Usable(available: map<int, nat>, inputCount: nat, minInputs: nat): (u: map<int, nat>) {
    map c | c in available && available[c] >= minInputs ::
      if available[c] <= inputCount then available[c] else inputCount
  }

  function Caps(subset: seq<int>, usable: map<int, nat>): (caps: seq<nat>)
    ensures |caps| == |subset|
    ensures forall i | 0 <= i < |subset| :: caps[i] == if subset[i] in usable then usable[subset[i]] else 0
  {
    seq(|subset|, i requires 0 <= i < |subset| => if subset[i] in usable then usable[subset[i]] else 0)
  }

  function AsComposition(subset: seq<int>, counts: seq<nat>): Composition
    requires |subset| == |counts| > 0 && forall i | 0 <= i < |counts| :: counts[i] >= 1
  {
    ZipPositive(subset, counts);
    Zip(subset, counts)
  }

  lemma {:induction false} ZipPositive(subset: seq<int>, counts: seq<nat>)
    requires |subset| == |counts| && forall i | 0 <= i < |counts| :: counts[i] >= 1
    ensures forall c | c in Zip(subset, counts) :: Zip(subset, counts)[c] >= 1
    ensures |subset| > 0 ==> |Zip(subset, counts)| > 0
  {
    if subset != [] {
      var n := |subset| - 1;
      ZipPositive(subset[..n], counts[..n]);
      assert subset[n] in Zip(subset, counts);
    }
  }

  /** Within what is usable, and adding up to the contract size. */
  ghost predicate Fitting(m: Composition, usable: map<int, nat>, inputCount: int, minInputs: nat) {
    Between(m, minInputs, usable) && TotalInputs(m) == inputCount
  }

  predicate Positive(parts: seq<seq<nat>>, size: nat) {
    forall s | s in parts :: |s| == size > 0 && forall i | 0 <= i < size :: s[i] >= 1
  }

  function Compositions(subset: seq<int>, parts: seq<seq<nat>>): (r: seq<Composition>)
    requires Positive(parts, |subset|)
    ensures |r| == |parts|
    ensures forall i | 0 <= i < |parts| :: parts[i] in parts && r[i] == AsComposition(subset, parts[i])
  {
    seq(|parts|, i requires 0 <= i < |parts| =>
      assert parts[i] in parts;
      AsComposition(subset, parts[i]))
  }

  /** The shapes over one subset of collections. */
  function Shapes(subset: seq<int>, usable: map<int, nat>, inputCount: nat, minInputs: nat): seq<Composition>
    requires minInputs >= 1
  {
    var caps := Caps(subset, usable);
    if Sum(caps) < inputCount then []
    else
      PartitionsPositive(inputCount, caps, minInputs);
      Compositions(subset, Partitions(inputCount, caps, minInputs))
  }

  lemma PartitionsPositive(total: int, caps: seq<nat>, minimum: nat)
    requires minimum >= 1
    ensures Positive(Partitions(total, caps, minimum), |caps|)
  {
    PartitionsCorrect(total, caps, minimum);
  }

  lemma {:induction false} SumAtMost(s: seq<nat>, caps: seq<nat>)
    requires |s| == |caps| && forall i | 0 <= i < |s| :: s[i] <= caps[i]
    ensures Sum(s) <= Sum(caps)
  {
    if s != [] {
      SumAtMost(s[1..], caps[1..]);
    }
  }

  lemma ShapeOfPartition(subset: seq<int>, usable: map<int, nat>, inputCount: nat, minInputs: nat, s: seq<nat>)
    requires minInputs >= 1 && Ascending(subset) && forall i | 0 <= i < |subset| :: subset[i] in usable
    requires IsPartition(s, inputCount, Caps(subset, usable), minInputs)
    ensures SortedKeys(AsComposition(subset, s).Keys) == subset
    ensures Fitting(AsComposition(subset, s), usable, inputCount, minInputs)
    ensures forall i | 0 <= i < |subset| :: AsComposition(subset, s)[subset[i]] == s[i]
  {
    var m := AsComposition(subset, s);
    ZipKeys(subset, s);
    forall i | 0 <= i < |subset| ensures m[subset[i]] == s[i] {
      ZipAt(subset, s, i);
    }
    forall c | c in m ensures c in usable && minInputs <= m[c] <= usable[c] {
      var i :| 0 <= i < |subset| && subset[i] == c;
    }
    TotalOfValues(m, subset, s);
  }

  lemma PartitionOfShape(m: Composition, usable: map<int, nat>, inputCount: nat, minInputs: nat)
    requires minInputs >= 1 && Fitting(m, usable, inputCount, minInputs)
    ensures IsPartition(Values(m), inputCount, Caps(SortedKeys(m.Keys), usable), minInputs)
  {
    ValuesTotal(m);
    ValuesWithin(m, usable, minInputs);
  }

  lemma ValuesWithin(m: Composition, usable: map<int, nat>, minInputs: nat)
    requires Between(m, minInputs, usable)
    ensures forall i | 0 <= i < |Values(m)| :: minInputs <= Values(m)[i] <= Caps(SortedKeys(m.Keys), usable)[i]
  {
    forall i | 0 <= i < |Values(m)| ensures minInputs <= Values(m)[i] <= Caps(SortedKeys(m.Keys), usable)[i] {
      assert SortedKeys(m.Keys)[i] in m;
    }
  }

  /** The counts in ascending collection order. */
  function Values(m: Composition): (s: seq<nat>)
    ensures |s| == |SortedKeys(m.Keys)| == |m|
    ensures forall i | 0 <= i < |s| :: SortedKeys(m.Keys)[i] in m && s[i] == m[SortedKeys(m.Keys)[i]]
  {
    var keys := SortedKeys(m.Keys);
    assert |keys| == |m.Keys| == |m|;
    assert forall i | 0 <= i < |keys| :: keys[i] in m.Keys;
    seq(|keys|, i requires 0 <= i < |keys| => m[keys[i]])
  }

  lemma ValuesTotal(m: Composition)
    ensures Sum(Values(m)) == TotalInputs(m)
  {
    TotalOfValues(m, SortedKeys(m.Keys), Values(m));
  }

  lemma ValuesRebuild(m: Composition)
    ensures AsComposition(SortedKeys(m.Keys), Values(m)) == m
  {
    ZipOfValues(m, SortedKeys(m.Keys), Values(m));
  }

  lemma ShapesCorrect(subset: seq<int>, usable: map<int, nat>, inputCount: nat, minInputs: nat)
    requires minInputs >= 1 && Ascending(subset) && forall i | 0 <= i < |subset| :: subset[i] in usable
    ensures forall m: Composition :: m in Shapes(subset, usable, inputCount, minInputs)
                   <==> SortedKeys(m.Keys) == subset && Fitting(m, usable, inputCount, minInputs)
    ensures Distinct(Shapes(subset, usable, inputCount, minInputs))
  {
    forall m: Composition
      ensures m in Shapes(subset, usable, inputCount, minInputs)
         <==> SortedKeys(m.Keys) == subset && Fitting(m, usable, inputCount, minInputs)
    {
      if m in Shapes(subset, usable, inputCount, minInputs) {
        ShapesSound(subset, usable, inputCount, minInputs, m);
      }
      if SortedKeys(m.Keys) == subset && Fitting(m, usable, inputCount, minInputs) {
        ShapesComplete(subset, usable, inputCount, minInputs, m);
      }
    }
    ShapesDistinct(subset, usable, inputCount, minInputs);
  }

  lemma ShapesSound(subset: seq<int>, usable: map<int, nat>, inputCount: nat, minInputs: nat, m: Composition)
    requires minInputs >= 1 && Ascending(subset) && forall i | 0 <= i < |subset| :: subset[i] in usable
    requires m in Shapes(subset, usable, inputCount, minInputs)
    ensures SortedKeys(m.Keys) == subset && Fitting(m, usable, inputCount, minInputs)
  {
    var shapes := Shapes(subset, usable, inputCount, minInputs);
    var parts := Partitions(inputCount, Caps(subset, usable), minInputs);
    PartitionsCorrect(inputCount, Caps(subset, usable), minInputs);
    var i :| 0 <= i < |shapes| && shapes[i] == m;
    assert parts[i] in parts;
    ShapeOfPartition(subset, usable, inputCount, minInputs, parts[i]);
  }

  lemma ShapesComplete(subset: seq<int>, usable: map<int, nat>, inputCount: nat, minInputs: nat, m: Composition)
    requires minInputs >= 1 && SortedKeys(m.Keys) == subset && Fitting(m, usable, inputCount, minInputs)
    ensures m in Shapes(subset, usable, inputCount, minInputs)
  {
    PartitionOfShape(m, usable, inputCount, minInputs);
    ShapeListed(subset, usable, inputCount, minInputs, Values(m));
    ValuesRebuild(m);
  }

  lemma ShapeListed(subset: seq<int>, usable: map<int, nat>, inputCount: nat, minInputs: nat, s: seq<nat>)
    requires minInputs >= 1 && IsPartition(s, inputCount, Caps(subset, usable), minInputs)
    ensures AsComposition(subset, s) in Shapes(subset, usable, inputCount, minInputs)
  {
    PartitionsPositive(inputCount, Caps(subset, usable), minInputs);
    SumAtMost(s, Caps(subset, usable));
    PartitionListed(s, inputCount, Caps(subset, usable), minInputs);
    Listed(subset, Partitions(inputCount, Caps(subset, usable), minInputs), s);
  }

  lemma PartitionListed(s: seq<nat>, total: int, caps: seq<nat>, minimum: nat)
    requires IsPartition(s, total, caps, minimum)
    ensures s in Partitions(total, caps, minimum)
  {
    PartitionsCorrect(total, caps, minimum);
  }

  lemma Listed(subset: seq<int>, parts: seq<seq<nat>>, s: seq<nat>)
    requires Positive(parts, |subset|) && s in parts
    ensures AsComposition(subset, s) in Compositions(subset, parts)
  {
    var i :| 0 <= i < |parts| && parts[i] == s;
    assert Compositions(subset, parts)[i] == AsComposition(subset, s);
  }

  /** The counts a shape assigns to a subset, in order: the partition it came from. */
  function CountsOf(subset: seq<int>, m: map<int, nat>): (s: seq<nat>)
    requires forall i | 0 <= i < |subset| :: subset[i] in m
    ensures |s| == |subset| && forall i | 0 <= i < |s| :: s[i] == m[subset[i]]
  {
    seq(|subset|, i requires 0 <= i < |subset| => m[subset[i]])
  }

  ghost predicate HasCounts(subset: seq<int>, m: map<int, nat>, s: seq<nat>) {
    (forall i | 0 <= i < |subset| :: subset[i] in m) && CountsOf(subset, m) == s
  }

  lemma {:induction false} CountsOfShape(subset: seq<int>, usable: map<int, nat>, inputCount: nat, minInputs: nat,
                                         s: seq<nat>)
    requires minInputs >= 1 && Ascending(subset) && forall i | 0 <= i < |subset| :: subset[i] in usable
    requires IsPartition(s, inputCount, Caps(subset, usable), minInputs)
    ensures HasCounts(subset, AsComposition(subset, s), s)
  {
    ShapeOfPartition(subset, usable, inputCount, minInputs, s);
    KeysHaveCounts(subset, AsComposition(subset, s), s);
  }

  lemma {:induction false} KeysHaveCounts(subset: seq<int>, m: map<int, nat>, s: seq<nat>)
    requires SortedKeys(m.Keys) == subset && |s| == |subset|
    requires forall i | 0 <= i < |subset| :: subset[i] in m ==> m[subset[i]] == s[i]
    ensures HasCounts(subset, m, s)
  {
    assert forall i | 0 <= i < |subset| :: subset[i] in subset;
  }

  lemma {:induction false} ShapeAt(subset: seq<int>, usable: map<int, nat>, inputCount: nat, minInputs: nat, k: nat)
    requires minInputs >= 1 && Ascending(subset) && forall i | 0 <= i < |subset| :: subset[i] in usable
    requires k < |Shapes(subset, usable, inputCount, minInputs)|
    ensures k < |Partitions(inputCount, Caps(subset, usable), minInputs)|
    ensures HasCounts(subset, Shapes(subset, usable, inputCount, minInputs)[k],
                      Partitions(inputCount, Caps(subset, usable), minInputs)[k])
  {
    var parts := Partitions(inputCount, Caps(subset, usable), minInputs);
    PartitionsPositive(inputCount, Caps(subset, usable), minInputs);
    assert Shapes(subset, usable, inputCount, minInputs) == Compositions(subset, parts);
    assert parts[k] in parts;
    PartitionsCorrect(inputCount, Caps(subset, usable), minInputs);
    CountsOfShape(subset, usable, inputCount, minInputs, parts[k]);
  }

  lemma {:induction false} ShapesDistinct(subset: seq<int>, usable: map<int, nat>, inputCount: nat, minInputs: nat)
    requires minInputs >= 1 && Ascending(subset) && forall i | 0 <= i < |subset| :: subset[i] in usable
    ensures Distinct(Shapes(subset, usable, inputCount, minInputs))
  {
    var shapes := Shapes(subset, usable, inputCount, minInputs);
    PartitionsCorrect(inputCount, Caps(subset, usable), minInputs);
    forall i, j | 0 <= i < j < |shapes| ensures shapes[i] != shapes[j] {
      ShapeAt(subset, usable, inputCount, minInputs, i);
      ShapeAt(subset, usable, inputCount, minInputs, j);
    }
  }

  function FromSubsets(subsets: seq<seq<int>>, usable: map<int, nat>, inputCount: nat, minInputs: nat): seq<Composition>
    requires minInputs >= 1
  {
    if subsets == [] then []
    else Shapes(subsets[0], usable, inputCount, minInputs) + FromSubsets(subsets[1..], usable, inputCount, minInputs)
  }

  lemma {:induction false} FromSubsetsCorrect(subsets: seq<seq<int>>, usable: map<int, nat>, inputCount: nat,
                                              minInputs: nat)
    requires minInputs >= 1 && Distinct(subsets)
    requires forall s | s in subsets :: Ascending(s) && forall i | 0 <= i < |s| :: s[i] in usable
    ensures forall m: Composition :: m in FromSubsets(subsets, usable, inputCount, minInputs)
                   <==> SortedKeys(m.Keys) in subsets && Fitting(m, usable, inputCount, minInputs)
    ensures Distinct(FromSubsets(subsets, usable, inputCount, minInputs))
  {
    if subsets != [] {
      assert subsets[0] in subsets;
      ShapesCorrect(subsets[0], usable, inputCount, minInputs);
      FromSubsetsCorrect(subsets[1..], usable, inputCount, minInputs);
      assert forall s :: s in subsets <==> s == subsets[0] || s in subsets[1..];
      assert subsets[0] !in subsets[1..];
      DistinctAppend(Shapes(subsets[0], usable, inputCount, minInputs),
                     FromSubsets(subsets[1..], usable, inputCount, minInputs));
    }
  }

  /** The shapes over `size`, `size + 1`, ..., `largest` collections. */
  function FromSizes(size: nat, largest: nat, ids: seq<int>, usable: map<int, nat>, inputCount: nat, minInputs: nat)
      : seq<Composition>
    requires minInputs >= 1
    decreases largest - size
  {
    if size > largest then []
    else FromSubsets(Combinations(ids, size), usable, inputCount, minInputs)
         + FromSizes(size + 1, largest, ids, usable, inputCount, minInputs)
  }

  /** The shapes of these sizes, each once. */
  ghost predicate ListsSizes(shapes: seq<Composition>, size: nat, largest: nat, usable: map<int, nat>, inputCount: nat,
                             minInputs: nat)
  {
    && (forall m: Composition :: m in shapes <==> size <= |m| <= largest && Fitting(m, usable, inputCount, minInputs))
    && Distinct(shapes)
  }

  lemma OneSizeCorrect(size: nat, ids: seq<int>, usable: map<int, nat>, inputCount: nat, minInputs: nat)
    requires minInputs >= 1 && ids == SortedKeys(usable.Keys)
    ensures ListsSizes(FromSubsets(Combinations(ids, size), usable, inputCount, minInputs), size, size, usable,
                       inputCount, minInputs)
  {
    var subsets := Combinations(ids, size);
    CombinationsCorrect(ids, size);
    forall s | s in subsets ensures Ascending(s) && forall i | 0 <= i < |s| :: s[i] in usable {
      assert IsCombination(s, ids, size);
      assert forall i | 0 <= i < |s| :: s[i] in usable.Keys;
    }
    FromSubsetsCorrect(subsets, usable, inputCount, minInputs);
    forall m: Composition
      ensures m in FromSubsets(subsets, usable, inputCount, minInputs)
         <==> |m| == size && Fitting(m, usable, inputCount, minInputs)
    {
      KeysAreACombination(m, ids, usable, inputCount, minInputs, size);
    }
  }

  lemma SizesJoin(these: seq<Composition>, larger: seq<Composition>, size: nat, largest: nat, usable: map<int, nat>,
                  inputCount: nat, minInputs: nat)
    requires size <= largest && ListsSizes(these, size, size, usable, inputCount, minInputs)
    requires ListsSizes(larger, size + 1, largest, usable, inputCount, minInputs)
    ensures ListsSizes(these + larger, size, largest, usable, inputCount, minInputs)
  {
    DistinctAppend(these, larger);
  }

  lemma OneMoreSize(size: nat, largest: nat, ids: seq<int>, usable: map<int, nat>, inputCount: nat, minInputs: nat)
    requires minInputs >= 1 && ids == SortedKeys(usable.Keys) && size <= largest
    requires ListsSizes(FromSizes(size + 1, largest, ids, usable, inputCount, minInputs), size + 1, largest, usable,
                        inputCount, minInputs)
    ensures ListsSizes(FromSizes(size, largest, ids, usable, inputCount, minInputs), size, largest, usable, inputCount,
                       minInputs)
  {
    OneSizeCorrect(size, ids, usable, inputCount, minInputs);
    SizesJoin(FromSubsets(Combinations(ids, size), usable, inputCount, minInputs),
              FromSizes(size + 1, largest, ids, usable, inputCount, minInputs), size, largest, usable, inputCount,
              minInputs);
  }

  lemma {:induction false} FromSizesCorrect(size: nat, largest: nat, ids: seq<int>, usable: map<int, nat>,
                                            inputCount: nat, minInputs: nat)
    requires minInputs >= 1 && ids == SortedKeys(usable.Keys)
    ensures ListsSizes(FromSizes(size, largest, ids, usable, inputCount, minInputs), size, largest, usable, inputCount,
                       minInputs)
    decreases largest - size
  {
    if size > largest {
      assert FromSizes(size, largest, ids, usable, inputCount, minInputs) == [];
    } else {
      FromSizesCorrect(size + 1, largest, ids, usable, inputCount, minInputs);
      OneMoreSize(size, largest, ids, usable, inputCount, minInputs);
    }
  }

  lemma KeysAreACombination(m: Composition, ids: seq<int>, usable: map<int, nat>, inputCount: nat, minInputs: nat,
                            size: nat)
    requires ids == SortedKeys(usable.Keys)
    ensures Fitting(m, usable, inputCount, minInputs) ==>
      (IsCombination(SortedKeys(m.Keys), ids, size) <==> |m| == size)
  {
    if Fitting(m, usable, inputCount, minInputs) {
      SortedSubset(m.Keys, usable.Keys);
    }
    assert |m.Keys| == |m|;
  }

  lemma SortedSubset(a: set<int>, b: set<int>)
    requires a <= b
    ensures IsCombination(SortedKeys(a), SortedKeys(b), |a|)
  {
    var keys := SortedKeys(a);
    forall i | 0 <= i < |keys| ensures keys[i] in SortedKeys(b) {
      assert keys[i] in a && keys[i] in b;
    }
  }

  function Min(a: nat, b: nat): nat {
    if a <= b then a else b
  }

  /** `enumerate_compositions`. */
  function EnumerateCompositions(available: map<int, nat>, inputCount: int, limits: CompositionConstraints)
      : Result<seq<Composition>, string>
  {
    if inputCount < 1 then Err("input_count must be positive")
    else
      var usable := Usable(available, inputCount, limits.minInputs);
      if usable == map[] then Ok([])
      else
        var ids := SortedKeys(usable.Keys);
        var largest := Min(Min(limits.maxDistinct, |ids|), inputCount);
        Ok(FromSizes(1, largest, ids, usable, inputCount, limits.minInputs))
  }

  /** Each admissible shape is produced exactly once, and nothing else is. */
  lemma EnumerationIsExact(available: map<int, nat>, inputCount: int, limits: CompositionConstraints)
    ensures EnumerateCompositions(available, inputCount, limits).Err? <==> inputCount < 1
    ensures inputCount >= 1 ==>
      && (forall m: Composition :: m in EnumerateCompositions(available, inputCount, limits).value
                 <==> Admissible(m, available, inputCount, limits))
      && Distinct(EnumerateCompositions(available, inputCount, limits).value)
  {
    if inputCount >= 1 {
      var usable := Usable(available, inputCount, limits.minInputs);
      var ids := SortedKeys(usable.Keys);
      var largest := Min(Min(limits.maxDistinct, |ids|), inputCount);
      FromSizesCorrect(1, largest, ids, usable, inputCount, limits.minInputs);
      forall m: Composition
        ensures Admissible(m, available, inputCount, limits)
           <==> 1 <= |m| <= largest && Fitting(m, usable, inputCount, limits.minInputs)
      {
        AdmissibleIsFitting(m, available, inputCount, limits);
      }
      forall m: Composition ensures usable == map[] ==> !Fitting(m, usable, inputCount, limits.minInputs) {
        if Fitting(m, usable, inputCount, limits.minInputs) {
          ShapeSize(m, usable, inputCount, limits.minInputs);
        }
      }
    }
  }

  /** A fitting shape mixes no more collections than are usable, nor than there are inputs. */
  lemma ShapeSize(m: Composition, usable: map<int, nat>, inputCount: nat, minInputs: nat)
    requires Fitting(m, usable, inputCount, minInputs)
    ensures usable.Keys != {} && 1 <= |m| <= |usable.Keys| && |m| <= inputCount
  {
    assert m.Keys <= usable.Keys;
    assert usable.Keys == m.Keys + (usable.Keys - m.Keys);
    assert |m.Keys| == |m|;
    PartsWithinTotal(m);
  }

  lemma AdmissibleIsFitting(m: Composition, available: map<int, nat>, inputCount: nat, limits: CompositionConstraints)
    ensures var usable := Usable(available, inputCount, limits.minInputs);
            Admissible(m, available, inputCount, limits)
            <==> 1 <= |m| <= Min(Min(limits.maxDistinct, |usable.Keys|), inputCount)
                 && Fitting(m, usable, inputCount, limits.minInputs)
  {
    var usable := Usable(available, inputCount, limits.minInputs);
    FittingIgnoresCaps(m, available, inputCount, limits.minInputs);
    if Fitting(m, usable, inputCount, limits.minInputs) {
      ShapeSize(m, usable, inputCount, limits.minInputs);
    }
  }

  lemma FittingIgnoresCaps(m: Composition, available: map<int, nat>, inputCount: nat, minInputs: nat)
    ensures Fitting(m, Usable(available, inputCount, minInputs), inputCount, minInputs)
       <==> Between(m, minInputs, available) && TotalInputs(m) == inputCount
  {
    if TotalInputs(m) == inputCount {
      PartsWithinTotal(m);
      CapsLoseNothing(m, available, inputCount, minInputs);
    }
  }

  /** Capping a collection at the contract size excludes no shape that adds up to it. */
  lemma CapsLoseNothing(m: map<int, nat>, available: map<int, nat>, inputCount: nat, minInputs: nat)
    requires forall c | c in m :: m[c] <= inputCount
    ensures Between(m, minInputs, available) <==> Between(m, minInputs, Usable(available, inputCount, minInputs))
  {
  }

  /** No collection contributes more than the contract holds, and every one contributes at least one input. */
  lemma PartsWithinTotal(m: Composition)
    ensures |m| <= TotalInputs(m) && forall c | c in m :: m[c] <= TotalInputs(m)
  {
    var keys := SortedKeys(m.Keys);
    assert |keys| == |m.Keys| == |m|;
    assert forall i | 0 <= i < |keys| :: keys[i] in m.Keys;
    CountsAtLeast(keys, m);
    forall c | c in m ensures m[c] <= TotalInputs(m) {
      assert c in m.Keys && c in keys;
    }
  }

  lemma {:induction false} CountsAtLeast(keys: seq<int>, m: Composition)
    requires forall i | 0 <= i < |keys| :: keys[i] in m
    ensures |keys| <= CountsOver(keys, m) && forall c | c in keys :: m[c] <= CountsOver(keys, m)
  {
    if keys != [] {
      var n := |keys| - 1;
      CountsAtLeast(keys[..n], m);
      assert keys == keys[..n] + [keys[n]];
    }
  }
}
