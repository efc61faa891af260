/**
 The order in which shapes are enumerated (src/tradeup/discovery/enumerator.py promises a deterministic one).  It
 decides which shapes a scan still reaches before its candidate cap.
 */
module EnumerationOrder {
  import opened Bundle
  import opened Enumerator
  import opened Sorting
  import opened Wrappers

  /** Smaller at the first place where the two differ. */
  ghost predicate LexLess(a: seq<int>, b: seq<int>) {
    exists i | 0 <= i < |a| && i < |b| :: DiffersAt(a, b, i)
  }

  ghost predicate DiffersAt(a: seq<int>, b: seq<int>, i: nat)
    requires i < |a| && i < |b|
  {
    a[..i] == b[..i] && a[i] < b[i]
  }

  ghost predicate Rising(ss: seq<seq<int>>) {
    forall i, j | 0 <= i < j < |ss| :: LexLess(ss[i], ss[j])
  }

  lemma PrependLess(x: int, a: seq<int>, b: seq<int>)
    requires LexLess(a, b)
    ensures LexLess([x] + a, [x] + b)
  {
    var i :| 0 <= i < |a| && i < |b| && DiffersAt(a, b, i);
    assert ([x] + a)[..i + 1] == [x] + a[..i] && ([x] + b)[..i + 1] == [x] + b[..i];
    assert DiffersAt([x] + a, [x] + b, i + 1);
  }

  lemma PrependRises(x: int, ss: seq<seq<int>>)
    requires Rising(ss)
    ensures Rising(PrependAll(x, ss))
  {
    forall i, j | 0 <= i < j < |ss| ensures LexLess(PrependAll(x, ss)[i], PrependAll(x, ss)[j]) {
      PrependLess(x, ss[i], ss[j]);
    }
  }

  lemma HeadLess(a: seq<int>, b: seq<int>)
    requires a != [] && b != [] && a[0] < b[0]
    ensures LexLess(a, b)
  {
    assert DiffersAt(a, b, 0);
  }

  lemma AppendRises(a: seq<seq<int>>, b: seq<seq<int>>)
    requires Rising(a) && Rising(b) && forall s, t | s in a && t in b :: s != [] && t != [] && s[0] < t[0]
    ensures Rising(a + b)
  {
    forall i, j | 0 <= i < j < |a + b| ensures LexLess((a + b)[i], (a + b)[j]) {
      if i < |a| <= j {
        assert (a + b)[i] in a && (a + b)[j] in b;
        HeadLess((a + b)[i], (a + b)[j]);
      }
    }
  }

  /** Partitions rise: the first part grows, then the second, and so on. */
  lemma {:induction false} PartitionsRise(total: int, caps: seq<nat>, minimum: nat)
    ensures Rising(Partitions(total, caps, minimum))
    decreases |caps|, 0, 0
  {
    if |caps| > 1 {
      var room := total - minimum * (|caps| - 1);
      PartitionsFromRise(minimum, if caps[0] <= room then caps[0] else room, total, caps, minimum);
    }
  }

  lemma {:induction false} PartitionsFromRise(first: nat, upper: int, total: int, caps: seq<nat>, minimum: nat)
    requires |caps| > 1
    ensures Rising(PartitionsFrom(first, upper, total, caps, minimum))
    decreases |caps| - 1, 1, upper - first + 1
  {
    if first <= upper {
      var these := PrependAll(first, Partitions(total - first, caps[1..], minimum));
      var larger := PartitionsFrom(first + 1, upper, total, caps, minimum);
      PartitionsRise(total - first, caps[1..], minimum);
      PrependRises(first, Partitions(total - first, caps[1..], minimum));
      PartitionsFromRise(first + 1, upper, total, caps, minimum);
      PartitionsFromCorrect(first + 1, upper, total, caps, minimum);
      AppendRises(these, larger);
    }
  }

  /** Combinations rise. */
  lemma {:induction false} CombinationsRise(ids: seq<int>, size: nat)
    requires Ascending(ids)
    ensures Rising(Combinations(ids, size))
  {
    if size > 0 && ids != [] {
      var these := PrependAll(ids[0], Combinations(ids[1..], size - 1));
      var others := Combinations(ids[1..], size);
      CombinationsRise(ids[1..], size - 1);
      CombinationsRise(ids[1..], size);
      PrependRises(ids[0], Combinations(ids[1..], size - 1));
      CombinationsCorrect(ids[1..], size);
      forall s, t | s in these && t in others ensures s != [] && t != [] && s[0] < t[0] {
        assert IsCombination(t, ids[1..], size);
        assert t[0] in ids[1..];
      }
      AppendRises(these, others);
    }
  }

  // ----- shapes

  /** Fewer collections first, then by the collections, then by their counts. */
  ghost predicate Before(a: Composition, b: Composition) {
    || |a| < |b|
    || (|a| == |b| && LexLess(SortedKeys(a.Keys), SortedKeys(b.Keys)))
    || (a.Keys == b.Keys && LexLess(Values(a), Values(b)))
  }

  ghost predicate InOrder(shapes: seq<Composition>) {
    forall i, j | 0 <= i < j < |shapes| :: Before(shapes[i], shapes[j])
  }

  lemma AppendInOrder(a: seq<Composition>, b: seq<Composition>)
    requires InOrder(a) && InOrder(b) && forall m, n | m in a && n in b :: Before(m, n)
    ensures InOrder(a + b)
  {
    forall i, j | 0 <= i < j < |a + b| ensures Before((a + b)[i], (a + b)[j]) {
      if i < |a| <= j {
        assert (a + b)[i] in a && (a + b)[j] in b;
      }
    }
  }

  lemma CountsAreValues(subset: seq<int>, m: Composition, s: seq<nat>)
    requires SortedKeys(m.Keys) == subset && HasCounts(subset, m, s)
    ensures Values(m) == s
  {
    assert |Values(m)| == |subset| == |s|;
  }

  /** The keys and values of the k-th shape over a subset. */
  lemma KthShape(subset: seq<int>, usable: map<int, nat>, inputCount: nat, minInputs: nat, k: nat)
    requires minInputs >= 1 && Ascending(subset) && forall i | 0 <= i < |subset| :: subset[i] in usable
    requires k < |Shapes(subset, usable, inputCount, minInputs)|
    ensures k < |Partitions(inputCount, Caps(subset, usable), minInputs)|
    ensures var m := Shapes(subset, usable, inputCount, minInputs)[k];
            SortedKeys(m.Keys) == subset && Values(m) == Partitions(inputCount, Caps(subset, usable), minInputs)[k]
  {
    var m := Shapes(subset, usable, inputCount, minInputs)[k];
    assert m in Shapes(subset, usable, inputCount, minInputs);
    ShapesSound(subset, usable, inputCount, minInputs, m);
    ShapeAt(subset, usable, inputCount, minInputs, k);
    CountsAreValues(subset, m, Partitions(inputCount, Caps(subset, usable), minInputs)[k]);
  }

  lemma SameKeys(a: set<int>, b: set<int>)
    requires SortedKeys(a) == SortedKeys(b)
    ensures a == b
  {
    forall x ensures x in a <==> x in b {
      assert x in a <==> x in SortedKeys(a);
    }
  }

  lemma ShapesInOrder(subset: seq<int>, usable: map<int, nat>, inputCount: nat, minInputs: nat)
    requires minInputs >= 1 && Ascending(subset) && forall i | 0 <= i < |subset| :: subset[i] in usable
    ensures InOrder(Shapes(subset, usable, inputCount, minInputs))
  {
    var shapes := Shapes(subset, usable, inputCount, minInputs);
    PartitionsRise(inputCount, Caps(subset, usable), minInputs);
    forall i, j | 0 <= i < j < |shapes| ensures Before(shapes[i], shapes[j]) {
      KthShape(subset, usable, inputCount, minInputs, i);
      KthShape(subset, usable, inputCount, minInputs, j);
      SameKeys(shapes[i].Keys, shapes[j].Keys);
    }
  }

  ghost predicate Choices(subsets: seq<seq<int>>, size: nat, usable: map<int, nat>) {
    forall s | s in subsets :: |s| == size && Ascending(s) && forall i | 0 <= i < |s| :: s[i] in usable
  }

  lemma SubsetsAscend(these: seq<Composition>, others: seq<Composition>, first: seq<int>, rest: seq<seq<int>>)
    requires forall m: Composition | m in these :: SortedKeys(m.Keys) == first
    requires forall m: Composition | m in others :: SortedKeys(m.Keys) in rest
    requires forall s | s in rest :: |s| == |first| && LexLess(first, s)
    requires InOrder(these) && InOrder(others)
    ensures InOrder(these + others)
  {
    forall m, n | m in these && n in others ensures Before(m, n) {
      assert |m| == |m.Keys| == |SortedKeys(m.Keys)| && |n| == |n.Keys| == |SortedKeys(n.Keys)|;
    }
    AppendInOrder(these, others);
  }

  lemma FirstSubset(subsets: seq<seq<int>>, size: nat, usable: map<int, nat>)
    requires Choices(subsets, size, usable) && Rising(subsets) && Distinct(subsets) && subsets != []
    ensures Choices([subsets[0]], size, usable) && |subsets[0]| == size
    ensures Choices(subsets[1..], size, usable) && Rising(subsets[1..]) && Distinct(subsets[1..])
    ensures forall s | s in subsets[1..] :: |s| == size && LexLess(subsets[0], s)
  {
    var rest := subsets[1..];
    assert subsets[0] in subsets;
    forall s | s in rest ensures s in subsets && LexLess(subsets[0], s) {
      var i :| 0 <= i < |rest| && rest[i] == s;
      assert subsets[i + 1] == s;
    }
  }

  lemma {:induction false} FromSubsetsInOrder(subsets: seq<seq<int>>, size: nat, usable: map<int, nat>, inputCount: nat,
                                              minInputs: nat)
    requires minInputs >= 1 && Choices(subsets, size, usable) && Rising(subsets) && Distinct(subsets)
    ensures InOrder(FromSubsets(subsets, usable, inputCount, minInputs))
  {
    if subsets != [] {
      var first, rest := subsets[0], subsets[1..];
      FirstSubset(subsets, size, usable);
      FromSubsetsInOrder(rest, size, usable, inputCount, minInputs);
      ShapesInOrder(first, usable, inputCount, minInputs);
      ShapesCorrect(first, usable, inputCount, minInputs);
      FromSubsetsCorrect(rest, usable, inputCount, minInputs);
      SubsetsAscend(Shapes(first, usable, inputCount, minInputs), FromSubsets(rest, usable, inputCount, minInputs),
                    first, rest);
    }
  }

  lemma OneSizeInOrder(size: nat, ids: seq<int>, usable: map<int, nat>, inputCount: nat, minInputs: nat)
    requires minInputs >= 1 && ids == SortedKeys(usable.Keys)
    ensures InOrder(FromSubsets(Combinations(ids, size), usable, inputCount, minInputs))
  {
    var subsets := Combinations(ids, size);
    CombinationsRise(ids, size);
    CombinationsCorrect(ids, size);
    forall s | s in subsets ensures |s| == size && Ascending(s) && forall i | 0 <= i < |s| :: s[i] in usable {
      assert IsCombination(s, ids, size);
      assert forall i | 0 <= i < |s| :: s[i] in usable.Keys;
    }
    FromSubsetsInOrder(subsets, size, usable, inputCount, minInputs);
  }

  lemma SizesAscend(these: seq<Composition>, larger: seq<Composition>, size: nat, largest: nat, usable: map<int, nat>,
                    inputCount: nat, minInputs: nat)
    requires ListsSizes(these, size, size, usable, inputCount, minInputs) && InOrder(these)
    requires ListsSizes(larger, size + 1, largest, usable, inputCount, minInputs) && InOrder(larger)
    ensures InOrder(these + larger)
  {
    forall m, n | m in these && n in larger ensures Before(m, n) {
      assert |m| < |n|;
    }
    AppendInOrder(these, larger);
  }

  lemma OneMoreSizeInOrder(size: nat, largest: nat, ids: seq<int>, usable: map<int, nat>, inputCount: nat,
                           minInputs: nat)
    requires minInputs >= 1 && ids == SortedKeys(usable.Keys) && size <= largest
    requires InOrder(FromSizes(size + 1, largest, ids, usable, inputCount, minInputs))
    ensures InOrder(FromSizes(size, largest, ids, usable, inputCount, minInputs))
  {
    OneSizeInOrder(size, ids, usable, inputCount, minInputs);
    OneSizeCorrect(size, ids, usable, inputCount, minInputs);
    FromSizesCorrect(size + 1, largest, ids, usable, inputCount, minInputs);
    SizesAscend(FromSubsets(Combinations(ids, size), usable, inputCount, minInputs),
                FromSizes(size + 1, largest, ids, usable, inputCount, minInputs), size, largest, usable, inputCount,
                minInputs);
  }

  lemma {:induction false} FromSizesInOrder(size: nat, largest: nat, ids: seq<int>, usable: map<int, nat>,
                                            inputCount: nat, minInputs: nat)
    requires minInputs >= 1 && ids == SortedKeys(usable.Keys)
    ensures InOrder(FromSizes(size, largest, ids, usable, inputCount, minInputs))
    decreases largest - size
  {
    if size > largest {
      assert FromSizes(size, largest, ids, usable, inputCount, minInputs) == [];
    } else {
      FromSizesInOrder(size + 1, largest, ids, usable, inputCount, minInputs);
      OneMoreSizeInOrder(size, largest, ids, usable, inputCount, minInputs);
    }
  }

  lemma LexAsymmetric(a: seq<int>, b: seq<int>)
    requires LexLess(a, b)
    ensures !LexLess(b, a)
  {
    var i :| 0 <= i < |a| && i < |b| && DiffersAt(a, b, i);
    forall j | 0 <= j < |a| && j < |b| ensures !DiffersAt(b, a, j) {
      assert i < j ==> a[..j][i] == a[i] && b[..j][i] == b[i];
      assert j < i ==> a[..i][j] == a[j] && b[..i][j] == b[j];
    }
  }

  lemma BeforeAsymmetric(a: Composition, b: Composition)
    requires Before(a, b)
    ensures !Before(b, a)
  {
    if LexLess(SortedKeys(a.Keys), SortedKeys(b.Keys)) {
      LexAsymmetric(SortedKeys(a.Keys), SortedKeys(b.Keys));
    }
    if LexLess(Values(a), Values(b)) {
      LexAsymmetric(Values(a), Values(b));
    }
    if a.Keys == b.Keys && LexLess(SortedKeys(b.Keys), SortedKeys(a.Keys)) {
      LexAsymmetric(SortedKeys(b.Keys), SortedKeys(a.Keys));
    }
  }

  /** An ordered list of shapes is determined by the shapes in it. */
  lemma {:induction false} OrderedUnique(a: seq<Composition>, b: seq<Composition>)
    requires InOrder(a) && InOrder(b) && forall m: Composition :: m in a <==> m in b
    ensures a == b
  {
    if a == [] {
      NoElements(b);
    } else {
      assert a[0] in b && b != [] && b[0] in a;
      SameFirst(a, b);
      forall m: Composition ensures m in a[1..] <==> m in b[1..] {
        NotFirst(a, m);
        NotFirst(b, m);
      }
      OrderedUnique(a[1..], b[1..]);
      assert a == [a[0]] + a[1..] && b == [b[0]] + b[1..];
    }
  }

  lemma SameFirst(a: seq<Composition>, b: seq<Composition>)
    requires InOrder(a) && InOrder(b) && a != [] && b != [] && a[0] in b && b[0] in a
    ensures a[0] == b[0]
  {
    var i :| 0 <= i < |a| && a[i] == b[0];
    var j :| 0 <= j < |b| && b[j] == a[0];
    if i > 0 && j > 0 {
      assert Before(a[0], a[i]) && Before(b[0], b[j]);
      BeforeAsymmetric(a[0], b[0]);
    }
  }

  lemma NotFirst(a: seq<Composition>, m: Composition)
    requires InOrder(a) && a != []
    ensures m in a[1..] <==> m in a && m != a[0]
  {
    if m in a[1..] && m == a[0] {
      var i :| 0 <= i < |a[1..]| && a[1..][i] == m;
      assert Before(a[0], a[i + 1]);
      BeforeAsymmetric(m, m);
    }
  }

  /**
   The shapes come with fewer collections first, those of one size in the order of their collections, and those over
   the same collections in the order of their counts.  So the list is the only one in that order that holds exactly the
   admissible shapes.
   */
  lemma EnumerationInOrder(available: map<int, nat>, inputCount: int, limits: CompositionConstraints,
                           shapes: seq<Composition>)
    requires inputCount >= 1
    ensures EnumerateCompositions(available, inputCount, limits).Ok?
    ensures shapes == EnumerateCompositions(available, inputCount, limits).value
       <==> InOrder(shapes) && forall m: Composition :: m in shapes <==> Admissible(m, available, inputCount, limits)
  {
    var listed := ListedInOrder(available, inputCount, limits);
    EnumerationIsExact(available, inputCount, limits);
    if InOrder(shapes) && forall m: Composition :: m in shapes <==> m in listed {
      OrderedUnique(shapes, listed);
    }
  }

  lemma ListedInOrder(available: map<int, nat>, inputCount: int, limits: CompositionConstraints)
      returns (listed: seq<Composition>)
    requires inputCount >= 1
    ensures EnumerateCompositions(available, inputCount, limits) == Result.Ok(listed) && InOrder(listed)
  {
    var usable := Usable(available, inputCount, limits.minInputs);
    var ids := SortedKeys(usable.Keys);
    FromSizesInOrder(1, Min(Min(limits.maxDistinct, |ids|), inputCount), ids, usable, inputCount, limits.minInputs);
    listed := EnumerateCompositions(available, inputCount, limits).value;
  }
}
