/** Python's `sorted`: a stable sort by a total preorder, and the ascending listing of a set of keys. */
module Sorting {

  ghost predicate TotalPreorder<T(!new)>(le: (T, T) -> bool) {
    && (forall x, y :: le(x, y) || le(y, x))
    && (forall x, y, z :: le(x, y) && le(y, z) ==> le(x, z))
  }

  ghost predicate SortedBy<T>(le: (T, T) -> bool, s: seq<T>) {
    forall i, j | 0 <= i < j < |s| :: le(s[i], s[j])
  }

  /** Places `x` before the first element it does not follow, so equal elements keep their order. */
  function Insert<T(!new)>(le: (T, T) -> bool, x: T, s: seq<T>): (r: seq<T>)
    requires TotalPreorder(le) && SortedBy(le, s)
    ensures SortedBy(le, r)
    ensures multiset(r) == multiset{x} + multiset(s)
  {
    if s == [] then [x]
    else if le(x, s[0]) then
      assert forall j | 0 <= j < |s| :: le(s[0], s[j]);
      [x] + s
    else
      assert s == [s[0]] + s[1..];
      var r' := Insert(le, x, s[1..]);
      assert forall y | y in r' :: le(s[0], y) by {
        forall y | y in r' ensures le(s[0], y) {
          assert y in multiset(r');
          if y != x { assert y in s[1..]; }
        }
      }
      [s[0]] + r'
  }

  function Sort<T(!new)>(le: (T, T) -> bool, s: seq<T>): (r: seq<T>)
    requires TotalPreorder(le)
    ensures SortedBy(le, r)
    ensures multiset(r) == multiset(s)
    ensures |r| == |s|
    ensures forall x :: x in r <==> x in s
  {
    if s == [] then []
    else
      assert s == [s[0]] + s[1..];
      var r := Insert(le, s[0], Sort(le, s[1..]));
      assert |r| == |multiset(r)| == |multiset(s)|;
      assert forall x :: x in r <==> x in multiset(r);
      r
  }

  ghost function Tied<T(!new)>(le: (T, T) -> bool, y: T, x: T): seq<T> {
    if le(x, y) && le(y, x) then [x] else []
  }

  /** The elements of `s` that tie with `y`, in their order. */
  ghost function Ties<T(!new)>(le: (T, T) -> bool, y: T, s: seq<T>): seq<T> {
    if s == [] then [] else Tied(le, y, s[0]) + Ties(le, y, s[1..])
  }

  lemma FirstTie<T(!new)>(le: (T, T) -> bool, y: T, x: T, s: seq<T>)
    ensures Ties(le, y, [x] + s) == Tied(le, y, x) + Ties(le, y, s)
  {
    assert ([x] + s)[1..] == s;
  }

  lemma NotBothTied<T(!new)>(le: (T, T) -> bool, y: T, x: T, z: T)
    requires TotalPreorder(le) && !le(x, z)
    ensures Tied(le, y, x) == [] || Tied(le, y, z) == []
  {
  }

  lemma TiesBehind<T(!new)>(le: (T, T) -> bool, y: T, x: T, head: T, rest: seq<T>, r: seq<T>)
    requires TotalPreorder(le) && !le(x, head) && Ties(le, y, r) == Tied(le, y, x) + Ties(le, y, rest)
    ensures Ties(le, y, [head] + r) == Tied(le, y, x) + Ties(le, y, [head] + rest)
  {
    FirstTie(le, y, head, r);
    FirstTie(le, y, head, rest);
    NotBothTied(le, y, x, head);
  }

  lemma Behind<T(!new)>(le: (T, T) -> bool, x: T, s: seq<T>)
    requires TotalPreorder(le) && SortedBy(le, s) && s != [] && !le(x, s[0])
    ensures Insert(le, x, s) == [s[0]] + Insert(le, x, s[1..])
  {
  }

  lemma {:induction false} InsertedTies<T(!new)>(le: (T, T) -> bool, y: T, x: T, s: seq<T>)
    requires TotalPreorder(le) && SortedBy(le, s)
    ensures Ties(le, y, Insert(le, x, s)) == Tied(le, y, x) + Ties(le, y, s)
  {
    if s == [] || le(x, s[0]) {
      assert [x] + s == Insert(le, x, s);
      FirstTie(le, y, x, s);
    } else {
      assert s == [s[0]] + s[1..];
      InsertedTies(le, y, x, s[1..]);
      Behind(le, x, s);
      TiesBehind(le, y, x, s[0], s[1..], Insert(le, x, s[1..]));
    }
  }

  /** The sort is stable: elements that tie stay in the order they came in. */
  lemma {:induction false} SortIsStable<T(!new)>(le: (T, T) -> bool, y: T, s: seq<T>)
    requires TotalPreorder(le)
    ensures Ties(le, y, Sort(le, s)) == Ties(le, y, s)
  {
    if s != [] {
      SortIsStable(le, y, s[1..]);
      InsertedTies(le, y, s[0], Sort(le, s[1..]));
    }
  }

  /** Under a total order, a sorted listing is determined by its elements. */
  lemma {:induction false} SortedUnique<T(!new)>(le: (T, T) -> bool, a: seq<T>, b: seq<T>)
    requires TotalOrder(le) && SortedBy(le, a) && SortedBy(le, b) && multiset(a) == multiset(b)
    ensures a == b
  {
    assert |multiset(a)| == |a| && |multiset(b)| == |b|;
    if a != [] {
      assert a == [a[0]] + a[1..] && b == [b[0]] + b[1..];
      assert a[0] in multiset(b) && b[0] in multiset(a);
      assert le(a[0], b[0]) && le(b[0], a[0]);
      SameRest(a[0], multiset(a[1..]), multiset(b[1..]));
      SortedUnique(le, a[1..], b[1..]);
    }
  }

  lemma SameRest<T>(x: T, a: multiset<T>, b: multiset<T>)
    requires multiset{x} + a == multiset{x} + b
    ensures a == b
  {
    CancelOne(a, b, x);
    CancelOne(b, a, x);
  }

  /** Reordered listings stay so when the last element of one is dropped from both. */
  lemma DropLast<T>(s: seq<T>, t: seq<T>) returns (i: nat)
    requires s != [] && multiset(s) == multiset(t)
    ensures i < |t| && t[i] == s[|s| - 1] && multiset(s[..|s| - 1]) == multiset(t[..i] + t[i + 1..])
  {
    var x, init := s[|s| - 1], s[..|s| - 1];
    assert s == init + [x];
    assert x in multiset(t);
    i :| 0 <= i < |t| && t[i] == x;
    assert t == t[..i] + [x] + t[i + 1..];
    assert multiset(s) == multiset{x} + multiset(init);
    assert multiset(t) == multiset{x} + multiset(t[..i] + t[i + 1..]);
    SameRest(x, multiset(init), multiset(t[..i] + t[i + 1..]));
  }

  lemma CancelOne<T>(a: multiset<T>, b: multiset<T>, x: T)
    requires multiset{x} + a <= multiset{x} + b
    ensures a <= b
  {
    forall y ensures a[y] <= b[y] {
      assert (multiset{x} + a)[y] <= (multiset{x} + b)[y];
    }
  }

  ghost predicate Distinct<T>(s: seq<T>) {
    forall i, j | 0 <= i < j < |s| :: s[i] != s[j]
  }

  // ----- sorted sets

  ghost predicate TotalOrder<T(!new)>(le: (T, T) -> bool) {
    TotalPreorder(le) && forall x, y :: le(x, y) && le(y, x) ==> x == y
  }

  predicate IsLeast<T>(le: (T, T) -> bool, x: T, s: set<T>) {
    x in s && forall y | y in s :: le(x, y)
  }

  /** Some member of a non-empty set. */
  lemma Some<T>(s: set<T>) returns (member: T)
    requires s != {}
    ensures member in s
  {
    member :| member in s;
  }

  lemma Smallest<T(!new)>(le: (T, T) -> bool, s: set<T>) returns (first: T)
    requires TotalOrder(le) && s != {}
    ensures IsLeast(le, first, s)
    decreases |s|
  {
    first := Some(s);
    var rest := s - {first};
    assert s == rest + {first};
    if rest != {} {
      var other := Smallest(le, rest);
      first := if le(first, other) then first else other;
    }
  }

  /** `sorted(s)` of a set. */
  function SortedSet<T(!new)>(le: (T, T) -> bool, s: set<T>): (r: seq<T>)
    requires TotalOrder(le)
    ensures forall i, j | 0 <= i < j < |r| :: le(r[i], r[j]) && r[i] != r[j]
    ensures forall x :: x in r <==> x in s
    ensures |r| == |s|
    decreases |s|
  {
    if s == {} then []
    else
      assert exists x :: IsLeast(le, x, s) by { var x := Smallest(le, s); }
      var x :| IsLeast(le, x, s);
      var rest := SortedSet(le, s - {x});
      assert forall i | 0 <= i < |rest| :: rest[i] in s - {x};
      [x] + rest
  }

  predicate IntLe(a: int, b: int) {
    a <= b
  }

  ghost predicate Ascending(s: seq<int>) {
    forall i, j | 0 <= i < j < |s| :: s[i] < s[j]
  }

  /** `sorted(keys)` of integer keys. */
  function SortedKeys(keys: set<int>): (r: seq<int>)
    ensures Ascending(r)
    ensures forall x :: x in r <==> x in keys
    ensures |r| == |keys|
  {
    assert TotalOrder(IntLe);
    SortedSet(IntLe, keys)
  }

  lemma NoElements<T(!new)>(s: seq<T>)
    ensures s == [] <==> forall x :: x !in s
  {
    assert |s| > 0 ==> s[0] in s;
  }

  /** An ascending listing is determined by its elements. */
  lemma {:induction false} AscendingUnique(a: seq<int>, b: seq<int>)
    requires Ascending(a) && Ascending(b)
    requires forall x :: x in a <==> x in b
    ensures a == b
  {
    if a == [] {
      NoElements(b);
    } else {
      assert a[0] in b && b != [] && b[0] in a;
      assert a[0] == b[0];
      forall x ensures x in a[1..] <==> x in b[1..] {
        if x in a[1..] { assert x in a && x != a[0]; assert x in b; }
        if x in b[1..] { assert x in b && x != b[0]; assert x in a; }
      }
      AscendingUnique(a[1..], b[1..]);
      assert a == [a[0]] + a[1..] && b == [b[0]] + b[1..];
    }
  }

  lemma PrefixStep<T>(s: seq<T>, i: nat)
    requires i < |s|
    ensures s[..i + 1] == s[..i] + [s[i]]
  {
  }

  lemma WholePrefix<T>(s: seq<T>)
    ensures s[..|s|] == s
  {
  }
}
