/** Values and sequence facts shared by the other modules. */
module Collections {

  datatype Option<+T> = None | Some(value: T)

  datatype Result<+T, +E> = Ok(value: T) | Err(error: E)

  /** What reading a value off an object gives. */
  datatype Reading<+T> = Missing | Malformed | Read(value: T)

  ghost predicate Distinct<T(!new)>(s: seq<T>) {
    forall i, j :: 0 <= i < j < |s| ==> s[i] != s[j]
  }

  function Elems<T>(s: seq<T>): set<T> {
    set x | x in s
  }

  /** The elements of `s` outside `drop`, in their original order. */
  function Minus<T(==, !new)>(s: seq<T>, drop: set<T>): (r: seq<T>)
    ensures forall x :: x in r <==> x in s && x !in drop
    ensures |r| <= |s|
  {
    if s == [] then [] else
      (if s[0] in drop then [] else [s[0]]) + Minus(s[1..], drop)
  }

  /** The elements of `s` inside `keep`, in their original order. */
  function Keep<T(==, !new)>(s: seq<T>, keep: set<T>): (r: seq<T>)
    ensures forall x :: x in r <==> x in s && x in keep
    ensures |r| <= |s|
  {
    if s == [] then [] else
      (if s[0] in keep then [s[0]] else []) + Keep(s[1..], keep)
  }

  /** `x` occurs in `s` somewhere before an occurrence of `y`. */
  ghost predicate Precedes<T(!new)>(x: T, y: T, s: seq<T>) {
    exists i, j :: 0 <= i < j < |s| && s[i] == x && s[j] == y
  }

  /** Of any two elements of `r`, the earlier one is earlier in `s` too. */
  ghost predicate KeepsOrder<T(!new)>(r: seq<T>, s: seq<T>) {
    forall a, b :: 0 <= a < b < |r| ==> Precedes(r[a], r[b], s)
  }

  lemma {:induction false} MinusKeepsOrder<T(!new)>(s: seq<T>, drop: set<T>)
    ensures KeepsOrder(Minus(s, drop), s)
  {
    if s == [] {
    } else {
      MinusKeepsOrder(s[1..], drop);
      OneMoreKeepsOrder(s, Minus(s[1..], drop));
    }
  }

  lemma {:induction false} KeepKeepsOrder<T(!new)>(s: seq<T>, keep: set<T>)
    ensures KeepsOrder(Keep(s, keep), s)
  {
    if s == [] {
    } else {
      KeepKeepsOrder(s[1..], keep);
      OneMoreKeepsOrder(s, Keep(s[1..], keep));
    }
  }

  lemma PrecedesInTail<T(!new)>(x: T, y: T, s: seq<T>)
    requires s != []
    ensures Precedes(x, y, s[1..]) ==> Precedes(x, y, s)
    ensures y in s[1..] ==> Precedes(s[0], y, s)
  {
    if Precedes(x, y, s[1..]) {
      var i, j :| 0 <= i < j < |s[1..]| && s[1..][i] == x && s[1..][j] == y;
      assert s[i + 1] == x && s[j + 1] == y;
    }
    if y in s[1..] {
      var j :| 0 <= j < |s[1..]| && s[1..][j] == y;
      assert s[0] == s[0] && s[j + 1] == y;
    }
  }

  lemma OneMoreKeepsOrder<T(!new)>(s: seq<T>, r: seq<T>)
    requires s != [] && KeepsOrder(r, s[1..]) && forall x :: x in r ==> x in s[1..]
    ensures KeepsOrder(r, s) && KeepsOrder([s[0]] + r, s)
  {
    var m := [s[0]] + r;
    forall a, b | 0 <= a < b < |r| ensures Precedes(r[a], r[b], s) {
      assert Precedes(r[a], r[b], s[1..]);
      PrecedesInTail(r[a], r[b], s);
    }
    forall a, b | 0 <= a < b < |m| ensures Precedes(m[a], m[b], s) {
      assert m[b] == r[b - 1] && (a > 0 ==> m[a] == r[a - 1]);
      PrecedesInTail(m[a], m[b], s);
    }
  }

  lemma MinusDistinct<T(!new)>(s: seq<T>, drop: set<T>)
    requires Distinct(s)
    ensures Distinct(Minus(s, drop))
  {
    if s == [] {
    } else {
      MinusDistinct(s[1..], drop);
    }
  }

  lemma KeepDistinct<T(!new)>(s: seq<T>, keep: set<T>)
    requires Distinct(s)
    ensures Distinct(Keep(s, keep))
  {
    if s == [] {
    } else {
      KeepDistinct(s[1..], keep);
    }
  }

  /** Only the members of `drop` that occur in `s` matter. */
  lemma MinusExtensional<T(!new)>(s: seq<T>, d1: set<T>, d2: set<T>)
    requires forall x :: x in s ==> (x in d1 <==> x in d2)
    ensures Minus(s, d1) == Minus(s, d2)
  {
    if s == [] {
    } else {
      MinusExtensional(s[1..], d1, d2);
    }
  }

  lemma KeepExtensional<T(!new)>(s: seq<T>, k1: set<T>, k2: set<T>)
    requires forall x :: x in s ==> (x in k1 <==> x in k2)
    ensures Keep(s, k1) == Keep(s, k2)
  {
    if s == [] {
    } else {
      KeepExtensional(s[1..], k1, k2);
    }
  }

  lemma MinusCons<T(!new)>(x: T, s: seq<T>, drop: set<T>)
    ensures Minus([x] + s, drop) == (if x in drop then [] else [x]) + Minus(s, drop)
  {
    assert ([x] + s)[1..] == s;
  }

  lemma KeepCons<T(!new)>(x: T, s: seq<T>, keep: set<T>)
    ensures Keep([x] + s, keep) == (if x in keep then [x] else []) + Keep(s, keep)
  {
    assert ([x] + s)[1..] == s;
  }

  lemma {:induction false} MinusMinus<T(!new)>(s: seq<T>, d1: set<T>, d2: set<T>)
    ensures Minus(Minus(s, d1), d2) == Minus(s, d1 + d2)
  {
    if s == [] {
    } else {
      MinusMinus(s[1..], d1, d2);
      MinusCons(s[0], Minus(s[1..], d1), d2);
      if s[0] in d1 {
        assert Minus(s, d1) == Minus(s[1..], d1);
      }
    }
  }

  lemma MinusNothing<T(!new)>(s: seq<T>, drop: set<T>)
    requires forall x :: x in s ==> x !in drop
    ensures Minus(s, drop) == s
  {
    if s == [] {
    } else {
      MinusNothing(s[1..], drop);
      assert s == [s[0]] + s[1..];
    }
  }

  lemma MinusEverything<T(!new)>(s: seq<T>, drop: set<T>)
    requires forall x :: x in s ==> x in drop
    ensures Minus(s, drop) == []
  {
    if s == [] {
    } else {
      MinusEverything(s[1..], drop);
    }
  }

  lemma KeepEverything<T(!new)>(s: seq<T>, keep: set<T>)
    requires forall x :: x in s ==> x in keep
    ensures Keep(s, keep) == s
  {
    if s == [] {
    } else {
      KeepEverything(s[1..], keep);
      assert s == [s[0]] + s[1..];
    }
  }

  lemma {:induction false} KeepKeep<T(!new)>(s: seq<T>, k1: set<T>, k2: set<T>)
    ensures Keep(Keep(s, k1), k2) == Keep(s, k1 * k2)
  {
    if s == [] {
    } else {
      KeepKeep(s[1..], k1, k2);
      KeepCons(s[0], Keep(s[1..], k1), k2);
      if s[0] !in k1 {
        assert Keep(s, k1) == Keep(s[1..], k1);
      }
    }
  }

  lemma MinusIsKeep<T(!new)>(s: seq<T>, drop: set<T>)
    ensures Minus(s, drop) == Keep(s, Elems(Minus(s, drop)))
  {
    MinusAsKeep(s, drop, Elems(Minus(s, drop)));
  }

  lemma MinusAsKeep<T(!new)>(s: seq<T>, drop: set<T>, keep: set<T>)
    requires forall x :: x in s ==> (x in drop <==> x !in keep)
    ensures Minus(s, drop) == Keep(s, keep)
  {
    if s == [] {
    } else {
      MinusAsKeep(s[1..], drop, keep);
    }
  }

  /** The images of the kept ones among the first `n` elements, each with its place counted from one. */
  function KeepMap<T, U>(s: seq<T>, n: nat, keep: T -> bool, f: (T, nat) -> U): seq<U>
    requires n <= |s|
  {
    if n == 0 then [] else KeepMap(s, n - 1, keep, f) + if keep(s[n - 1]) then [f(s[n - 1], n)] else []
  }

  lemma {:induction false} KeepMapAll<T, U>(s: seq<T>, n: nat, keep: T -> bool, f: (T, nat) -> U)
    requires n <= |s| && forall i :: 0 <= i < n ==> keep(s[i])
    ensures |KeepMap(s, n, keep, f)| == n
    ensures forall i :: 0 <= i < n ==> KeepMap(s, n, keep, f)[i] == f(s[i], i + 1)
  {
    if n == 0 {
    } else {
      KeepMapAll(s, n - 1, keep, f);
    }
  }

  /** How many of the first `n` elements are kept. */
  ghost function CountKept<T>(s: seq<T>, n: nat, keep: T -> bool): nat
    requires n <= |s|
  {
    if n == 0 then 0 else CountKept(s, n - 1, keep) + if keep(s[n - 1]) then 1 else 0
  }

  /** Every kept element has its image in its turn, and there are no other images. */
  lemma {:induction false} KeepMapMeans<T, U>(s: seq<T>, n: nat, keep: T -> bool, f: (T, nat) -> U)
    requires n <= |s|
    ensures |KeepMap(s, n, keep, f)| == CountKept(s, n, keep)
    ensures forall i :: 0 <= i < n && keep(s[i]) ==>
                          && CountKept(s, i, keep) < |KeepMap(s, n, keep, f)|
                          && KeepMap(s, n, keep, f)[CountKept(s, i, keep)] == f(s[i], i + 1)
  {
    if n == 0 {
    } else {
      KeepMapMeans(s, n - 1, keep, f);
    }
  }

  lemma AppendOne<T>(a: seq<T>, x: T, b: seq<T>)
    ensures a + ([x] + b) == (a + [x]) + b
  {
  }

  // ----- stable sorting -----

  ghost predicate TotalPreorder<T(!new)>(le: (T, T) -> bool) {
    && (forall a, b :: le(a, b) || le(b, a))
    && (forall a, b, c :: le(a, b) && le(b, c) ==> le(a, c))
  }

  ghost predicate Sorted<T>(s: seq<T>, le: (T, T) -> bool) {
    forall i, j :: 0 <= i < j < |s| ==> le(s[i], s[j])
  }

  /** Puts `x` before the first element that must come strictly after it. */
  function Insert<T(!new)>(x: T, s: seq<T>, le: (T, T) -> bool): (r: seq<T>)
    ensures multiset(r) == multiset{x} + multiset(s)
    ensures forall y :: y in r <==> y == x || y in s
    ensures |r| == |s| + 1
  {
    if s == [] then [x]
    else if le(x, s[0]) then
      assert [x] + s == [x] + ([s[0]] + s[1..]);
      [x] + s
    else
      assert s == [s[0]] + s[1..];
      [s[0]] + Insert(x, s[1..], le)
  }

  /** A stable sort: equal elements keep their order, as Python's `sorted` does. */
  function SortBy<T(!new)>(s: seq<T>, le: (T, T) -> bool): (r: seq<T>)
    ensures multiset(r) == multiset(s)
    ensures forall y :: y in r <==> y in s
    ensures |r| == |s|
  {
    if s == [] then [] else
      assert s == [s[0]] + s[1..];
      Insert(s[0], SortBy(s[1..], le), le)
  }

  lemma InsertSorted<T(!new)>(x: T, s: seq<T>, le: (T, T) -> bool)
    requires TotalPreorder(le) && Sorted(s, le)
    ensures Sorted(Insert(x, s, le), le)
  {
    if s != [] && !le(x, s[0]) {
      InsertSorted(x, s[1..], le);
      var r := Insert(x, s[1..], le);
      forall k | 0 <= k < |r| ensures le(s[0], r[k]) {
        assert r[k] in multiset(r);
        assert s == [s[0]] + s[1..];
      }
    }
  }

  lemma SortByIsSorted<T(!new)>(s: seq<T>, le: (T, T) -> bool)
    requires TotalPreorder(le)
    ensures Sorted(SortBy(s, le), le)
  {
    if s == [] {
    } else {
      SortByIsSorted(s[1..], le);
      InsertSorted(s[0], SortBy(s[1..], le), le);
    }
  }

  lemma {:induction false} InsertKeepsOrder<T(!new)>(x: T, s: seq<T>, le: (T, T) -> bool, a: T, b: T)
    requires Precedes(a, b, s)
    ensures Precedes(a, b, Insert(x, s, le))
    decreases |s|
  {
    var r := Insert(x, s, le);
    var i, j :| 0 <= i < j < |s| && s[i] == a && s[j] == b;
    if le(x, s[0]) {
      assert r[i + 1] == a && r[j + 1] == b;
    } else if i == 0 {
      assert s[1..][j - 1] == b;
      assert r[1..] == Insert(x, s[1..], le);
      PrecedesInTail(a, b, r);
    } else {
      assert s[1..][i - 1] == a && s[1..][j - 1] == b;
      InsertKeepsOrder(x, s[1..], le, a, b);
      PrecedesInTail(a, b, r);
    }
  }

  lemma {:induction false} InsertedPrecedes<T(!new)>(x: T, s: seq<T>, le: (T, T) -> bool, b: T)
    requires b in s && le(x, b)
    ensures Precedes(x, b, Insert(x, s, le))
    decreases |s|
  {
    var r := Insert(x, s, le);
    if le(x, s[0]) {
      assert r[1..] == s;
      PrecedesInTail(x, b, r);
    } else {
      InsertedPrecedes(x, s[1..], le, b);
      assert r[1..] == Insert(x, s[1..], le);
      PrecedesInTail(x, b, r);
    }
  }

  /** Elements already in order, ties included, keep their order. */
  lemma {:induction false} SortIsStable<T(!new)>(s: seq<T>, le: (T, T) -> bool, a: T, b: T)
    requires Precedes(a, b, s) && le(a, b)
    ensures Precedes(a, b, SortBy(s, le))
    decreases |s|
  {
    var i, j :| 0 <= i < j < |s| && s[i] == a && s[j] == b;
    assert s[1..][j - 1] == b;
    if i == 0 {
      InsertedPrecedes(a, SortBy(s[1..], le), le, b);
    } else {
      assert s[1..][i - 1] == a;
      SortIsStable(s[1..], le, a, b);
      InsertKeepsOrder(s[0], SortBy(s[1..], le), le, a, b);
    }
  }

  lemma OnceMeansDifferent<T>(s: seq<T>, i: nat, j: nat)
    requires i < j < |s| && multiset(s)[s[i]] <= 1
    ensures s[i] != s[j]
  {
    assert s == s[..j] + s[j..];
    assert s[i] == s[..j][i] && s[i] in multiset(s[..j]);
    assert s[j..][0] == s[j] && s[j] in multiset(s[j..]);
    assert multiset(s) == multiset(s[..j]) + multiset(s[j..]);
  }

  lemma {:induction false} DistinctMeansOnce<T(!new)>(s: seq<T>, x: T)
    requires Distinct(s)
    ensures multiset(s)[x] <= 1
  {
    if s == [] {
    } else {
      var rest := s[1..];
      DistinctMeansOnce(rest, x);
      assert s == [s[0]] + rest;
      assert x in multiset(rest) ==> x in rest;
    }
  }

  lemma SortedIsDistinct<T(!new)>(s: seq<T>, le: (T, T) -> bool)
    requires Distinct(s)
    ensures Distinct(SortBy(s, le))
  {
    var r := SortBy(s, le);
    forall i, j | 0 <= i < j < |r| ensures r[i] != r[j] {
      DistinctMeansOnce(s, r[i]);
      OnceMeansDifferent(r, i, j);
    }
  }

  lemma HeadIsLeast<T(!new)>(s: seq<T>, x: T, le: (T, T) -> bool)
    requires TotalPreorder(le) && Sorted(s, le) && x in s
    ensures le(s[0], x)
  {
    assert le(x, x);
    var k :| 0 <= k < |s| && s[k] == x;
  }

  lemma SameMultisetSameLength<T>(a: seq<T>, b: seq<T>)
    requires multiset(a) == multiset(b)
    ensures |a| == |b|
    ensures forall x :: x in a <==> x in b
  {
    assert |multiset(a)| == |multiset(b)|;
    assert forall x :: x in a <==> x in multiset(a);
    assert forall x :: x in b <==> x in multiset(b);
  }

  lemma DropSameHead<T>(a: seq<T>, b: seq<T>)
    requires a != [] && b != [] && a[0] == b[0] && multiset(a) == multiset(b)
    ensures multiset(a[1..]) == multiset(b[1..])
  {
    assert a == [a[0]] + a[1..] && b == [b[0]] + b[1..];
    assert multiset(a[1..]) == multiset(a) - multiset{a[0]};
    assert multiset(b[1..]) == multiset(b) - multiset{b[0]};
  }

  /** Sorted sequences with the same elements are equal when no two different elements tie. */
  lemma {:induction false} SortedUnique<T(!new)>(a: seq<T>, b: seq<T>, le: (T, T) -> bool)
    requires TotalPreorder(le) && Sorted(a, le) && Sorted(b, le)
    requires multiset(a) == multiset(b)
    requires forall x, y :: x in a && y in a && le(x, y) && le(y, x) ==> x == y
    ensures a == b
  {
    SameMultisetSameLength(a, b);
    if a == [] {
    } else {
      HeadIsLeast(a, b[0], le);
      HeadIsLeast(b, a[0], le);
      DropSameHead(a, b);
      SortedUnique(a[1..], b[1..], le);
      assert a == [a[0]] + a[1..] && b == [b[0]] + b[1..];
    }
  }

  /** Sorting forgets the input order when no two different elements tie. */
  lemma SortForgetsOrder<T(!new)>(a: seq<T>, b: seq<T>, le: (T, T) -> bool)
    requires TotalPreorder(le)
    requires multiset(a) == multiset(b)
    requires forall x, y :: x in a && y in a && le(x, y) && le(y, x) ==> x == y
    ensures SortBy(a, le) == SortBy(b, le)
  {
    SortByIsSorted(a, le);
    SortByIsSorted(b, le);
    SortedUnique(SortBy(a, le), SortBy(b, le), le);
  }
}
