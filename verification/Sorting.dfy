/** Sorting a set by a strict total order, and the order of strings. */
module Sorting {

  ghost predicate IsOrder<T(!new)>(less: (T, T) -> bool) {
    && (forall a, b :: less(a, b) ==> !less(b, a))
    && (forall a, b, c :: less(a, b) && less(b, c) ==> less(a, c))
  }

  /** A strict order in which any two elements of the set compare. */
  ghost predicate Orders<T(!new)>(less: (T, T) -> bool, s: set<T>) {
    IsOrder(less) && forall a, b | a in s && b in s :: a == b || less(a, b) || less(b, a)
  }

  predicate IsFirst<T(==)>(s: set<T>, less: (T, T) -> bool, f: T) {
    f in s && forall g | g in s :: g == f || less(f, g)
  }

  lemma {:induction false} FirstExists<T(!new)>(s: set<T>, less: (T, T) -> bool)
    requires s != {} && Orders(less, s)
    ensures exists f | f in s :: IsFirst(s, less, f)
    ensures forall f, g | IsFirst(s, less, f) && IsFirst(s, less, g) :: f == g
  {
    var g :| g in s;
    if s == {g} {
      assert IsFirst(s, less, g);
    } else {
      FirstExists(s - {g}, less);
      var f :| IsFirst(s - {g}, less, f);
      assert IsFirst(s, less, if less(g, f) then g else f);
    }
  }

  /** The elements of the set, in order: Python's sorted(). */
  function SortedBy<T(==, !new)>(s: set<T>, less: (T, T) -> bool): (xs: seq<T>)
    requires Orders(less, s)
    ensures |xs| == |s| && forall f :: f in xs <==> f in s
  {
    if s == {} then []
    else
      FirstExists(s, less);
      var f :| f in s && IsFirst(s, less, f);
      [f] + SortedBy(s - {f}, less)
  }

  lemma SortedSplits<T(!new)>(s: set<T>, less: (T, T) -> bool) returns (f: T)
    requires s != {} && Orders(less, s)
    ensures IsFirst(s, less, f) && SortedBy(s, less) == [f] + SortedBy(s - {f}, less)
  {
    FirstExists(s, less);
    f :| f in s && IsFirst(s, less, f) && SortedBy(s, less) == [f] + SortedBy(s - {f}, less);
  }

  function Preceding<T(==)>(s: set<T>, less: (T, T) -> bool, x: T): set<T> {
    set y | y in s && less(y, x)
  }

  lemma PrecedingAfterFirst<T(!new)>(s: set<T>, less: (T, T) -> bool, f: T, x: T)
    requires Orders(less, s) && IsFirst(s, less, f) && x in s
    ensures Preceding(s, less, x) == if x == f then {} else Preceding(s - {f}, less, x) + {f}
  {
    assert !less(f, f);
  }

  /** The position of an element is the number of elements that precede it. */
  lemma {:induction false} SortedRank<T(!new)>(s: set<T>, less: (T, T) -> bool, i: nat)
    requires Orders(less, s) && i < |s|
    ensures |Preceding(s, less, SortedBy(s, less)[i])| == i
  {
    var f := SortedSplits(s, less);
    var x := SortedBy(s, less)[i];
    PrecedingAfterFirst(s, less, f, x);
    if i > 0 {
      assert x == SortedBy(s - {f}, less)[i - 1];
      SortedRank(s - {f}, less, i - 1);
      assert f !in Preceding(s - {f}, less, x);
    }
  }

  /** The first `k` elements are those with fewer than `k` before them. */
  lemma AmongFirstIff<T(!new)>(s: set<T>, less: (T, T) -> bool, k: nat, x: T)
    requires Orders(less, s) && x in s && k <= |s|
    ensures x in SortedBy(s, less)[..k] <==> |Preceding(s, less, x)| < k
  {
    var xs := SortedBy(s, less);
    var i :| 0 <= i < |xs| && xs[i] == x;
    SortedRank(s, less, i);
    if i < k {
      assert xs[..k][i] == x;
    }
    if x in xs[..k] {
      var j :| 0 <= j < k && xs[j] == x;
      SortedRank(s, less, j);
    }
  }

  /** Later elements come after earlier ones. */
  lemma {:induction false} SortedAscends<T(!new)>(s: set<T>, less: (T, T) -> bool, i: nat, j: nat)
    requires Orders(less, s) && i < j < |s|
    ensures less(SortedBy(s, less)[i], SortedBy(s, less)[j])
  {
    var f := SortedSplits(s, less);
    var rest := SortedBy(s - {f}, less);
    if i == 0 {
      assert SortedBy(s, less)[j] == rest[j - 1] && rest[j - 1] in s - {f};
    } else {
      SortedAscends(s - {f}, less, i - 1, j - 1);
    }
  }

  /** No element occurs twice. */
  lemma SortedIsDistinct<T(!new)>(s: set<T>, less: (T, T) -> bool, i: nat, j: nat)
    requires Orders(less, s) && i < j < |s|
    ensures SortedBy(s, less)[i] != SortedBy(s, less)[j]
  {
    SortedRank(s, less, i);
    SortedRank(s, less, j);
  }

  // ----- strings -----

  predicate Before(a: string, b: string) {
    b != [] && (a == [] || a[0] < b[0] || (a[0] == b[0] && Before(a[1..], b[1..])))
  }

  lemma {:induction false} BeforeIsStrict(a: string, b: string)
    ensures Before(a, b) ==> !Before(b, a)
  {
    if a != [] && b != [] {
      BeforeIsStrict(a[1..], b[1..]);
    }
  }

  lemma {:induction false} BeforeIsTotal(a: string, b: string)
    ensures a == b || Before(a, b) || Before(b, a)
  {
    if a != [] && b != [] && a[0] == b[0] {
      BeforeIsTotal(a[1..], b[1..]);
      assert a == [a[0]] + a[1..] && b == [b[0]] + b[1..];
    }
  }

  lemma {:induction false} BeforeIsTransitive(a: string, b: string, c: string)
    requires Before(a, b) && Before(b, c)
    ensures Before(a, c)
  {
    if a != [] && a[0] == b[0] == c[0] {
      BeforeIsTransitive(a[1..], b[1..], c[1..]);
    }
  }

  lemma BeforeOrders(s: set<string>)
    ensures Orders(Before, s)
  {
    forall a, b | Before(a, b) ensures !Before(b, a) {
      BeforeIsStrict(a, b);
    }
    forall a, b, c | Before(a, b) && Before(b, c) ensures Before(a, c) {
      BeforeIsTransitive(a, b, c);
    }
    forall a, b | a in s && b in s ensures a == b || Before(a, b) || Before(b, a) {
      BeforeIsTotal(a, b);
    }
  }

  /** Pairs of strings, compared as Python compares tuples. */
  predicate PairBefore(a: (string, string), b: (string, string)) {
    Before(a.0, b.0) || (a.0 == b.0 && Before(a.1, b.1))
  }

  lemma PairBeforeIsOrder(a: (string, string), b: (string, string), c: (string, string))
    ensures PairBefore(a, b) ==> !PairBefore(b, a)
    ensures PairBefore(a, b) && PairBefore(b, c) ==> PairBefore(a, c)
    ensures a == b || PairBefore(a, b) || PairBefore(b, a)
  {
    BeforeIsStrict(a.0, b.0);
    BeforeIsStrict(a.1, b.1);
    BeforeIsTotal(a.0, b.0);
    BeforeIsTotal(a.1, b.1);
    if PairBefore(a, b) && PairBefore(b, c) {
      if Before(a.0, b.0) && Before(b.0, c.0) {
        BeforeIsTransitive(a.0, b.0, c.0);
      } else if a.0 == b.0 == c.0 {
        BeforeIsTransitive(a.1, b.1, c.1);
      }
    }
  }
}
