/**
 Strict total orders, and the ascending enumeration of a finite set: what a library `sort`
 followed by `dedup`, or the key order of a B-tree map, hands to the code.
 */
module Ordering {
  type Less<!K> = (K, K) -> bool

  ghost predicate StrictOrder<K(!new)>(less: Less<K>) {
    && (forall a :: !less(a, a))
    && (forall a, b, c :: less(a, b) && less(b, c) ==> less(a, c))
    && (forall a, b :: a == b || less(a, b) || less(b, a))
  }

  predicate IsLeast<K(==)>(less: Less<K>, s: set<K>, m: K) {
    m in s && forall y :: y in s && y != m ==> less(m, y)
  }

  ghost predicate IsAscending<K>(less: Less<K>, r: seq<K>) {
    forall i, j :: 0 <= i < j < |r| ==> less(r[i], r[j])
  }

  ghost predicate Distinct<T>(s: seq<T>) {
    forall i, j :: 0 <= i < j < |s| ==> s[i] != s[j]
  }

  lemma {:induction false} LeastExists<K(!new)>(less: Less<K>, s: set<K>) returns (m: K)
    requires StrictOrder(less) && s != {}
    ensures IsLeast(less, s, m)
    decreases s
  {
    var x :| x in s;
    if s == {x} {
      m := x;
    } else {
      var n := LeastExists(less, s - {x});
      m := if less(x, n) then x else n;
      forall y | y in s && y != m ensures less(m, y) {
        if y != x && y != n { assert less(n, y); }
      }
    }
  }

  ghost function Ascending<K(!new)>(less: Less<K>, s: set<K>): (r: seq<K>)
    requires StrictOrder(less)
    decreases s
  {
    if s == {} then []
    else
      assert exists m :: IsLeast(less, s, m) by { var m := LeastExists(less, s); }
      var m :| IsLeast(less, s, m);
      [m] + Ascending(less, s - {m})
  }

  lemma AscendingFirst<K(!new)>(less: Less<K>, s: set<K>, m: K)
    requires StrictOrder(less) && IsLeast(less, s, m)
    ensures Ascending(less, s) == [m] + Ascending(less, s - {m})
  {
  }

  lemma {:induction false} AscendingElements<K(!new)>(less: Less<K>, s: set<K>)
    requires StrictOrder(less)
    ensures IsAscending(less, Ascending(less, s)) && |Ascending(less, s)| == |s|
    ensures forall x :: x in s <==> x in Ascending(less, s)
    decreases s
  {
    if s != {} {
      var m := LeastExists(less, s);
      AscendingFirst(less, s, m);
      AscendingElements(less, s - {m});
      assert s == {m} + (s - {m});
    }
  }

  /** There is only one strictly ascending way to list a set. */
  lemma {:induction false} AscendingUnique<K(!new)>(less: Less<K>, s: set<K>, r: seq<K>)
    requires StrictOrder(less) && IsAscending(less, r) && forall x :: x in s <==> x in r
    ensures r == Ascending(less, s)
    decreases r
  {
    if r == [] {
      assert s == {};
    } else {
      var m := r[0];
      assert IsLeast(less, s, m);
      AscendingFirst(less, s, m);
      forall x ensures x in s - {m} <==> x in r[1..] {
        if x in r[1..] { assert less(m, x); }
      }
      AscendingUnique(less, s - {m}, r[1..]);
    }
  }

  /** Selection of the least key, again and again. */
  method SortKeys<K(==, !new)>(less: Less<K>, s: set<K>) returns (r: seq<K>)
    requires StrictOrder(less)
    ensures r == Ascending(less, s)
  {
    r := [];
    var rest := s;
    while rest != {}
      invariant r + Ascending(less, rest) == Ascending(less, s)
      decreases rest
    {
      var m :| m in rest;
      var others := rest - {m};
      while others != {}
        invariant m in rest && others <= rest
        invariant forall y :: y in rest && y !in others && y != m ==> less(m, y)
        decreases others
      {
        var y :| y in others;
        if less(y, m) { m := y; }
        others := others - {y};
      }
      AscendingFirst(less, rest, m);
      r := r + [m];
      rest := rest - {m};
    }
  }

  predicate NatLess(a: nat, b: nat) { a < b }

  lemma NatLessIsOrder()
    ensures StrictOrder(NatLess)
  {
  }

  /** Byte-wise string comparison; a proper prefix comes first. */
  predicate StringLess(a: string, b: string) {
    if b == [] then false
    else if a == [] then true
    else a[0] < b[0] || (a[0] == b[0] && StringLess(a[1..], b[1..]))
  }

  /** `a` is a proper prefix of `b`, or has the smaller character at the first place where they differ. */
  ghost predicate ComesBefore(a: string, b: string) {
    a < b || exists k :: 0 <= k < |a| && k < |b| && a[..k] == b[..k] && a[k] < b[k]
  }

  lemma LaterDifference(a: string, b: string)
    requires a != [] && b != [] && a[0] == b[0]
    ensures ComesBefore(a[1..], b[1..]) ==> ComesBefore(a, b)
  {
    var x, y := a[1..], b[1..];
    assert a == [a[0]] + x && b == [b[0]] + y;
    if !(x < y) && ComesBefore(x, y) {
      var k :| 0 <= k < |x| && k < |y| && x[..k] == y[..k] && x[k] < y[k];
      assert a[..k + 1] == [a[0]] + x[..k] && b[..k + 1] == [b[0]] + y[..k];
      assert a[k + 1] < b[k + 1];
    }
  }

  lemma FirstDifference(a: string, b: string)
    requires a != [] && b != [] && ComesBefore(a, b)
    ensures a[0] < b[0] || (a[0] == b[0] && ComesBefore(a[1..], b[1..]))
  {
    var x, y := a[1..], b[1..];
    if a < b {
      assert x < y;
    } else {
      var k :| 0 <= k < |a| && k < |b| && a[..k] == b[..k] && a[k] < b[k];
      if k > 0 {
        assert a[..k][0] == b[..k][0];
        assert x[..k - 1] == a[..k][1..] && y[..k - 1] == b[..k][1..];
        assert x[k - 1] < y[k - 1];
      }
    }
  }

  /** The comparison by positions. */
  lemma {:induction false} StringLessByPosition(a: string, b: string)
    ensures StringLess(a, b) <==> ComesBefore(a, b)
  {
    if a != [] && b != [] {
      if a[0] == b[0] {
        StringLessByPosition(a[1..], b[1..]);
        LaterDifference(a, b);
      } else {
        assert a[..0] == b[..0];
      }
      if ComesBefore(a, b) { FirstDifference(a, b); }
    }
  }

  lemma {:induction false} StringLessLaws(a: string, b: string, c: string)
    ensures !StringLess(a, a)
    ensures StringLess(a, b) && StringLess(b, c) ==> StringLess(a, c)
    ensures a == b || StringLess(a, b) || StringLess(b, a)
  {
    if a != [] && b != [] {
      StringLessLaws(a[1..], b[1..], if c == [] then [] else c[1..]);
      assert a == [a[0]] + a[1..] && b == [b[0]] + b[1..];
    } else if a != [] {
      StringLessLaws(a[1..], [], []);
    }
  }

  lemma StringLessIsOrder()
    ensures StrictOrder(StringLess)
  {
    forall a: string, b: string, c: string
      ensures !StringLess(a, a) && (StringLess(a, b) && StringLess(b, c) ==> StringLess(a, c))
      ensures a == b || StringLess(a, b) || StringLess(b, a)
    {
      StringLessLaws(a, b, c);
    }
  }

  // ---- stable sorting ----

  /** A strict weak order: ties are allowed, and being tied is an equivalence. */
  ghost predicate WeakOrder<T(!new)>(less: Less<T>) {
    && (forall a :: !less(a, a))
    && (forall a, b, c :: less(a, b) && less(b, c) ==> less(a, c))
    && (forall a, b, c :: !less(a, b) && !less(b, c) ==> !less(a, c))
  }

  function InsertStable<T>(less: Less<T>, e: T, sorted: seq<T>): seq<T> {
    if sorted == [] then [e]
    else if less(sorted[0], e) then [sorted[0]] + InsertStable(less, e, sorted[1..])
    else [e] + sorted
  }

  /** What a library's stable sort returns. */
  function StableSort<T>(less: Less<T>, es: seq<T>): seq<T> {
    if es == [] then [] else InsertStable(less, es[0], StableSort(less, es[1..]))
  }

  ghost predicate Ordered<T>(less: Less<T>, es: seq<T>) {
    forall i, j :: 0 <= i < j < |es| ==> !less(es[j], es[i])
  }

  lemma {:induction false} InsertKeepsOrder<T(!new)>(less: Less<T>, e: T, sorted: seq<T>)
    requires WeakOrder(less) && Ordered(less, sorted)
    ensures Ordered(less, InsertStable(less, e, sorted))
    ensures multiset(InsertStable(less, e, sorted)) == multiset{e} + multiset(sorted)
  {
    var r := InsertStable(less, e, sorted);
    if sorted == [] {
    } else if less(sorted[0], e) {
      InsertKeepsOrder(less, e, sorted[1..]);
      assert sorted == [sorted[0]] + sorted[1..];
      forall j | 0 < j < |r| ensures !less(r[j], r[0]) {
        assert r[j] in multiset(InsertStable(less, e, sorted[1..]));
        assert less(e, sorted[0]) ==> less(e, e);
      }
    } else {
      forall j | 0 < j < |r| ensures !less(r[j], r[0]) {
        assert r[j] == sorted[j - 1];
      }
    }
  }

  lemma {:induction false} SortIsSorted<T(!new)>(less: Less<T>, es: seq<T>)
    requires WeakOrder(less)
    ensures Ordered(less, StableSort(less, es)) && multiset(StableSort(less, es)) == multiset(es)
  {
    hide InsertStable, Ordered, WeakOrder;
    if es != [] {
      SortIsSorted(less, es[1..]);
      InsertKeepsOrder(less, es[0], StableSort(less, es[1..]));
      assert es == [es[0]] + es[1..];
    } else {
      NothingIsOrdered(less);
    }
  }

  lemma NothingIsOrdered<T>(less: Less<T>)
    ensures Ordered(less, [])
  {
  }

  lemma {:induction false} SortKeepsSorted<T(!new)>(less: Less<T>, es: seq<T>)
    requires Ordered(less, es)
    ensures StableSort(less, es) == es
  {
    if es != [] {
      SortKeepsSorted(less, es[1..]);
      assert es == [es[0]] + es[1..];
    }
  }
}
