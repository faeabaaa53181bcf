/** Counting, for a growing collection of sets, how often each element and each pair of elements occurs. */
module PairCounting {
  import opened Ordering

  type PairCounts = map<(string, string), nat>

  function PairCount(co: PairCounts, a: string, b: string): nat {
    if (a, b) in co then co[(a, b)] else 0
  }

  function KeyCount(m: map<string, nat>, a: string): nat {
    if a in m then m[a] else 0
  }

  method CountActivity(activity: map<string, nat>, v: seq<string>) returns (r: map<string, nat>)
    requires Distinct(v)
    ensures forall a :: KeyCount(r, a) == KeyCount(activity, a) + if a in v then 1 else 0
  {
    r := activity;
    for i := 0 to |v|
      invariant forall a :: KeyCount(r, a) == KeyCount(activity, a) + if a in v[..i] then 1 else 0
    {
      assert v[..i + 1] == v[..i] + [v[i]] && v[i] !in v[..i];
      r := r[v[i] := KeyCount(r, v[i]) + 1];
    }
    assert v[..|v|] == v;
  }

  /** The pairs visited once the outer index is `i` and the inner one `j`. */
  ghost predicate Visited(v: seq<string>, i: nat, j: nat, a: string, b: string) {
    exists p, q :: 0 <= p < q < |v| && v[p] == a && v[q] == b && (p < i || (p == i && q < j))
  }

  ghost predicate PairsAdded(co: PairCounts, v: seq<string>, i: nat, j: nat, r: PairCounts) {
    && (forall a, b :: PairCount(r, a, b) == PairCount(co, a, b) + if Visited(v, i, j, a, b) then 1 else 0)
    && (forall k :: k in r ==> k in co || Visited(v, i, j, k.0, k.1))
  }

  lemma VisitNext(v: seq<string>, i: nat, j: nat, a: string, b: string)
    requires IsAscending(StringLess, v) && StrictOrder(StringLess) && i < j < |v|
    ensures Visited(v, i, j + 1, a, b) <==> Visited(v, i, j, a, b) || (a == v[i] && b == v[j])
    ensures !Visited(v, i, j, v[i], v[j])
  {
    if a == v[i] && b == v[j] { assert Visited(v, i, j + 1, a, b); }
    if Visited(v, i, j, v[i], v[j]) {
      var p, q :| 0 <= p < q < |v| && v[p] == v[i] && v[q] == v[j] && (p < i || (p == i && q < j));
    }
  }

  method CountPairs(co: PairCounts, v: seq<string>) returns (r: PairCounts)
    requires IsAscending(StringLess, v) && StrictOrder(StringLess)
    ensures PairsAdded(co, v, |v|, 0, r)
  {
    r := co;
    assert PairsAdded(co, v, 0, 0, r);
    for i := 0 to |v|
      invariant PairsAdded(co, v, i, 0, r)
    {
      RowStart(co, v, i, r);
      for j := i + 1 to |v|
        invariant PairsAdded(co, v, i, j, r)
      {
        var (a, b) := (v[i], v[j]);
        assert StringLess(a, b);
        var key := if StringLess(a, b) then (a, b) else (b, a);
        OnePair(co, v, i, j, r);
        r := r[key := PairCount(r, key.0, key.1) + 1];
      }
      RowEnd(co, v, i, r);
    }
  }

  lemma RowStart(co: PairCounts, v: seq<string>, i: nat, r: PairCounts)
    requires PairsAdded(co, v, i, 0, r)
    ensures PairsAdded(co, v, i, i + 1, r)
  {
    forall a, b ensures Visited(v, i, 0, a, b) <==> Visited(v, i, i + 1, a, b) {
      if Visited(v, i, i + 1, a, b) {
        var p, q :| 0 <= p < q < |v| && v[p] == a && v[q] == b && (p < i || (p == i && q < i + 1));
        assert p < i;
      }
    }
  }

  lemma RowEnd(co: PairCounts, v: seq<string>, i: nat, r: PairCounts)
    requires PairsAdded(co, v, i, if i + 1 <= |v| then |v| else i + 1, r) && i < |v|
    ensures PairsAdded(co, v, i + 1, 0, r)
  {
    forall a, b ensures Visited(v, i, |v|, a, b) <==> Visited(v, i + 1, 0, a, b) {
    }
  }

  lemma OnePair(co: PairCounts, v: seq<string>, i: nat, j: nat, r: PairCounts)
    requires IsAscending(StringLess, v) && StrictOrder(StringLess) && i < j < |v| && PairsAdded(co, v, i, j, r)
    ensures PairsAdded(co, v, i, j + 1, r[(v[i], v[j]) := PairCount(r, v[i], v[j]) + 1])
  {
    var next := r[(v[i], v[j]) := PairCount(r, v[i], v[j]) + 1];
    forall a, b
      ensures PairCount(next, a, b) == PairCount(co, a, b) + if Visited(v, i, j + 1, a, b) then 1 else 0
    {
      VisitNext(v, i, j, a, b);
    }
    forall k | k in next ensures k in co || Visited(v, i, j + 1, k.0, k.1) {
      VisitNext(v, i, j, k.0, k.1);
    }
  }

  lemma AllPairsVisited(v: seq<string>, a: string, b: string)
    requires IsAscending(StringLess, v) && StrictOrder(StringLess)
    ensures Visited(v, |v|, 0, a, b) <==> a in v && b in v && StringLess(a, b)
  {
    hide StringLess;
    if a in v && b in v && StringLess(a, b) {
      var p :| 0 <= p < |v| && v[p] == a;
      var q :| 0 <= q < |v| && v[q] == b;
      assert p < q;
    }
  }

  lemma NoPairs(co: PairCounts, v: seq<string>)
    ensures v == [] ==> PairsAdded(co, v, |v|, 0, co)
  {
  }

  lemma DistinctAscending(v: seq<string>)
    requires IsAscending(StringLess, v) && StrictOrder(StringLess)
    ensures Distinct(v)
  {
  }
}
