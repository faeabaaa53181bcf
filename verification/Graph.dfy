/** Directed graphs given by an edge list: paths, reachability and cycles. */
module Graph {
  import opened Ordering

  datatype Edge = Edge(src: string, dst: string)

  ghost predicate IsPath(edges: seq<Edge>, p: seq<string>) {
    |p| > 0 && forall i :: 0 <= i < |p| - 1 ==> Edge(p[i], p[i + 1]) in edges
  }

  ghost predicate PathFromTo(edges: seq<Edge>, p: seq<string>, a: string, b: string) {
    IsPath(edges, p) && p[0] == a && p[|p| - 1] == b
  }

  /** A path of any length, the empty one included. */
  ghost predicate Reaches(edges: seq<Edge>, a: string, b: string) {
    exists p :: PathFromTo(edges, p, a, b)
  }

  /** A closed walk with at least one edge; a self loop is one. */
  ghost predicate IsCycle(edges: seq<Edge>, p: seq<string>) {
    IsPath(edges, p) && |p| >= 2 && p[0] == p[|p| - 1]
  }

  ghost predicate Acyclic(edges: seq<Edge>) {
    forall p :: !IsCycle(edges, p)
  }

  /** A cycle that meets no node twice except where it closes. */
  ghost predicate IsSimpleCycle(edges: seq<Edge>, p: seq<string>) {
    IsCycle(edges, p) && Distinct(p[..|p| - 1])
  }

  lemma ReachesSelf(edges: seq<Edge>, a: string)
    ensures Reaches(edges, a, a)
  {
    assert PathFromTo(edges, [a], a, a);
  }

  lemma ReachesStep(edges: seq<Edge>, a: string, b: string, c: string)
    requires Reaches(edges, a, b) && Edge(b, c) in edges
    ensures Reaches(edges, a, c)
  {
    var p :| PathFromTo(edges, p, a, b);
    assert PathFromTo(edges, p + [c], a, c);
  }

  /** A set closed under the edges keeps everything reachable from it. */
  lemma {:induction false} ClosedKeepsPath(edges: seq<Edge>, s: set<string>, p: seq<string>)
    requires IsPath(edges, p) && p[0] in s
    requires forall e :: e in edges && e.src in s ==> e.dst in s
    ensures p[|p| - 1] in s
    decreases p
  {
    if |p| > 1 {
      assert Edge(p[0], p[1]) in edges;
      ClosedKeepsPath(edges, s, p[1..]);
    }
  }

  /** Numbers that drop along every edge rule out cycles. */
  lemma RankedIsAcyclic(edges: seq<Edge>, rank: map<string, nat>)
    requires forall e :: e in edges ==> e.src in rank && e.dst in rank && rank[e.dst] < rank[e.src]
    ensures Acyclic(edges)
  {
    forall p ensures !IsCycle(edges, p) {
      if IsCycle(edges, p) {
        RankDrops(edges, rank, p, |p| - 1);
      }
    }
  }

  lemma {:induction false} RankDrops(edges: seq<Edge>, rank: map<string, nat>, p: seq<string>, k: nat)
    requires forall e :: e in edges ==> e.src in rank && e.dst in rank && rank[e.dst] < rank[e.src]
    requires IsPath(edges, p) && 0 < k < |p|
    ensures p[0] in rank && p[k] in rank && rank[p[k]] < rank[p[0]]
  {
    assert Edge(p[k - 1], p[k]) in edges;
    if k > 1 {
      RankDrops(edges, rank, p, k - 1);
    }
  }

  /** A new edge closes a cycle exactly when its head already reaches its tail. */
  lemma NewEdgeCycle(edges: seq<Edge>, e: Edge)
    requires Acyclic(edges)
    ensures Acyclic(edges + [e]) <==> !Reaches(edges, e.dst, e.src)
  {
    if Reaches(edges, e.dst, e.src) {
      var p :| PathFromTo(edges, p, e.dst, e.src);
      assert IsCycle(edges + [e], [e.src] + p);
    } else {
      forall p ensures !IsCycle(edges + [e], p) {
        if IsCycle(edges + [e], p) {
          var q := CycleUsesNewEdge(edges, e, p);
        }
      }
    }
  }

  /** From a cycle through the new edge, a path back from its head to its tail. */
  lemma CycleUsesNewEdge(edges: seq<Edge>, e: Edge, p: seq<string>) returns (q: seq<string>)
    requires Acyclic(edges) && IsCycle(edges + [e], p)
    ensures PathFromTo(edges, q, e.dst, e.src)
  {
    assert !IsCycle(edges, p);
    var i :| 0 <= i < |p| - 1 && Edge(p[i], p[i + 1]) !in edges;
    assert Edge(p[i], p[i + 1]) == e;
    // turned so that it starts behind the new edge, the cycle is a path from e.dst to e.src
    var turned := p[i + 1..] + p[1..i + 1];
    assert forall k :: 0 <= k < |turned| - 1 ==> Edge(turned[k], turned[k + 1]) in edges + [e];
    q := FirstReturn(edges, e, turned);
  }

  /** Cutting a walk from `e.dst` to `e.src` where it first uses `e` again. */
  lemma {:induction false} FirstReturn(edges: seq<Edge>, e: Edge, p: seq<string>) returns (q: seq<string>)
    requires PathFromTo(edges + [e], p, e.dst, e.src)
    ensures PathFromTo(edges, q, e.dst, e.src)
    decreases p
  {
    if IsPath(edges, p) {
      q := p;
    } else {
      var i :| 0 <= i < |p| - 1 && Edge(p[i], p[i + 1]) !in edges;
      assert Edge(p[i], p[i + 1]) == e;
      q := FirstReturn(edges, e, p[..i + 1]);
    }
  }
}
