/** The coupling-edge suggester: the reachability test, the greedy acyclic filter and the counting. */
module Calibrate {
  import opened Graph
  import opened Ordering
  import Coupling

  datatype CoEdge = CoEdge(src: string, dst: string, coCommits: nat)

  function EdgesOf(es: seq<CoEdge>): (r: seq<Edge>)
    ensures |r| == |es| && forall i :: 0 <= i < |es| ==> r[i] == Edge(es[i].src, es[i].dst)
  {
    seq(|es|, i requires 0 <= i < |es| => Edge(es[i].src, es[i].dst))
  }

  // ---- would_create_cycle ----

  /** The frontier of the search: reachable nodes, whose children are seen or waiting. */
  ghost predicate Frontier(edges: seq<Edge>, from: string, target: string, stack: seq<string>, seen: set<string>) {
    && (forall n :: n in seen || n in stack ==> Reaches(edges, from, n))
    && target !in seen && (from in seen || from in stack)
    && (forall e :: e in edges && e.src in seen ==> e.dst in seen || e.dst in stack)
  }

  lemma PopSeen(edges: seq<Edge>, from: string, target: string, stack: seq<string>, seen: set<string>)
    requires Frontier(edges, from, target, stack, seen) && stack != [] && stack[|stack| - 1] in seen
    ensures Frontier(edges, from, target, stack[..|stack| - 1], seen)
  {
    assert stack == stack[..|stack| - 1] + [stack[|stack| - 1]];
  }

  lemma PopNew(edges: seq<Edge>, from: string, target: string, stack: seq<string>, seen: set<string>, children: seq<string>)
    requires Frontier(edges, from, target, stack, seen) && stack != [] && stack[|stack| - 1] != target
    requires forall c :: c in children <==> Edge(stack[|stack| - 1], c) in edges
    ensures Frontier(edges, from, target, stack[..|stack| - 1] + children, seen + {stack[|stack| - 1]})
  {
    var n, rest := stack[|stack| - 1], stack[..|stack| - 1];
    assert stack == rest + [n];
    forall c | c in children ensures Reaches(edges, from, c) {
      ReachesStep(edges, from, n, c);
    }
    forall e | e in edges && e.src in seen + {n} ensures e.dst in seen + {n} || e.dst in rest + children {
      if e.src == n { assert Edge(n, e.dst) == e; }
    }
  }

  lemma NothingLeft(edges: seq<Edge>, from: string, target: string, seen: set<string>)
    requires Frontier(edges, from, target, [], seen)
    ensures !Reaches(edges, from, target)
  {
    if Reaches(edges, from, target) {
      var p :| PathFromTo(edges, p, from, target);
      ClosedKeepsPath(edges, seen, p);
    }
  }

  method WouldCreateCycle(existing: seq<CoEdge>, newSrc: string, newDst: string) returns (r: bool)
    ensures r <==> Reaches(EdgesOf(existing), newDst, newSrc)
  {
    hide Frontier, Reaches, Coupling.Nodes, Coupling.IsAdjacency;
    var edges := EdgesOf(existing);
    var adj, nodes := Coupling.BuildAdjacency(edges);
    var stack, seen := [newDst], {};
    StartFrontier(edges, newDst, newSrc);
    while stack != []
      invariant Frontier(edges, newDst, newSrc, stack, seen)
      invariant seen <= nodes + {newDst} && forall n :: n in stack ==> n in nodes + {newDst}
      decreases nodes + {newDst} - seen, |stack|
    {
      var n := stack[|stack| - 1];
      if n == newSrc {
        FrontierReaches(edges, newDst, newSrc, stack, seen);
        return true;
      }
      if n in seen {
        PopSeen(edges, newDst, newSrc, stack, seen);
        stack := stack[..|stack| - 1];
      } else {
        var children := Coupling.ChildrenOf(adj, n);
        ChildrenKnown(edges, adj, nodes, n);
        PopNew(edges, newDst, newSrc, stack, seen, children);
        stack := stack[..|stack| - 1] + children;
        seen := seen + {n};
      }
    }
    NothingLeft(edges, newDst, newSrc, seen);
    r := false;
  }

  lemma StartFrontier(edges: seq<Edge>, from: string, target: string)
    ensures Frontier(edges, from, target, [from], {})
  {
    ReachesSelf(edges, from);
  }

  lemma FrontierReaches(edges: seq<Edge>, from: string, target: string, stack: seq<string>, seen: set<string>)
    requires Frontier(edges, from, target, stack, seen) && stack != []
    ensures Reaches(edges, from, stack[|stack| - 1])
  {
    assert stack[|stack| - 1] in stack;
  }

  lemma ChildrenKnown(edges: seq<Edge>, adj: Coupling.Adjacency, nodes: set<string>, n: string)
    requires Coupling.IsAdjacency(edges, adj) && nodes == Coupling.Nodes(edges)
    ensures forall c :: c in Coupling.ChildrenOf(adj, n) <==> Edge(n, c) in edges
    ensures forall c :: c in Coupling.ChildrenOf(adj, n) ==> c in nodes
  {
  }

  // ---- the greedy acyclic filter ----

  /** Kept and dropped edges of a proposal order. */
  ghost function Greedy(proposed: seq<CoEdge>): (seq<CoEdge>, seq<CoEdge>) {
    if proposed == [] then ([], [])
    else
      var e := proposed[|proposed| - 1];
      var (kept, dropped) := Greedy(proposed[..|proposed| - 1]);
      if Reaches(EdgesOf(kept), e.dst, e.src) then (kept, dropped + [e]) else (kept + [e], dropped)
  }

  method GreedyFilter(proposed: seq<CoEdge>) returns (kept: seq<CoEdge>, dropped: seq<CoEdge>)
    ensures (kept, dropped) == Greedy(proposed)
  {
    hide Reaches;
    kept, dropped := [], [];
    for i := 0 to |proposed|
      invariant (kept, dropped) == Greedy(proposed[..i])
    {
      var e := proposed[i];
      assert proposed[..i + 1][..i] == proposed[..i];
      var closes := WouldCreateCycle(kept, e.src, e.dst);
      if closes {
        dropped := dropped + [e];
      } else {
        kept := kept + [e];
      }
    }
    assert proposed[..|proposed|] == proposed;
  }

  lemma EdgesOfMore(es: seq<CoEdge>, e: CoEdge)
    ensures EdgesOf(es + [e]) == EdgesOf(es) + [Edge(e.src, e.dst)]
  {
  }

  lemma ReachesMore(edges: seq<Edge>, more: seq<Edge>, a: string, b: string)
    requires Reaches(edges, a, b) && forall e :: e in edges ==> e in more
    ensures Reaches(more, a, b)
  {
    var p :| PathFromTo(edges, p, a, b);
    assert PathFromTo(more, p, a, b);
  }

  /**
   Whatever the order of the proposals: the kept edges have no cycle, every dropped edge closes
   one with the kept edges, and nothing is lost or invented.
   */
  lemma {:induction false} GreedyIsAcyclic(proposed: seq<CoEdge>)
    ensures var (kept, dropped) := Greedy(proposed);
      && Acyclic(EdgesOf(kept))
      && (forall e :: e in dropped ==> Reaches(EdgesOf(kept), e.dst, e.src))
      && multiset(kept) + multiset(dropped) == multiset(proposed)
    decreases proposed
  {
    hide Acyclic, Reaches;
    if proposed == [] {
      RankedIsAcyclic([], map[]);
    } else {
      var e, before := proposed[|proposed| - 1], proposed[..|proposed| - 1];
      assert proposed == before + [e];
      GreedyIsAcyclic(before);
      var (kept, dropped) := Greedy(before);
      if !Reaches(EdgesOf(kept), e.dst, e.src) {
        EdgesOfMore(kept, e);
        NewEdgeCycle(EdgesOf(kept), Edge(e.src, e.dst));
        forall d | d in dropped ensures Reaches(EdgesOf(kept + [e]), d.dst, d.src) {
          ReachesMore(EdgesOf(kept), EdgesOf(kept + [e]), d.dst, d.src);
        }
      }
    }
  }

  /** A proposal without cycles is kept whole, in order. */
  lemma {:induction false} GreedyKeepsAcyclic(proposed: seq<CoEdge>)
    requires Acyclic(EdgesOf(proposed))
    ensures Greedy(proposed) == (proposed, [])
    decreases proposed
  {
    if proposed != [] {
      var e, before := proposed[|proposed| - 1], proposed[..|proposed| - 1];
      assert proposed == before + [e];
      EdgesOfMore(before, e);
      forall p ensures !IsCycle(EdgesOf(before), p) {
        if IsCycle(EdgesOf(before), p) { assert IsCycle(EdgesOf(proposed), p); }
      }
      GreedyKeepsAcyclic(before);
      NewEdgeCycle(EdgesOf(before), Edge(e.src, e.dst));
    }
  }

  /** Edges that all point up a strict order have no cycle. */
  lemma AlphabeticalIsAcyclic(edges: seq<Edge>)
    requires forall e :: e in edges ==> StringLess(e.src, e.dst)
    ensures Acyclic(edges)
  {
    forall p ensures !IsCycle(edges, p) {
      if IsCycle(edges, p) {
        PathGoesUp(edges, p, |p| - 1);
        StringLessLaws(p[0], p[0], p[0]);
      }
    }
  }

  lemma {:induction false} PathGoesUp(edges: seq<Edge>, p: seq<string>, k: nat)
    requires forall e :: e in edges ==> StringLess(e.src, e.dst)
    requires IsPath(edges, p) && 0 < k < |p|
    ensures StringLess(p[0], p[k])
  {
    assert Edge(p[k - 1], p[k]) in edges;
    if k > 1 {
      PathGoesUp(edges, p, k - 1);
      StringLessLaws(p[0], p[k - 1], p[k]);
    }
  }
}
