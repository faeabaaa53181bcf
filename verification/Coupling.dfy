/** The cycle check of the coupling graph: an iterative three-colour depth-first search. */
module Coupling {
  import opened Graph
  import opened Ordering

  datatype Colour = White | Gray | Black

  datatype DagResult = Dag | HasCycle(chain: seq<string>)

  /** A stack frame: a node and how many of its children have been taken. */
  datatype Frame = Frame(node: string, taken: nat)

  type Colours = map<string, Colour>
  type Adjacency = map<string, seq<string>>

  // ---- the adjacency the search runs on ----

  ghost function Children(edges: seq<Edge>, n: string): seq<string> {
    if edges == [] then []
    else
      var e := edges[|edges| - 1];
      Children(edges[..|edges| - 1], n) + if e.src == n then [e.dst] else []
  }

  lemma {:induction false} ChildrenAreEdges(edges: seq<Edge>, n: string, c: string)
    ensures c in Children(edges, n) <==> Edge(n, c) in edges
  {
    if edges != [] {
      ChildrenAreEdges(edges[..|edges| - 1], n, c);
      assert edges == edges[..|edges| - 1] + [edges[|edges| - 1]];
    }
  }

  function ChildrenOf(adj: Adjacency, n: string): seq<string> {
    if n in adj then adj[n] else []
  }

  ghost function Nodes(edges: seq<Edge>): set<string> {
    (set e | e in edges :: e.src) + (set e | e in edges :: e.dst)
  }

  lemma OneMoreEdge(edges: seq<Edge>, i: nat, n: string)
    requires i < |edges|
    ensures Children(edges[..i + 1], n) == Children(edges[..i], n) + if edges[i].src == n then [edges[i].dst] else []
    ensures Nodes(edges[..i + 1]) == Nodes(edges[..i]) + {edges[i].src, edges[i].dst}
  {
    assert edges[..i + 1][..i] == edges[..i];
    assert edges[..i + 1] == edges[..i] + [edges[i]];
  }

  method BuildAdjacency(edges: seq<Edge>) returns (adj: Adjacency, nodes: set<string>)
    ensures IsAdjacency(edges, adj)
    ensures nodes == Nodes(edges)
  {
    hide Children, Nodes, IsAdjacency;
    adj, nodes := map[], {};
    assert edges[..0] == [];
    assert Nodes([]) == {} && forall n :: Children([], n) == [] by { NoEdges(); }
    for i := 0 to |edges|
      invariant forall n :: ChildrenOf(adj, n) == Children(edges[..i], n)
      invariant nodes == Nodes(edges[..i])
    {
      var e := edges[i];
      OneMoreEdge(edges, i, e.src);
      ghost var before := adj;
      adj := adj[e.src := ChildrenOf(adj, e.src) + [e.dst]];
      forall n ensures ChildrenOf(adj, n) == Children(edges[..i + 1], n) {
        assert ChildrenOf(before, n) == Children(edges[..i], n);
        OneMoreEdge(edges, i, n);
      }
      nodes := nodes + {e.src, e.dst};
    }
    assert edges[..|edges|] == edges;
    AdjacencyFromChildren(edges, adj);
  }

  lemma NoEdges()
    ensures Nodes([]) == {} && forall n :: Children([], n) == []
  {
  }

  lemma AdjacencyFromChildren(edges: seq<Edge>, adj: Adjacency)
    requires forall n :: ChildrenOf(adj, n) == Children(edges, n)
    ensures IsAdjacency(edges, adj)
  {
    hide Children;
    forall n, c { ChildrenAreEdges(edges, n, c); }
  }

  // ---- the state of the search ----

  ghost predicate IsAdjacency(edges: seq<Edge>, adj: Adjacency) {
    forall n, c {:trigger c in ChildrenOf(adj, n)} :: c in ChildrenOf(adj, n) <==> Edge(n, c) in edges
  }

  ghost function Whites(colour: Colours): set<string> {
    set n | n in colour && colour[n] == White
  }

  /** Finished nodes are numbered so that every child of one has a smaller number. */
  ghost predicate Finished(adj: Adjacency, colour: Colours, rank: map<string, nat>) {
    && (forall n :: n in rank <==> n in colour && colour[n] == Black)
    && (forall n :: n in rank ==> rank[n] < |rank|)
    && (forall n, k :: n in rank && 0 <= k < |ChildrenOf(adj, n)| ==>
                         ChildrenOf(adj, n)[k] in rank && rank[ChildrenOf(adj, n)[k]] < rank[n])
  }

  /** The gray nodes are the current chain, in order, without repeats. */
  ghost predicate Chain(edges: seq<Edge>, colour: Colours, path: seq<string>) {
    && Distinct(path)
    && (forall n :: n in colour ==> (colour[n] == Gray <==> n in path))
    && (forall n :: n in path ==> n in colour)
    && (path != [] ==> IsPath(edges, path))
  }

  /** Every child already taken is finished, except the one the chain went down into. */
  ghost predicate Frames(adj: Adjacency, colour: Colours, stack: seq<Frame>, path: seq<string>) {
    && |stack| == |path|
    && (forall i :: 0 <= i < |stack| ==> stack[i].node == path[i] && stack[i].taken <= |ChildrenOf(adj, path[i])|)
    && (forall i, k :: 0 <= i < |stack| && 0 <= k < stack[i].taken ==>
          && ChildrenOf(adj, path[i])[k] in colour
          && (colour[ChildrenOf(adj, path[i])[k]] == Black || (i + 1 < |path| && ChildrenOf(adj, path[i])[k] == path[i + 1])))
  }

  ghost predicate Searching(edges: seq<Edge>, adj: Adjacency, colour: Colours, stack: seq<Frame>, path: seq<string>,
                            rank: map<string, nat>)
  {
    && IsAdjacency(edges, adj) && colour.Keys == Nodes(edges)
    && Finished(adj, colour, rank) && Chain(edges, colour, path) && Frames(adj, colour, stack, path)
  }

  /** Finished nodes stay finished and no node turns white again. */
  ghost predicate Later(before: Colours, after: Colours) {
    && before.Keys == after.Keys
    && (forall n :: n in before && before[n] == Black ==> after[n] == Black)
  }

  ghost function Remaining(adj: Adjacency, stack: seq<Frame>): int {
    if stack == [] then 0
    else |ChildrenOf(adj, stack[|stack| - 1].node)| - stack[|stack| - 1].taken
  }

  // ---- the moves of the search, one lemma each ----

  lemma StartSearch(edges: seq<Edge>, adj: Adjacency, colour: Colours, start: string, rank: map<string, nat>)
    requires Searching(edges, adj, colour, [], [], rank) && start in colour && colour[start] == White
    ensures Searching(edges, adj, colour[start := Gray], [Frame(start, 0)], [start], rank)
  {
    EnterKeepsChain(edges, colour, [], start);
    EnterKeepsFinished(adj, colour, rank, start);
    assert [] + [start] == [start];
  }

  lemma TopOfStack(edges: seq<Edge>, adj: Adjacency, colour: Colours, stack: seq<Frame>, path: seq<string>,
                   rank: map<string, nat>)
    requires stack != [] && Searching(edges, adj, colour, stack, path, rank)
    ensures path != [] && stack[|stack| - 1].node == path[|path| - 1]
    ensures stack[|stack| - 1].taken <= |ChildrenOf(adj, path[|path| - 1])|
    ensures path[|path| - 1] in colour && colour[path[|path| - 1]] == Gray
    ensures IsPath(edges, path) && Distinct(path)
  {
    assert path[|path| - 1] in path;
  }

  lemma ChildIsEdge(edges: seq<Edge>, adj: Adjacency, n: string, c: string)
    requires IsAdjacency(edges, adj) && c in ChildrenOf(adj, n)
    ensures Edge(n, c) in edges && c in Nodes(edges)
  {
  }

  lemma InChain(edges: seq<Edge>, colour: Colours, path: seq<string>, n: string)
    requires Chain(edges, colour, path) && n in colour && colour[n] == Gray
    ensures n in path
  {
  }

  lemma FewerWhites(before: Colours, after: Colours, n: string)
    requires n in before && before[n] == White && after == before[n := Gray]
    ensures Whites(after) < Whites(before)
  {
    assert n in Whites(before) && n !in Whites(after);
  }

  lemma EnterKeepsFinished(adj: Adjacency, colour: Colours, rank: map<string, nat>, next: string)
    requires Finished(adj, colour, rank) && next in colour && colour[next] == White
    ensures Finished(adj, colour[next := Gray], rank)
  {
  }

  lemma EnterKeepsChain(edges: seq<Edge>, colour: Colours, path: seq<string>, next: string)
    requires Chain(edges, colour, path) && next in colour && colour[next] == White
    requires path != [] ==> Edge(path[|path| - 1], next) in edges
    ensures Chain(edges, colour[next := Gray], path + [next])
  {
  }

  lemma EnterKeepsFrames(adj: Adjacency, colour: Colours, stack: seq<Frame>, path: seq<string>, next: string)
    requires stack != [] && Frames(adj, colour, stack, path) && next in colour && colour[next] == White
    requires var top := stack[|stack| - 1];
      top.taken < |ChildrenOf(adj, top.node)| && ChildrenOf(adj, top.node)[top.taken] == next
    ensures var top := stack[|stack| - 1];
      Frames(adj, colour[next := Gray], stack[|stack| - 1 := Frame(top.node, top.taken + 1)] + [Frame(next, 0)], path + [next])
  {
  }

  lemma SkipKeepsFrames(adj: Adjacency, colour: Colours, stack: seq<Frame>, path: seq<string>, next: string)
    requires stack != [] && Frames(adj, colour, stack, path) && next in colour && colour[next] == Black
    requires var top := stack[|stack| - 1];
      top.taken < |ChildrenOf(adj, top.node)| && ChildrenOf(adj, top.node)[top.taken] == next
    ensures var top := stack[|stack| - 1];
      Frames(adj, colour, stack[|stack| - 1 := Frame(top.node, top.taken + 1)], path)
  {
  }

  lemma LeaveKeepsFinished(adj: Adjacency, colour: Colours, stack: seq<Frame>, path: seq<string>, rank: map<string, nat>)
    requires stack != [] && Frames(adj, colour, stack, path) && Finished(adj, colour, rank)
    requires stack[|stack| - 1].taken == |ChildrenOf(adj, stack[|stack| - 1].node)|
    requires path[|path| - 1] in colour && colour[path[|path| - 1]] == Gray
    ensures Finished(adj, colour[path[|path| - 1] := Black], rank[path[|path| - 1] := |rank|])
  {
    var top := path[|path| - 1];
    assert top !in rank;
    var rank' := rank[top := |rank|];
    assert |rank'| == |rank| + 1;
  }

  lemma LeaveKeepsChain(edges: seq<Edge>, colour: Colours, path: seq<string>)
    requires path != [] && Chain(edges, colour, path)
    ensures Chain(edges, colour[path[|path| - 1] := Black], path[..|path| - 1])
  {
  }

  lemma LeaveKeepsFrames(adj: Adjacency, colour: Colours, stack: seq<Frame>, path: seq<string>)
    requires stack != [] && Frames(adj, colour, stack, path)
    ensures Frames(adj, colour[path[|path| - 1] := Black], stack[..|stack| - 1], path[..|path| - 1])
  {
  }

  /** Meeting a gray node closes a simple cycle: the chain from that node on, and the node again. */
  lemma GrayCloses(edges: seq<Edge>, path: seq<string>, next: string, at: nat)
    requires path != [] && IsPath(edges, path) && Distinct(path) && at < |path| && path[at] == next
    requires Edge(path[|path| - 1], next) in edges
    ensures IsSimpleCycle(edges, path[at..] + [next])
  {
    var p := path[at..] + [next];
    assert p[..|p| - 1] == path[at..];
    forall i | 0 <= i < |p| - 1 ensures Edge(p[i], p[i + 1]) in edges {
      if i < |path| - at - 1 { assert Edge(path[at + i], path[at + i + 1]) in edges; }
    }
  }

  method FirstIndex(path: seq<string>, next: string) returns (at: nat)
    requires next in path
    ensures at < |path| && path[at] == next
  {
    at := 0;
    while path[at] != next
      invariant at < |path| && next in path[at..]
      decreases |path| - at
    {
      assert path[at..] == [path[at]] + path[at + 1..];
      at := at + 1;
    }
  }

  /** One search from a white node: a cycle, or that node and all it reaches finished. */
  method Explore(edges: seq<Edge>, adj: Adjacency, colour0: Colours, start: string, ghost rank0: map<string, nat>)
    returns (colour: Colours, result: DagResult, ghost rank: map<string, nat>)
    requires Searching(edges, adj, colour0, [], [], rank0)
    requires start in colour0 && colour0[start] == White
    ensures result.HasCycle? ==> IsSimpleCycle(edges, result.chain)
    ensures result.Dag? ==> Searching(edges, adj, colour, [], [], rank) && Later(colour0, colour)
    ensures result.Dag? ==> start in colour && colour[start] == Black
  {
    hide Finished, Frames, Chain, IsAdjacency, IsSimpleCycle, IsPath, Distinct, Nodes;
    var stack := [Frame(start, 0)];
    var path := [start];
    colour := colour0[start := Gray];
    rank := rank0;
    StartSearch(edges, adj, colour0, start, rank0);
    while stack != []
      invariant Searching(edges, adj, colour, stack, path, rank) && Later(colour0, colour)
      invariant |stack| == |path| && start in colour && if path == [] then colour[start] == Black else path[0] == start
      decreases Whites(colour), |stack|, Remaining(adj, stack)
    {
      ghost var before := colour;
      var top := stack[|stack| - 1];
      var children := ChildrenOf(adj, top.node);
      TopOfStack(edges, adj, colour, stack, path, rank);
      if top.taken < |children| {
        var next := children[top.taken];
        ChildIsEdge(edges, adj, top.node, next);
        var c := if next in colour then colour[next] else White;
        match c {
          case White =>
            EnterKeepsChain(edges, colour, path, next);
            EnterKeepsFrames(adj, colour, stack, path, next);
            EnterKeepsFinished(adj, colour, rank, next);
            stack := stack[|stack| - 1 := Frame(top.node, top.taken + 1)];
            colour := colour[next := Gray];
            path := path + [next];
            stack := stack + [Frame(next, 0)];
            FewerWhites(before, colour, next);
          case Gray =>
            InChain(edges, colour, path, next);
            var at := FirstIndex(path, next);
            GrayCloses(edges, path, next, at);
            result := HasCycle(path[at..] + [next]);
            return;
          case Black =>
            SkipKeepsFrames(adj, colour, stack, path, next);
            stack := stack[|stack| - 1 := Frame(top.node, top.taken + 1)];
        }
      } else {
        LeaveKeepsFinished(adj, colour, stack, path, rank);
        LeaveKeepsChain(edges, colour, path);
        LeaveKeepsFrames(adj, colour, stack, path);
        colour := colour[top.node := Black];
        rank := rank[top.node := |rank|];
        path := path[..|path| - 1];
        stack := stack[..|stack| - 1];
        assert Whites(colour) == Whites(before);
      }
    }
    result := Dag;
  }

  /** A cycle-free list passes; any other is refused with a simple cycle. */
  method RequireDag(edges: seq<Edge>) returns (result: DagResult)
    ensures result.Dag? <==> Acyclic(edges)
    ensures result.HasCycle? ==> IsSimpleCycle(edges, result.chain)
  {
    hide Searching, Nodes, IsAdjacency, StrictOrder, Acyclic, IsSimpleCycle, IsAscending, StringLess;
    var adj, nodeSet := BuildAdjacency(edges);
    StringLessIsOrder();
    AscendingElements(StringLess, nodeSet);
    var nodes := SortKeys(StringLess, nodeSet);
    result := SearchAll(edges, adj, nodes);
    if result.HasCycle? {
      CycleRefutes(edges, result.chain);
    }
  }

  ghost predicate AllBlack(colour: Colours, nodes: seq<string>) {
    forall n :: n in nodes ==> n in colour && colour[n] == Black
  }

  method SearchAll(edges: seq<Edge>, adj: Adjacency, nodes: seq<string>) returns (result: DagResult)
    requires IsAdjacency(edges, adj) && forall n :: n in nodes <==> n in Nodes(edges)
    ensures result.Dag? ==> Acyclic(edges)
    ensures result.HasCycle? ==> IsSimpleCycle(edges, result.chain)
  {
    hide Searching, Nodes, IsAdjacency, Acyclic, IsSimpleCycle, AllBlack, Later;
    var colour: Colours := map n | n in nodes :: White;
    ghost var rank: map<string, nat> := map[];
    NothingSearched(edges, adj, colour);
    AllBlackSoFar(colour, colour, nodes, 0);
    for i := 0 to |nodes|
      invariant Searching(edges, adj, colour, [], [], rank)
      invariant AllBlack(colour, nodes[..i])
    {
      ghost var before := colour;
      SearchedColours(edges, adj, colour, rank, nodes[i]);
      if colour[nodes[i]] == White {
        colour, result, rank := Explore(edges, adj, colour, nodes[i], rank);
        if result.HasCycle? {
          return;
        }
      } else {
        LaterSelf(colour);
      }
      AllBlackSoFar(before, colour, nodes, i + 1);
    }
    assert nodes[..|nodes|] == nodes;
    AllFinished(edges, adj, colour, rank, nodes);
    result := Dag;
  }

  lemma LaterSelf(colour: Colours)
    ensures Later(colour, colour)
  {
  }

  lemma AllBlackSoFar(before: Colours, after: Colours, nodes: seq<string>, i: nat)
    requires i <= |nodes|
    requires i > 0 ==> AllBlack(before, nodes[..i - 1]) && Later(before, after)
    requires i > 0 ==> nodes[i - 1] in after && after[nodes[i - 1]] == Black
    ensures AllBlack(after, nodes[..i])
  {
    if i > 0 { assert nodes[..i] == nodes[..i - 1] + [nodes[i - 1]]; }
  }

  lemma NothingSearched(edges: seq<Edge>, adj: Adjacency, colour: Colours)
    requires IsAdjacency(edges, adj) && colour.Keys == Nodes(edges)
    requires forall n :: n in colour ==> colour[n] == White
    ensures Searching(edges, adj, colour, [], [], map[])
  {
  }

  /** Between searches nothing is gray. */
  lemma SearchedColours(edges: seq<Edge>, adj: Adjacency, colour: Colours, rank: map<string, nat>, n: string)
    requires Searching(edges, adj, colour, [], [], rank) && n in Nodes(edges)
    ensures n in colour && (colour[n] == White || colour[n] == Black)
  {
  }

  lemma CycleRefutes(edges: seq<Edge>, p: seq<string>)
    requires IsSimpleCycle(edges, p)
    ensures !Acyclic(edges)
  {
  }

  lemma AllFinished(edges: seq<Edge>, adj: Adjacency, colour: Colours, rank: map<string, nat>, nodes: seq<string>)
    requires Searching(edges, adj, colour, [], [], rank)
    requires AllBlack(colour, nodes) && forall n :: n in nodes <==> n in Nodes(edges)
    ensures Acyclic(edges)
  {
    forall e | e in edges ensures e.src in rank && e.dst in rank && rank[e.dst] < rank[e.src] {
      assert e.src in Nodes(edges) && Edge(e.src, e.dst) == e;
      assert e.dst in ChildrenOf(adj, e.src);
    }
    RankedIsAcyclic(edges, rank);
  }
}
