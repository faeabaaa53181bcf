/**
 Calling the co-failure enrichment again and again: what piles up between two nodes, and when every pair
 keeps a single edge.
 */
module CofailHistory {
  import opened Harness
  import opened Options
  import opened Ordering
  import opened Flaky

  // ---- the edges between two nodes ----

  /** The edges from `f` to `t`, in the order they stand. */
  function Block(es: seq<CofailEdge>, f: string, t: string): seq<CofailEdge> {
    if es == [] then []
    else (if es[0].from == f && es[0].to == t then [es[0]] else []) + Block(es[1..], f, t)
  }

  lemma {:induction false} BlockConcat(a: seq<CofailEdge>, b: seq<CofailEdge>, f: string, t: string)
    ensures Block(a + b, f, t) == Block(a, f, t) + Block(b, f, t)
    decreases a
  {
    if a == [] {
      assert a + b == b;
    } else {
      BlockConcat(a[1..], b, f, t);
      assert (a + b)[0] == a[0] && (a + b)[1..] == a[1..] + b;
      var head := if a[0].from == f && a[0].to == t then [a[0]] else [];
      assert head + (Block(a[1..], f, t) + Block(b, f, t)) == head + Block(a[1..], f, t) + Block(b, f, t);
    }
  }

  lemma {:induction false} BlockMembers(es: seq<CofailEdge>, f: string, t: string, e: CofailEdge)
    ensures e in Block(es, f, t) <==> e in es && e.from == f && e.to == t
  {
    if es != [] {
      BlockMembers(es[1..], f, t, e);
      assert es == [es[0]] + es[1..];
    }
  }

  /** Sorting is stable: edges with the same ends keep their order. */
  lemma {:induction false} BlockOfInsert(e: CofailEdge, es: seq<CofailEdge>, f: string, t: string)
    ensures Block(InsertStable(EdgeBefore, e, es), f, t) == Block([e] + es, f, t)
    decreases es
  {
    hide StringLess;
    StringLessIsOrder();
    assert ([e] + es)[1..] == es;
    if es != [] && EdgeBefore(es[0], e) {
      BlockOfInsert(e, es[1..], f, t);
      assert ([es[0]] + InsertStable(EdgeBefore, e, es[1..]))[1..] == InsertStable(EdgeBefore, e, es[1..]);
      assert ([e] + es[1..])[1..] == es[1..];
    }
  }

  lemma {:induction false} BlockOfSort(es: seq<CofailEdge>, f: string, t: string)
    ensures Block(StableSort(EdgeBefore, es), f, t) == Block(es, f, t)
  {
    hide InsertStable, EdgeBefore;
    if es != [] {
      BlockOfSort(es[1..], f, t);
      var rest := StableSort(EdgeBefore, es[1..]);
      BlockOfInsert(es[0], rest, f, t);
      assert ([es[0]] + rest)[1..] == rest;
    }
  }

  /** In sorted edges a block has no gaps, so merging equal neighbours merges them within each block. */
  lemma {:induction false} BlockOfDedup(es: seq<CofailEdge>, f: string, t: string)
    requires Ordered(EdgeBefore, es)
    ensures Block(Dedup(es), f, t) == Dedup(Block(es, f, t))
  {
    hide EdgeBefore, Ordered;
    if |es| >= 2 {
      OrderedTail(es);
      BlockOfDedup(es[1..], f, t);
      var d, rest := Dedup(es[1..]), Block(es[1..], f, t);
      BlockOfCons(es[0], d, f, t);
      BlockOfCons(es[0], es[1..], f, t);
      assert es == [es[0]] + es[1..];
      DedupOfCons(es[0], rest);
      if es[0].from == f && es[0].to == t {
        if rest != [] { NextInBlock(es, f, t); } else { BlockMembers(es[1..], f, t, es[1]); }
      }
    } else if |es| == 1 {
      assert es[1..] == [];
    }
  }

  lemma BlockOfCons(e: CofailEdge, es: seq<CofailEdge>, f: string, t: string)
    ensures Block([e] + es, f, t) == if e.from == f && e.to == t then [e] + Block(es, f, t) else Block(es, f, t)
  {
    assert ([e] + es)[1..] == es;
    assert [] + Block(es, f, t) == Block(es, f, t);
  }

  lemma DedupOfCons(e: CofailEdge, es: seq<CofailEdge>)
    ensures Dedup([e] + es) == if es != [] && es[0] == e then Dedup(es) else [e] + Dedup(es)
  {
    assert ([e] + es)[1..] == es;
  }

  lemma OrderedTail(es: seq<CofailEdge>)
    requires Ordered(EdgeBefore, es) && es != []
    ensures Ordered(EdgeBefore, es[1..])
  {
    hide EdgeBefore;
  }

  /** The block goes on with the very next edge, or not at all. */
  lemma NextInBlock(es: seq<CofailEdge>, f: string, t: string)
    requires Ordered(EdgeBefore, es) && |es| >= 2 && es[0].from == f && es[0].to == t && Block(es[1..], f, t) != []
    ensures es[1].from == f && es[1].to == t && Block(es[1..], f, t)[0] == es[1]
  {
    hide StringLess;
    StringLessIsOrder();
    var e := Block(es[1..], f, t)[0];
    BlockMembers(es[1..], f, t, e);
    var k :| 0 <= k < |es| - 1 && es[1..][k] == e;
    assert es[k + 1] == e;
    assert !EdgeBefore(es[1], es[0]);
    assert k > 0 ==> !EdgeBefore(es[k + 1], es[1]);
  }

  // ---- merging equal neighbours ----

  /** No edge is followed by an equal one. */
  predicate NoneRepeated(es: seq<CofailEdge>) {
    forall i :: 0 <= i < |es| - 1 ==> es[i] != es[i + 1]
  }

  lemma {:induction false} DedupShape(es: seq<CofailEdge>)
    ensures NoneRepeated(Dedup(es))
    ensures (Dedup(es) == [] <==> es == []) && (es != [] ==> Dedup(es)[0] == es[0])
  {
    if |es| >= 2 {
      DedupShape(es[1..]);
    }
  }

  lemma {:induction false} DedupAbsorbs(a: seq<CofailEdge>, b: seq<CofailEdge>)
    ensures Dedup(Dedup(a) + b) == Dedup(a + b)
    decreases a
  {
    if |a| < 2 {
    } else {
      assert (a + b)[1..] == a[1..] + b && (a + b)[1] == a[1];
      DedupAbsorbs(a[1..], b);
      DedupShape(a[1..]);
      if a[0] != a[1] {
        var d := Dedup(a[1..]);
        assert ([a[0]] + d + b)[1..] == d + b && (d + b)[0] == a[1];
      }
    }
  }

  /** Some edge comes back after a different one. */
  ghost predicate Recurs(es: seq<CofailEdge>) {
    exists i, j, k :: 0 <= i < j < k < |es| && es[i] == es[k] && es[i] != es[j]
  }

  ghost predicate AllEqual(es: seq<CofailEdge>) {
    forall i, j :: 0 <= i < j < |es| ==> es[i] == es[j]
  }

  lemma {:induction false} DedupToOne(es: seq<CofailEdge>)
    ensures |Dedup(es)| <= 1 <==> AllEqual(es)
  {
    if |es| >= 2 {
      DedupToOne(es[1..]);
      DedupShape(es[1..]);
      EqualTail(es);
    }
  }

  lemma EqualTail(es: seq<CofailEdge>)
    requires |es| >= 2
    ensures AllEqual(es) <==> es[0] == es[1] && AllEqual(es[1..])
  {
    if es[0] == es[1] && AllEqual(es[1..]) {
      forall j | 0 < j < |es| ensures es[0] == es[j] {
        if j > 1 { assert es[1..][0] == es[1..][j - 1]; }
      }
      forall i, j | 0 <= i < j < |es| ensures es[i] == es[j] {
        assert es[0] == es[j] && (i > 0 ==> es[0] == es[i]);
      }
    }
    if AllEqual(es) {
      forall i, j | 0 <= i < j < |es[1..]| ensures es[1..][i] == es[1..][j] {
        assert es[i + 1] == es[j + 1];
      }
    }
  }

  /** What is left is free of repetitions unless some edge came back after a different one. */
  lemma {:induction false} DedupDistinct(es: seq<CofailEdge>)
    ensures Distinct(Dedup(es)) <==> !Recurs(es)
  {
    if |es| >= 2 {
      DedupDistinct(es[1..]);
      RecursTail(es);
      if es[0] != es[1] {
        var d := Dedup(es[1..]);
        DedupMembers(es[1..], es[0]);
        DistinctCons(es[0], d);
      }
    }
  }

  lemma DistinctCons(e: CofailEdge, d: seq<CofailEdge>)
    ensures Distinct([e] + d) <==> e !in d && Distinct(d)
  {
    var s := [e] + d;
    assert forall i :: 0 <= i < |d| ==> s[i + 1] == d[i];
    if e !in d && Distinct(d) {
      forall i, j | 0 <= i < j < |s| ensures s[i] != s[j] {
        assert s[j] == d[j - 1];
        if i > 0 { assert s[i] == d[i - 1]; }
      }
    }
    if Distinct(s) {
      forall i | 0 <= i < |d| ensures d[i] != e { assert s[0] != s[i + 1]; }
      forall i, j | 0 <= i < j < |d| ensures d[i] != d[j] { assert s[i + 1] != s[j + 1]; }
    }
  }

  lemma RecursAt(es: seq<CofailEdge>, i: nat, j: nat, k: nat)
    requires i < j < k < |es| && es[i] == es[k] && es[i] != es[j]
    ensures Recurs(es)
  {
  }

  lemma RecursTail(es: seq<CofailEdge>)
    requires |es| >= 2
    ensures Recurs(es) <==> Recurs(es[1..]) || (es[0] != es[1] && es[0] in es[1..])
  {
    hide Recurs;
    assert es == [es[0]] + es[1..];
    if Recurs(es[1..]) { RecursLater(es[0], es[1..]); }
    if es[0] != es[1] && es[0] in es[1..] {
      var k :| 0 <= k < |es| - 1 && es[1..][k] == es[0];
      RecursAt(es, 0, 1, k + 1);
    }
    if Recurs(es) { RecursFirst(es); }
  }

  lemma RecursLater(e: CofailEdge, r: seq<CofailEdge>)
    requires Recurs(r)
    ensures Recurs([e] + r)
  {
    var i, j, k :| 0 <= i < j < k < |r| && r[i] == r[k] && r[i] != r[j];
    hide Recurs;
    RecursAt([e] + r, i + 1, j + 1, k + 1);
  }

  lemma RecursFirst(es: seq<CofailEdge>)
    requires |es| >= 2 && Recurs(es)
    ensures Recurs(es[1..]) || (es[0] != es[1] && es[0] in es[1..])
  {
    var i, j, k :| 0 <= i < j < k < |es| && es[i] == es[k] && es[i] != es[j];
    hide Recurs;
    var r := es[1..];
    assert r[j - 1] == es[j] && r[k - 1] == es[k];
    if i > 0 {
      assert r[i - 1] == es[i];
      RecursAt(r, i - 1, j - 1, k - 1);
    } else if es[0] == es[1] {
      assert r[0] == es[1];
      RecursAt(r, 0, j - 1, k - 1);
    }
  }

  // ---- any number of calls ----

  /** The edges of a graph that starts with `start`, after calls that add these edges in turn. */
  function AfterCalls(start: seq<CofailEdge>, news: seq<seq<CofailEdge>>): seq<CofailEdge> {
    if news == [] then start else Merged(AfterCalls(start, news[..|news| - 1]), news[|news| - 1])
  }

  /** What the start and the calls have for one pair of nodes, one after another. */
  function Recorded(start: seq<CofailEdge>, news: seq<seq<CofailEdge>>, f: string, t: string): seq<CofailEdge> {
    if news == [] then Block(start, f, t)
    else Recorded(start, news[..|news| - 1], f, t) + Block(news[|news| - 1], f, t)
  }

  lemma BlockOfMerged(before: seq<CofailEdge>, es: seq<CofailEdge>, f: string, t: string)
    ensures Block(Merged(before, es), f, t) == Dedup(Block(before, f, t) + Block(es, f, t))
  {
    hide StableSort, EdgeBefore, Dedup, Block, WeakOrder;
    EdgeOrder();
    SortIsSorted(EdgeBefore, before + es);
    BlockOfDedup(StableSort(EdgeBefore, before + es), f, t);
    BlockOfSort(before + es, f, t);
    BlockConcat(before, es, f, t);
  }

  /** The edges of a pair are its history: what the calls recorded, with equal neighbours made one. */
  lemma {:induction false} PairHistory(start: seq<CofailEdge>, news: seq<seq<CofailEdge>>, f: string, t: string)
    requires news != []
    ensures Block(AfterCalls(start, news), f, t) == Dedup(Recorded(start, news, f, t))
    decreases |news|
  {
    hide Merged, Dedup, Block;
    var front, last := news[..|news| - 1], news[|news| - 1];
    BlockOfMerged(AfterCalls(start, front), last, f, t);
    if front != [] {
      PairHistory(start, front, f, t);
      DedupAbsorbs(Recorded(start, front, f, t), Block(last, f, t));
    }
  }

  lemma DifferentEndsByBlock(es: seq<CofailEdge>)
    ensures DifferentEnds(es) <==> forall f, t :: |Block(es, f, t)| <= 1
  {
    if DifferentEnds(es) {
      forall f, t ensures |Block(es, f, t)| <= 1 { OneInBlock(es, f, t); }
    } else {
      var i, j :| 0 <= i < j < |es| && es[i].from == es[j].from && es[i].to == es[j].to;
      TwoInBlock(es, i, j);
    }
  }

  lemma {:induction false} OneInBlock(es: seq<CofailEdge>, f: string, t: string)
    requires DifferentEnds(es)
    ensures |Block(es, f, t)| <= 1
  {
    if es != [] {
      DifferentTail(es);
      OneInBlock(es[1..], f, t);
      if es[0].from == f && es[0].to == t && Block(es[1..], f, t) != [] {
        var e := Block(es[1..], f, t)[0];
        BlockMembers(es[1..], f, t, e);
        NotLater(es, e);
      }
    }
  }

  lemma NotLater(es: seq<CofailEdge>, e: CofailEdge)
    requires DifferentEnds(es) && es != [] && e in es[1..]
    ensures es[0].from != e.from || es[0].to != e.to
  {
    var k :| 0 <= k < |es| - 1 && es[1..][k] == e;
    assert es[k + 1] == e;
  }

  lemma DifferentTail(es: seq<CofailEdge>)
    requires DifferentEnds(es) && es != []
    ensures DifferentEnds(es[1..])
  {
  }

  lemma TwoInBlock(es: seq<CofailEdge>, i: nat, j: nat)
    requires i < j < |es| && es[i].from == es[j].from && es[i].to == es[j].to
    ensures |Block(es, es[i].from, es[i].to)| >= 2
  {
    var f, t := es[i].from, es[i].to;
    assert es == es[..j] + es[j..];
    BlockConcat(es[..j], es[j..], f, t);
    assert es[..j][i] == es[i] && es[j..][0] == es[j];
    BlockMembers(es[..j], f, t, es[i]);
    BlockMembers(es[j..], f, t, es[j]);
  }

  lemma {:induction false} BlockCount(es: seq<CofailEdge>, e: CofailEdge)
    ensures multiset(Block(es, e.from, e.to))[e] == multiset(es)[e]
  {
    if es != [] {
      BlockCount(es[1..], e);
      assert es == [es[0]] + es[1..];
    }
  }

  lemma {:induction false} DistinctOnce(es: seq<CofailEdge>, e: CofailEdge)
    requires Distinct(es)
    ensures multiset(es)[e] <= 1
  {
    OnceInDistinct(es, e);
  }

  lemma OnceDistinct(es: seq<CofailEdge>)
    requires forall e :: multiset(es)[e] <= 1
    ensures Distinct(es)
  {
    forall i, j | 0 <= i < j < |es| ensures es[i] != es[j] {
      if es[i] == es[j] { TwiceInSequence(es, i, j); }
    }
  }

  lemma DistinctInBlock(es: seq<CofailEdge>, f: string, t: string)
    requires Distinct(es)
    ensures Distinct(Block(es, f, t))
  {
    hide Distinct;
    forall e ensures multiset(Block(es, f, t))[e] <= 1 {
      DistinctOnce(es, e);
      BlockMembers(es, f, t, e);
      BlockCount(es, e);
    }
    OnceDistinct(Block(es, f, t));
  }

  lemma DistinctBlocks(es: seq<CofailEdge>)
    requires forall f, t :: Distinct(Block(es, f, t))
    ensures Distinct(es)
  {
    hide Distinct;
    forall e ensures multiset(es)[e] <= 1 {
      BlockCount(es, e);
      DistinctOnce(Block(es, e.from, e.to), e);
    }
    OnceDistinct(es);
  }

  /** All that was ever recorded for a pair of nodes is one and the same edge. */
  ghost predicate Unanimous(start: seq<CofailEdge>, news: seq<seq<CofailEdge>>) {
    forall f, t :: AllEqual(Recorded(start, news, f, t))
  }

  /** No edge of a pair was recorded again after a different one. */
  ghost predicate Steady(start: seq<CofailEdge>, news: seq<seq<CofailEdge>>) {
    forall f, t :: !Recurs(Recorded(start, news, f, t))
  }

  /** Every pair of nodes keeps at most one edge exactly when the start and the calls agree on it. */
  lemma OneEdgePerPair(start: seq<CofailEdge>, news: seq<seq<CofailEdge>>)
    requires news != []
    ensures DifferentEnds(AfterCalls(start, news)) <==> Unanimous(start, news)
  {
    hide DifferentEnds, AllEqual, Dedup, Merged;
    var r := AfterCalls(start, news);
    DifferentEndsByBlock(r);
    if Unanimous(start, news) {
      forall f, t ensures |Block(r, f, t)| <= 1 {
        PairHistory(start, news, f, t);
        DedupToOne(Recorded(start, news, f, t));
      }
    }
    if DifferentEnds(r) {
      forall f, t ensures AllEqual(Recorded(start, news, f, t)) {
        PairHistory(start, news, f, t);
        DedupToOne(Recorded(start, news, f, t));
        assert |Block(r, f, t)| <= 1;
      }
    }
  }

  /** An edge stands twice exactly when for some pair of nodes it was recorded again after a different one. */
  lemma NoEdgeTwice(start: seq<CofailEdge>, news: seq<seq<CofailEdge>>)
    requires news != []
    ensures Distinct(AfterCalls(start, news)) <==> Steady(start, news)
  {
    hide Distinct, Recurs, Dedup, Merged;
    var r := AfterCalls(start, news);
    if Steady(start, news) {
      forall f, t ensures Distinct(Block(r, f, t)) {
        PairHistory(start, news, f, t);
        DedupDistinct(Recorded(start, news, f, t));
      }
      DistinctBlocks(r);
    }
    if Distinct(r) {
      forall f, t ensures !Recurs(Recorded(start, news, f, t)) {
        PairHistory(start, news, f, t);
        DedupDistinct(Recorded(start, news, f, t));
        DistinctInBlock(r, f, t);
      }
    }
  }

  // ---- in terms of what the runs of each call say ----

  /** The same files under the same ids, whatever else is written on the nodes. */
  ghost predicate SameFiles(nodes: seq<HarnessNode>, others: seq<HarnessNode>) {
    |nodes| == |others| && forall i :: 0 <= i < |nodes| ==> nodes[i].path == others[i].path && nodes[i].id == others[i].id
  }

  /** Calls on one set of files; coverage, clusters and scores may change between them. */
  ghost predicate Successive(calls: seq<Call>) {
    && (forall i :: 0 <= i < |calls| ==> calls[i].runs != [] && IsLog(calls[i].o.log2)
                                         && calls[i].after == ScoredNodes(calls[i].before, calls[i].runs, calls[i].o))
    && (forall i :: 0 < i < |calls| ==> SameFiles(calls[i].before, calls[i - 1].after))
  }

  lemma {:induction false} SameFilesSameIds(nodes: seq<HarnessNode>, others: seq<HarnessNode>)
    requires SameFiles(nodes, others)
    ensures IdMap(nodes) == IdMap(others)
    decreases |nodes|
  {
    if nodes != [] { SameFilesSameIds(nodes[..|nodes| - 1], others[..|others| - 1]); }
  }

  lemma ScoringKeepsFiles(nodes: seq<HarnessNode>, runs: seq<TestRun>, o: Settings)
    ensures SameFiles(ScoredNodes(nodes, runs, o), nodes)
  {
  }

  lemma {:induction false} SameIds(calls: seq<Call>, i: nat)
    requires Successive(calls) && i < |calls|
    ensures IdMap(calls[i].after) == IdMap(calls[0].after)
  {
    hide ScoredNodes, IdMap, IsLog, SameFiles;
    if i > 0 {
      SameIds(calls, i - 1);
      ScoringKeepsFiles(calls[i].before, calls[i].runs, calls[i].o);
      SameFilesSameIds(calls[i].after, calls[i].before);
      SameFilesSameIds(calls[i].before, calls[i - 1].after);
    }
  }

  /** The edges each call added. */
  ghost predicate AddedBy(calls: seq<Call>, news: seq<seq<CofailEdge>>) {
    && Successive(calls) && |news| == |calls| > 0 && IdsIdentify(calls[0].after)
    && forall i :: 0 <= i < |calls| ==> Emitted(calls[i], news[i])
  }

  /** What an edge says about its pair: the count, the written score and the mark. */
  ghost function Score(c: Call, a: string, b: string): Option<real>
    requires c.runs != []
  {
    match Ppmi(Joint(c.before, c.runs, a, b), FailRuns(c.runs, a), FailRuns(c.runs, b), |c.runs|, c.o.log2)
    case None => None
    case Some(x) => Some(c.o.round3(x))
  }

  ghost predicate Marked(c: Call, a: string, b: string) {
    Flake(FlakeMap(c.after), a) > c.o.threshold && Flake(FlakeMap(c.after), b) > c.o.threshold
  }

  ghost predicate SameRecord(c: Call, d: Call, a: string, b: string)
    requires c.runs != [] && d.runs != []
  {
    && Joint(c.before, c.runs, a, b) == Joint(d.before, d.runs, a, b)
    && Score(c, a, b) == Score(d, a, b) && (Marked(c, a, b) <==> Marked(d, a, b))
  }

  lemma SameRecordSameEdge(c: Call, d: Call, a: string, b: string)
    requires c.runs != [] && d.runs != [] && IdMap(c.after) == IdMap(d.after)
    requires PairEdge(c, a, b).Some? && PairEdge(d, a, b).Some?
    ensures PairEdge(c, a, b) == PairEdge(d, a, b) <==> SameRecord(c, d, a, b)
  {
    hide IdMap, FlakeMap, Joint, FailRuns, Ppmi, StringLess, Flake;
  }

  /** One call's edges: those of the gated pairs, no two with the same ends. */
  lemma EmittedEdges(c: Call, es: seq<CofailEdge>)
    requires c.runs != [] && IsLog(c.o.log2) && IdsIdentify(c.after) && Emitted(c, es)
    ensures DifferentEnds(es)
    ensures forall e :: e in es ==> exists a, b :: StringLess(a, b) && Gated(c, a, b) && PairEdge(c, a, b) == Some(e)
    ensures forall a, b :: StringLess(a, b) && Gated(c, a, b) ==> PairEdge(c, a, b).Some? && PairEdge(c, a, b).value in es
  {
    hide EdgesOf, StringLess, Gated, Between, IdsIdentify, IsLog, Joint, PairEdge, DifferentEnds, IsAscending, StrictOrder, PairLess;
    var ks: seq<(string, string)> :| JointPairs(c, ks) && es == EdgesOf(c, ks);
    AscendingIsDistinct(ks);
    EdgesOfDiffer(c, ks);
    forall e | e in es ensures exists a, b :: StringLess(a, b) && Gated(c, a, b) && PairEdge(c, a, b) == Some(e) {
      EdgesOfMembers(c, ks, e);
      var k :| k in ks && PairEdge(c, k.0, k.1) == Some(e);
      PairEdgeIfGated(c, k.0, k.1);
      assert StringLess(k.0, k.1) && Gated(c, k.0, k.1);
    }
    forall a, b | StringLess(a, b) && Gated(c, a, b) ensures PairEdge(c, a, b).Some? && PairEdge(c, a, b).value in es {
      GatedIsJoint(c, a, b);
      assert (a, b) in ks;
      PairEdgeIfGated(c, a, b);
      assert (a, b) in ks && PairEdge(c, (a, b).0, (a, b).1) == Some(PairEdge(c, a, b).value);
      EdgesOfMembers(c, ks, PairEdge(c, a, b).value);
    }
  }

  lemma EdgeHasEnds(c: Call, a: string, b: string)
    requires c.runs != [] && PairEdge(c, a, b).Some?
    ensures var ids, e := IdMap(c.after), PairEdge(c, a, b).value;
            && a in ids && b in ids
            && ((e.from == ids[a] && e.to == ids[b]) || (e.from == ids[b] && e.to == ids[a]))
  {
    hide IdMap, FlakeMap, Joint, FailRuns, Ppmi, StringLess, Flake;
  }

  /** The two ends tell the pair, whichever call put the edge there. */
  lemma SamePair(c: Call, d: Call, a: string, b: string, x: string, y: string)
    requires c.runs != [] && d.runs != [] && IdMap(c.after) == IdMap(d.after) && IdsIdentify(c.after)
    requires PairEdge(c, a, b).Some? && PairEdge(d, x, y).Some? && StringLess(a, b) && StringLess(x, y)
    requires PairEdge(c, a, b).value.from == PairEdge(d, x, y).value.from
    requires PairEdge(c, a, b).value.to == PairEdge(d, x, y).value.to
    ensures a == x && b == y
  {
    hide PairEdge, StringLess, IdMap;
    EdgeHasEnds(c, a, b);
    EdgeHasEnds(d, x, y);
    StringLessLaws(a, b, a);
  }

  /** The ends of an edge depend on the nodes alone. */
  lemma SameEnds(c: Call, d: Call, a: string, b: string)
    requires c.runs != [] && d.runs != [] && IdMap(c.after) == IdMap(d.after)
    requires PairEdge(c, a, b).Some? && PairEdge(d, a, b).Some?
    ensures PairEdge(c, a, b).value.from == PairEdge(d, a, b).value.from
    ensures PairEdge(c, a, b).value.to == PairEdge(d, a, b).value.to
  {
    hide IdMap, FlakeMap, Joint, FailRuns, Ppmi, StringLess, Flake;
  }

  /** What call `i` has for a pair of nodes: the edge of the one gated pair of tests there, or nothing. */
  lemma BlockOfCall(calls: seq<Call>, news: seq<seq<CofailEdge>>, i: nat, f: string, t: string)
    requires AddedBy(calls, news) && i < |calls|
    ensures IdsIdentify(calls[i].after) && |Block(news[i], f, t)| <= 1
    ensures forall e :: e in Block(news[i], f, t) ==>
              exists a, b :: StringLess(a, b) && Gated(calls[i], a, b) && PairEdge(calls[i], a, b) == Some(e)
  {
    hide StringLess, Gated, PairEdge, DifferentEnds, IdMap, Emitted, IsLog, ScoredNodes;
    SameIds(calls, i);
    EmittedEdges(calls[i], news[i]);
    OneInBlock(news[i], f, t);
    forall e | e in Block(news[i], f, t)
      ensures exists a, b :: StringLess(a, b) && Gated(calls[i], a, b) && PairEdge(calls[i], a, b) == Some(e)
    {
      BlockMembers(news[i], f, t, e);
    }
  }

  /** The edge of a pair gated in a call is what that call has for its ends. */
  lemma BlockOfPair(calls: seq<Call>, news: seq<seq<CofailEdge>>, i: nat, a: string, b: string)
    requires AddedBy(calls, news) && i < |calls| && StringLess(a, b) && Gated(calls[i], a, b)
    ensures PairEdge(calls[i], a, b).Some?
    ensures var e := PairEdge(calls[i], a, b).value; Block(news[i], e.from, e.to) == [e]
  {
    hide StringLess, Gated, PairEdge, DifferentEnds, IdMap, Emitted, IsLog, ScoredNodes, Block;
    SameIds(calls, i);
    EmittedEdges(calls[i], news[i]);
    var e := PairEdge(calls[i], a, b).value;
    BlockMembers(news[i], e.from, e.to, e);
    BlockOfCall(calls, news, i, e.from, e.to);
  }

  // ---- where the record of a call stands ----

  lemma {:induction false} RecordedPrefix(news: seq<seq<CofailEdge>>, i: nat, f: string, t: string)
    requires i < |news|
    ensures var r, p := Recorded([], news, f, t), |Recorded([], news[..i], f, t)|;
            p + |Block(news[i], f, t)| <= |r| && r[p..p + |Block(news[i], f, t)|] == Block(news[i], f, t)
    decreases |news|
  {
    hide Block;
    var front := news[..|news| - 1];
    if i < |front| {
      RecordedPrefix(front, i, f, t);
      assert front[..i] == news[..i];
      var p := |Recorded([], news[..i], f, t)|;
      var q := p + |Block(news[i], f, t)|;
      assert Recorded([], news, f, t)[p..q] == Recorded([], front, f, t)[p..q];
    }
  }

  lemma {:induction false} RecordedGrows(news: seq<seq<CofailEdge>>, i: nat, j: nat, f: string, t: string)
    requires i < j <= |news|
    ensures |Recorded([], news[..i], f, t)| + |Block(news[i], f, t)| <= |Recorded([], news[..j], f, t)|
    decreases j
  {
    hide Block;
    assert news[..j][..j - 1] == news[..j - 1];
    if i < j - 1 {
      RecordedGrows(news, i, j - 1, f, t);
    }
  }

  /** The call a record comes from. */
  lemma {:induction false} RecordedBy(news: seq<seq<CofailEdge>>, p: nat, f: string, t: string) returns (i: nat)
    requires p < |Recorded([], news, f, t)| && forall i :: 0 <= i < |news| ==> |Block(news[i], f, t)| <= 1
    ensures i < |news| && Block(news[i], f, t) == [Recorded([], news, f, t)[p]]
    ensures |Recorded([], news[..i], f, t)| == p
    decreases |news|
  {
    hide Block;
    assert Block([], f, t) == [] by { EmptyBlock(f, t); }
    var front := news[..|news| - 1];
    if p < |Recorded([], front, f, t)| {
      i := RecordedBy(front, p, f, t);
      assert front[..i] == news[..i];
    } else {
      i := |news| - 1;
    }
  }

  lemma EmptyBlock(f: string, t: string)
    ensures Block([], f, t) == []
  {
  }

  /** All calls that gate a pair say the same about it. */
  ghost predicate CallsAgree(calls: seq<Call>)
    requires Successive(calls)
  {
    forall i, j, a, b :: 0 <= i < j < |calls| && StringLess(a, b) && Gated(calls[i], a, b) && Gated(calls[j], a, b)
                         ==> SameRecord(calls[i], calls[j], a, b)
  }

  /** Three calls, in this order, gate a pair; the third says what the first said, the second something else. */
  ghost predicate AlternateAt(calls: seq<Call>, i: nat, j: nat, k: nat, a: string, b: string)
    requires Successive(calls)
  {
    && i < j < k < |calls| && StringLess(a, b)
    && Gated(calls[i], a, b) && Gated(calls[j], a, b) && Gated(calls[k], a, b)
    && SameRecord(calls[i], calls[k], a, b) && !SameRecord(calls[i], calls[j], a, b)
  }

  /** Some call says about a pair what an earlier one said, with a different one in between. */
  ghost predicate CallsAlternate(calls: seq<Call>)
    requires Successive(calls)
  {
    exists i, j, k, a, b :: AlternateAt(calls, i, j, k, a, b)
  }

  /** Two records of one pair of nodes belong to one pair of tests, and are equal exactly if the calls agree on it. */
  lemma RecordsOfOnePair(calls: seq<Call>, news: seq<seq<CofailEdge>>, i: nat, j: nat, x: CofailEdge, y: CofailEdge)
    returns (a: string, b: string)
    requires AddedBy(calls, news) && i < |calls| && j < |calls| && x.from == y.from && x.to == y.to
    requires x in Block(news[i], x.from, x.to) && y in Block(news[j], x.from, x.to)
    ensures StringLess(a, b) && Gated(calls[i], a, b) && Gated(calls[j], a, b)
    ensures PairEdge(calls[i], a, b) == Some(x) && PairEdge(calls[j], a, b) == Some(y)
    ensures x == y <==> SameRecord(calls[i], calls[j], a, b)
  {
    hide StringLess, Gated, PairEdge, IdMap, Emitted, IsLog, ScoredNodes, Block, SameRecord, IdsIdentify;
    BlockOfCall(calls, news, i, x.from, x.to);
    BlockOfCall(calls, news, j, x.from, x.to);
    a, b :| StringLess(a, b) && Gated(calls[i], a, b) && PairEdge(calls[i], a, b) == Some(x);
    var u, v :| StringLess(u, v) && Gated(calls[j], u, v) && PairEdge(calls[j], u, v) == Some(y);
    SameIds(calls, i);
    SameIds(calls, j);
    SamePair(calls[i], calls[j], a, b, u, v);
    SameRecordSameEdge(calls[i], calls[j], a, b);
  }

  /** The edges two calls have for a pair they both gate. */
  lemma GatedTwice(calls: seq<Call>, news: seq<seq<CofailEdge>>, i: nat, j: nat, a: string, b: string)
    returns (x: CofailEdge, y: CofailEdge)
    requires AddedBy(calls, news) && i < |calls| && j < |calls|
    requires StringLess(a, b) && Gated(calls[i], a, b) && Gated(calls[j], a, b)
    ensures PairEdge(calls[i], a, b) == Some(x) && PairEdge(calls[j], a, b) == Some(y) && x.from == y.from && x.to == y.to
    ensures Block(news[i], x.from, x.to) == [x] && Block(news[j], x.from, x.to) == [y]
    ensures x == y <==> SameRecord(calls[i], calls[j], a, b)
  {
    hide StringLess, Gated, PairEdge, IdMap, Emitted, IsLog, ScoredNodes, Block, SameRecord, IdsIdentify;
    BlockOfPair(calls, news, i, a, b);
    BlockOfPair(calls, news, j, a, b);
    x, y := PairEdge(calls[i], a, b).value, PairEdge(calls[j], a, b).value;
    SameIds(calls, i);
    SameIds(calls, j);
    SameEnds(calls[i], calls[j], a, b);
    SameRecordSameEdge(calls[i], calls[j], a, b);
  }

  lemma AgreementIsUnanimous(calls: seq<Call>, news: seq<seq<CofailEdge>>)
    requires AddedBy(calls, news) && CallsAgree(calls)
    ensures Unanimous([], news)
  {
    hide StringLess, Gated, PairEdge, Emitted, Block, SameRecord, Recorded, AddedBy, Successive;
    forall f, t, p, q | 0 <= p < q < |Recorded([], news, f, t)|
      ensures Recorded([], news, f, t)[p] == Recorded([], news, f, t)[q]
    {
      var i, j := TwoRecords(calls, news, f, t, p, q);
      var x, y := Recorded([], news, f, t)[p], Recorded([], news, f, t)[q];
      BlockEnds(news[i], f, t, x);
      BlockEnds(news[j], f, t, y);
      var a, b := RecordsOfOnePair(calls, news, i, j, x, y);
    }
  }

  lemma BlockEnds(es: seq<CofailEdge>, f: string, t: string, e: CofailEdge)
    requires Block(es, f, t) == [e]
    ensures e.from == f && e.to == t && e in Block(es, f, t)
  {
    BlockMembers(es, f, t, e);
  }

  /** Two records, one before the other, come from two calls in that order. */
  lemma TwoRecords(calls: seq<Call>, news: seq<seq<CofailEdge>>, f: string, t: string, p: nat, q: nat)
    returns (i: nat, j: nat)
    requires AddedBy(calls, news) && p < q < |Recorded([], news, f, t)|
    ensures Successive(calls) && i < j < |calls| == |news|
    ensures Block(news[i], f, t) == [Recorded([], news, f, t)[p]] && Block(news[j], f, t) == [Recorded([], news, f, t)[q]]
    ensures |Recorded([], news[..i], f, t)| == p && |Recorded([], news[..j], f, t)| == q
  {
    hide Block, Recorded, Emitted, Successive, IdsIdentify;
    forall i | 0 <= i < |news| ensures |Block(news[i], f, t)| <= 1 { BlockOfCall(calls, news, i, f, t); }
    i := RecordedBy(news, p, f, t);
    j := RecordedBy(news, q, f, t);
    if j < i { RecordedGrows(news, j, i, f, t); }
  }

  lemma UnanimousIsAgreement(calls: seq<Call>, news: seq<seq<CofailEdge>>)
    requires AddedBy(calls, news) && Unanimous([], news)
    ensures CallsAgree(calls)
  {
    hide StringLess, Gated, PairEdge, Emitted, Block, SameRecord, Recorded;
    forall i, j, a, b | 0 <= i < j < |calls| && StringLess(a, b) && Gated(calls[i], a, b) && Gated(calls[j], a, b)
      ensures SameRecord(calls[i], calls[j], a, b)
    {
      var x, y := GatedTwice(calls, news, i, j, a, b);
      var f, t := x.from, x.to;
      var p := RecordAt(news, i, f, t, x);
      var q := RecordAt(news, j, f, t, y);
      RecordedGrows(news, i, j, f, t);
      assert AllEqual(Recorded([], news, f, t));
    }
  }

  lemma RecordAt(news: seq<seq<CofailEdge>>, i: nat, f: string, t: string, e: CofailEdge) returns (p: nat)
    requires i < |news| && Block(news[i], f, t) == [e]
    ensures p == |Recorded([], news[..i], f, t)| < |Recorded([], news, f, t)| && Recorded([], news, f, t)[p] == e
  {
    hide Block, Recorded;
    RecordedPrefix(news, i, f, t);
    p := |Recorded([], news[..i], f, t)|;
    assert Recorded([], news, f, t)[p..p + 1][0] == e;
  }

  /**
   From a graph without such edges, any number of calls leave one edge per pair of nodes if and only if the
   calls that gate a pair all record the same count, score and mark for it.
   */
  lemma OneEdgePerGatedPair(calls: seq<Call>, news: seq<seq<CofailEdge>>)
    requires AddedBy(calls, news)
    ensures DifferentEnds(AfterCalls([], news)) <==> CallsAgree(calls)
  {
    hide CallsAgree, Unanimous, DifferentEnds, Emitted, Successive, IdsIdentify;
    OneEdgePerPair([], news);
    if CallsAgree(calls) { AgreementIsUnanimous(calls, news); }
    if Unanimous([], news) { UnanimousIsAgreement(calls, news); }
  }

  lemma AlternationRecurs(calls: seq<Call>, news: seq<seq<CofailEdge>>)
    requires AddedBy(calls, news) && CallsAlternate(calls)
    ensures !Steady([], news)
  {
    hide AlternateAt, Recurs, Steady, IdsIdentify, Emitted, Successive;
    var i, j, k, a, b :| AlternateAt(calls, i, j, k, a, b);
    var f, t := RecursOfThree(calls, news, i, j, k, a, b);
    NotSteady(news, f, t);
  }

  lemma NotSteady(news: seq<seq<CofailEdge>>, f: string, t: string)
    requires Recurs(Recorded([], news, f, t))
    ensures !Steady([], news)
  {
    hide Recurs;
  }

  lemma RecursOfThree(calls: seq<Call>, news: seq<seq<CofailEdge>>, i: nat, j: nat, k: nat, a: string, b: string)
    returns (f: string, t: string)
    requires AddedBy(calls, news) && AlternateAt(calls, i, j, k, a, b)
    ensures Recurs(Recorded([], news, f, t))
  {
    hide StringLess, Gated, PairEdge, Emitted, Block, SameRecord, Recorded, Recurs;
    var x, y := GatedTwice(calls, news, i, j, a, b);
    var x', z := GatedTwice(calls, news, i, k, a, b);
    f, t := x.from, x.to;
    var p := RecordAt(news, i, f, t, x);
    var q := RecordAt(news, j, f, t, y);
    var r := RecordAt(news, k, f, t, z);
    RecordedGrows(news, i, j, f, t);
    RecordedGrows(news, j, k, f, t);
    RecursAt(Recorded([], news, f, t), p, q, r);
  }

  lemma RecurrenceAlternates(calls: seq<Call>, news: seq<seq<CofailEdge>>)
    requires AddedBy(calls, news) && !Steady([], news)
    ensures CallsAlternate(calls)
  {
    hide StringLess, Gated, PairEdge, Emitted, Block, SameRecord, Recorded, AddedBy, Successive;
    var f, t :| Recurs(Recorded([], news, f, t));
    var rec := Recorded([], news, f, t);
    var p, q, r :| 0 <= p < q < r < |rec| && rec[p] == rec[r] && rec[p] != rec[q];
    var i, j := TwoRecords(calls, news, f, t, p, q);
    var i', k := TwoRecords(calls, news, f, t, p, r);
    var j', k' := TwoRecords(calls, news, f, t, q, r);
    SamePlace(calls, news, f, t, i, i', p);
    SamePlace(calls, news, f, t, j, j', q);
    SamePlace(calls, news, f, t, k, k', r);
    BlockEnds(news[i], f, t, rec[p]);
    BlockEnds(news[j], f, t, rec[q]);
    BlockEnds(news[k], f, t, rec[r]);
    var a, b := RecordsOfOnePair(calls, news, i, j, rec[p], rec[q]);
    var u, v := RecordsOfOnePair(calls, news, i, k, rec[p], rec[r]);
    SameTests(calls, news, i, a, b, u, v);
    assert AlternateAt(calls, i, j, k, a, b);
  }

  lemma SamePlace(calls: seq<Call>, news: seq<seq<CofailEdge>>, f: string, t: string, i: nat, i': nat, p: nat)
    requires AddedBy(calls, news) && i < |news| && i' < |news| && p < |Recorded([], news, f, t)|
    requires |Recorded([], news[..i], f, t)| == |Recorded([], news[..i'], f, t)| == p
    requires Block(news[i], f, t) == [Recorded([], news, f, t)[p]] == Block(news[i'], f, t)
    ensures i == i'
  {
    hide Block, Recorded, AddedBy;
    if i < i' { RecordedGrows(news, i, i', f, t); }
    if i' < i { RecordedGrows(news, i', i, f, t); }
  }

  lemma SameTests(calls: seq<Call>, news: seq<seq<CofailEdge>>, i: nat, a: string, b: string, u: string, v: string)
    requires AddedBy(calls, news) && i < |calls|
    requires PairEdge(calls[i], a, b).Some? && PairEdge(calls[i], a, b) == PairEdge(calls[i], u, v)
    requires StringLess(a, b) && StringLess(u, v)
    ensures a == u && b == v
  {
    hide PairEdge, StringLess, IdMap, IsLog, ScoredNodes;
    SameIds(calls, i);
    SamePair(calls[i], calls[i], a, b, u, v);
  }

  /** An edge stands twice if and only if the calls alternate on its pair. */
  lemma EdgeTwiceIfAlternating(calls: seq<Call>, news: seq<seq<CofailEdge>>)
    requires AddedBy(calls, news)
    ensures Distinct(AfterCalls([], news)) <==> !CallsAlternate(calls)
  {
    hide CallsAlternate, Steady, Distinct, Emitted, Successive, IdsIdentify;
    NoEdgeTwice([], news);
    if CallsAlternate(calls) { AlternationRecurs(calls, news); }
    if !Steady([], news) { RecurrenceAlternates(calls, news); }
  }

  // ---- the same runs again ----

  /** Sorted edges with the same edges between any two nodes are the same edges. */
  lemma {:induction false} SameBlocks(x: seq<CofailEdge>, y: seq<CofailEdge>)
    requires Ordered(EdgeBefore, x) && Ordered(EdgeBefore, y)
    requires forall f, t :: Block(x, f, t) == Block(y, f, t)
    ensures x == y
    decreases x
  {
    hide EdgeBefore, Ordered;
    if x == [] {
      forall f, t ensures Block(y, f, t) == [] { assert Block(x, f, t) == Block(y, f, t); }
      NoBlocksNoEdges(y);
    } else {
      assert Block(x, x[0].from, x[0].to) == Block(y, x[0].from, x[0].to);
      SameHeads(x, y);
      OrderedTail(x);
      OrderedTail(y);
      forall f, t ensures Block(x[1..], f, t) == Block(y[1..], f, t) {
        assert Block(x, f, t) == Block(y, f, t);
        BlockOfTail(x, f, t);
        BlockOfTail(y, f, t);
      }
      SameBlocks(x[1..], y[1..]);
      assert x == [x[0]] + x[1..] && y == [y[0]] + y[1..];
    }
  }

  lemma NoBlocksNoEdges(es: seq<CofailEdge>)
    requires forall f, t :: Block(es, f, t) == []
    ensures es == []
  {
    if es != [] { BlockMembers(es, es[0].from, es[0].to, es[0]); }
  }

  lemma BlockOfTail(x: seq<CofailEdge>, f: string, t: string)
    requires x != []
    ensures Block(x[1..], f, t) == if x[0].from == f && x[0].to == t then Block(x, f, t)[1..] else Block(x, f, t)
  {
    assert x == [x[0]] + x[1..];
    BlockOfCons(x[0], x[1..], f, t);
  }

  lemma SameHeads(x: seq<CofailEdge>, y: seq<CofailEdge>)
    requires x != [] && y != [] && Ordered(EdgeBefore, x) && Ordered(EdgeBefore, y)
    requires forall f, t :: Block(x, f, t) == Block(y, f, t)
    ensures x[0] == y[0]
  {
    var f, t := x[0].from, x[0].to;
    BlockMembers(x, f, t, x[0]);
    BlockMembers(y, f, t, x[0]);
    BlockMembers(y, y[0].from, y[0].to, y[0]);
    BlockMembers(x, y[0].from, y[0].to, y[0]);
    assert Block(x, f, t) == Block(y, f, t);
    assert Block(x, y[0].from, y[0].to) == Block(y, y[0].from, y[0].to);
    FirstIsLeast(x, y[0]);
    FirstIsLeast(y, x[0]);
    TiedEnds(x[0], y[0]);
    assert Block(x, f, t)[0] == x[0] && Block(y, f, t)[0] == y[0];
  }

  lemma FirstIsLeast(x: seq<CofailEdge>, e: CofailEdge)
    requires x != [] && Ordered(EdgeBefore, x) && e in x
    ensures !EdgeBefore(e, x[0])
  {
    hide StringLess;
    StringLessIsOrder();
  }

  lemma TiedEnds(e: CofailEdge, d: CofailEdge)
    requires !EdgeBefore(e, d) && !EdgeBefore(d, e)
    ensures e.from == d.from && e.to == d.to
  {
    hide StringLess;
    StringLessIsOrder();
  }

  lemma {:induction false} DedupOrdered(es: seq<CofailEdge>)
    requires Ordered(EdgeBefore, es)
    ensures Ordered(EdgeBefore, Dedup(es))
  {
    hide EdgeBefore;
    if |es| >= 2 {
      OrderedTail(es);
      DedupOrdered(es[1..]);
      if es[0] != es[1] {
        var d := Dedup(es[1..]);
        forall j | 0 < j < |d| + 1 ensures !EdgeBefore(([es[0]] + d)[j], es[0]) {
          DedupMembers(es[1..], d[j - 1]);
          assert d[j - 1] in es[1..];
        }
      }
    }
  }

  lemma MergedIsOrdered(before: seq<CofailEdge>, es: seq<CofailEdge>)
    ensures Ordered(EdgeBefore, Merged(before, es))
  {
    hide EdgeBefore, Ordered, WeakOrder, StableSort, Dedup;
    EdgeOrder();
    SortIsSorted(EdgeBefore, before + es);
    DedupOrdered(StableSort(EdgeBefore, before + es));
  }

  /** Edges with different ends, put in twice, are there as if put in once. */
  lemma MergedTwice(before: seq<CofailEdge>, es: seq<CofailEdge>)
    requires DifferentEnds(es)
    ensures Merged(Merged(before, es), es) == Merged(before, es)
  {
    hide Merged, DifferentEnds, Ordered, EdgeBefore;
    var once := Merged(before, es);
    MergedIsOrdered(before, es);
    MergedIsOrdered(once, es);
    forall f, t ensures Block(Merged(once, es), f, t) == Block(once, f, t) {
      BlockOfMerged(before, es, f, t);
      BlockOfMerged(once, es, f, t);
      OneInBlock(es, f, t);
      DedupAgain(Block(before, f, t), Block(es, f, t));
    }
    SameBlocks(Merged(once, es), once);
  }

  lemma DedupAgain(a: seq<CofailEdge>, b: seq<CofailEdge>)
    requires |b| <= 1
    ensures Dedup(Dedup(a + b) + b) == Dedup(a + b)
  {
    DedupAbsorbs(a + b, b);
    if |b| == 1 {
      assert a + b + b == a + [b[0], b[0]] && a + b == a + [b[0]];
      DedupPair(a, b[0]);
    } else {
      assert a + b + b == a + b;
    }
  }

  lemma {:induction false} DedupPair(a: seq<CofailEdge>, e: CofailEdge)
    ensures Dedup(a + [e, e]) == Dedup(a + [e])
    decreases a
  {
    if a == [] {
      assert [] + [e, e] == [e, e] && [] + [e] == [e] && [e, e][1..] == [e];
    } else {
      DedupPair(a[1..], e);
      assert a + [e, e] == [a[0]] + (a[1..] + [e, e]) && a + [e] == [a[0]] + (a[1..] + [e]);
      DedupOfCons(a[0], a[1..] + [e, e]);
      DedupOfCons(a[0], a[1..] + [e]);
    }
  }

  /** Scoring does not touch the coverage the filter looks at. */
  lemma {:induction false} FilterSeesSame(nodes: seq<HarnessNode>, runs: seq<TestRun>, o: Settings, t: string)
    ensures var a, b := FirstNode(ScoredNodes(nodes, runs, o), t), FirstNode(nodes, t);
      (a.Some? <==> b.Some?) && (a.Some? ==> a.value.coverage == b.value.coverage)
  {
    hide Scored;
    if nodes != [] {
      FilterSeesSame(nodes[1..], runs, o, t);
      assert ScoredNodes(nodes, runs, o)[1..] == ScoredNodes(nodes[1..], runs, o);
      ScoredKeeps(nodes[0], SeenRuns(runs, nodes[0].path), FailRuns(runs, nodes[0].path), o, |runs|);
    }
  }

  lemma ScoredKeeps(n: HarnessNode, seen: nat, fails: nat, o: Settings, nRuns: nat)
    ensures var m := Scored(n, seen, fails, o, nRuns);
      m.path == n.path && m.coverage == n.coverage && Scored(m, seen, fails, o, nRuns) == m
  {
  }

  lemma {:induction false} JointStays(nodes: seq<HarnessNode>, all: seq<TestRun>, o: Settings, runs: seq<TestRun>, a: string, b: string)
    ensures Joint(ScoredNodes(nodes, all, o), runs, a, b) == Joint(nodes, runs, a, b)
    decreases |runs|
  {
    hide ScoredNodes, FirstNode;
    if runs != [] {
      JointStays(nodes, all, o, runs[..|runs| - 1], a, b);
      FilterSeesSame(nodes, all, o, a);
      FilterSeesSame(nodes, all, o, b);
    }
  }

  lemma ScoredTwice(nodes: seq<HarnessNode>, runs: seq<TestRun>, o: Settings)
    ensures ScoredNodes(ScoredNodes(nodes, runs, o), runs, o) == ScoredNodes(nodes, runs, o)
  {
    hide Scored;
    var once := ScoredNodes(nodes, runs, o);
    forall i | 0 <= i < |nodes| ensures ScoredNodes(once, runs, o)[i] == once[i] {
      var n := nodes[i];
      ScoredKeeps(n, SeenRuns(runs, n.path), FailRuns(runs, n.path), o, |runs|);
    }
  }

  lemma {:induction false} SameEdges(c: Call, d: Call, ks: seq<(string, string)>)
    requires c.runs != [] && d.runs == c.runs && d.after == c.after && d.o == c.o
    requires forall a, b :: Joint(d.before, c.runs, a, b) == Joint(c.before, c.runs, a, b)
    ensures EdgesOf(c, ks) == EdgesOf(d, ks)
  {
    hide EdgeFor, Joint;
    if ks != [] { SameEdges(c, d, ks[..|ks| - 1]); }
  }

  lemma EmittedOnce(c: Call, d: Call, es: seq<CofailEdge>, ds: seq<CofailEdge>)
    requires c.runs != [] && d.runs == c.runs && d.after == c.after && d.o == c.o
    requires forall a, b :: Joint(d.before, c.runs, a, b) == Joint(c.before, c.runs, a, b)
    requires Emitted(c, es) && Emitted(d, ds)
    ensures es == ds
  {
    hide EdgesOf, Joint, PairLess, StrictOrder, IsAscending, StringLess;
    var ks: seq<(string, string)> :| JointPairs(c, ks) && es == EdgesOf(c, ks);
    var ls: seq<(string, string)> :| JointPairs(d, ls) && ds == EdgesOf(d, ls);
    SameAscending(ks, ls);
    SameEdges(c, d, ks);
  }

  lemma SameAscending(ks: seq<(string, string)>, ls: seq<(string, string)>)
    requires StrictOrder(PairLess) && IsAscending(PairLess, ks) && IsAscending(PairLess, ls)
    requires forall k :: k in ks <==> k in ls
    ensures ks == ls
  {
    hide PairLess, StrictOrder, IsAscending;
    var s := set k | k in ks;
    AscendingUnique(PairLess, s, ks);
    AscendingUnique(PairLess, s, ls);
  }

  /** A second call with the same runs and settings changes neither a node nor an edge. */
  lemma SameCallIsIdle(nodes: seq<HarnessNode>, cofail: seq<CofailEdge>, runs: seq<TestRun>, o: Settings,
                       es: seq<CofailEdge>, again: seq<CofailEdge>)
    requires runs != [] && IsLog(o.log2)
    requires var c := CallOn(nodes, runs, o); IdsIdentify(c.after) && Emitted(c, es) && Emitted(CallOn(c.after, runs, o), again)
    ensures var after := ScoredNodes(nodes, runs, o); ScoredNodes(after, runs, o) == after
    ensures Merged(Merged(cofail, es), again) == Merged(cofail, es)
  {
    hide ScoredNodes, IsLog, IdsIdentify, Emitted, Merged, DifferentEnds;
    var c := CallOn(nodes, runs, o);
    var d := CallOn(c.after, runs, o);
    ScoredTwice(nodes, runs, o);
    forall a, b ensures Joint(d.before, runs, a, b) == Joint(c.before, runs, a, b) {
      JointStays(nodes, runs, o, runs, a, b);
    }
    EmittedOnce(c, d, es, again);
    EmittedEdges(c, es);
    MergedTwice(cofail, es);
  }

  /** A run listed once more in the same call counts once more: nothing looks at what run it is. */
  lemma RunListedAgain(nodes: seq<HarnessNode>, runs: seq<TestRun>, run: TestRun)
    requires run in runs
    ensures |runs + [run]| == |runs| + 1
    ensures forall t :: SeenRuns(runs + [run], t) == SeenRuns(runs, t) + if t in run.outcomes then 1 else 0
    ensures forall t :: FailRuns(runs + [run], t) == FailRuns(runs, t) + if t in Fails(run) then 1 else 0
    ensures forall a, b ::
              Joint(nodes, runs + [run], a, b)
              == Joint(nodes, runs, a, b) + if a in Genuine(nodes, run) && b in Genuine(nodes, run) then 1 else 0
    ensures (forall t :: SeenRuns(runs + [run], t) == SeenRuns(runs, t)) <==> run.outcomes.Keys == {}
  {
    hide SeenRuns, FailRuns, Joint, Genuine, Fails;
    CountedNext(nodes, runs, run);
    if t :| t in run.outcomes.Keys { assert SeenRuns(runs + [run], t) == SeenRuns(runs, t) + 1; }
  }

  // ---- three calls that pile up ----

  const TESTS: seq<HarnessNode> := [HarnessNode("a", "a", None, None, None), HarnessNode("b", "b", None, None, None)]
  const BOTH_FAIL: TestRun := TestRun(map["a" := Fail, "b" := Fail], [])
  const BOTH_PASS: TestRun := TestRun(map["a" := Pass, "b" := Pass], [])
  const FEW: seq<TestRun> := [BOTH_FAIL, BOTH_PASS]
  const MORE: seq<TestRun> := [BOTH_FAIL, BOTH_FAIL, BOTH_PASS]

  /** A call on nodes already given, with the scores it writes. */
  ghost function CallOn(nodes: seq<HarnessNode>, runs: seq<TestRun>, o: Settings): Call {
    Call(nodes, ScoredNodes(nodes, runs, o), runs, o)
  }

  lemma OutcomesOfBoth(nodes: seq<HarnessNode>)
    ensures Genuine(nodes, BOTH_FAIL) == Fails(BOTH_FAIL) == {"a", "b"}
    ensures Genuine(nodes, BOTH_PASS) == Fails(BOTH_PASS) == {}
    ensures BOTH_FAIL.outcomes.Keys == BOTH_PASS.outcomes.Keys == {"a", "b"}
  {
  }

  ghost predicate CountsOf(nodes: seq<HarnessNode>, runs: seq<TestRun>, k: nat) {
    && (forall x, y :: Joint(nodes, runs, x, y) == if x in {"a", "b"} && y in {"a", "b"} then k else 0)
    && (forall x :: x in {"a", "b"} ==> FailRuns(runs, x) == k && SeenRuns(runs, x) == |runs|)
  }

  lemma OneMoreOfBoth(nodes: seq<HarnessNode>, runs: seq<TestRun>, k: nat)
    requires CountsOf(nodes, runs, k)
    ensures CountsOf(nodes, runs + [BOTH_FAIL], k + 1) && CountsOf(nodes, runs + [BOTH_PASS], k)
  {
    hide Genuine, Fails, Joint, FailRuns, SeenRuns;
    OutcomesOfBoth(nodes);
    CountedNext(nodes, runs, BOTH_FAIL);
    CountedNext(nodes, runs, BOTH_PASS);
  }

  lemma CountedNext(nodes: seq<HarnessNode>, runs: seq<TestRun>, run: TestRun)
    ensures forall t :: SeenRuns(runs + [run], t) == SeenRuns(runs, t) + if t in run.outcomes.Keys then 1 else 0
    ensures forall t :: FailRuns(runs + [run], t) == FailRuns(runs, t) + if t in Fails(run) then 1 else 0
    ensures forall a, b ::
              Joint(nodes, runs + [run], a, b)
              == Joint(nodes, runs, a, b) + if a in Genuine(nodes, run) && b in Genuine(nodes, run) then 1 else 0
  {
    hide Genuine, Fails;
    assert (runs + [run])[..|runs|] == runs;
  }

  lemma CountsOfBoth(nodes: seq<HarnessNode>)
    ensures CountsOf(nodes, FEW, 1) && CountsOf(nodes, MORE, 2)
  {
    hide CountsOf;
    assert CountsOf(nodes, [], 0) by { NothingCounted(nodes); }
    OneMoreOfBoth(nodes, [], 0);
    assert [] + [BOTH_FAIL] == [BOTH_FAIL];
    OneMoreOfBoth(nodes, [BOTH_FAIL], 1);
    assert [BOTH_FAIL] + [BOTH_PASS] == FEW;
    OneMoreOfBoth(nodes, [BOTH_FAIL] + [BOTH_FAIL], 2);
    assert [BOTH_FAIL] + [BOTH_FAIL] + [BOTH_PASS] == MORE;
  }

  lemma NothingCounted(nodes: seq<HarnessNode>)
    ensures CountsOf(nodes, [], 0)
  {
  }

  /** Two nodes with these paths, whatever was written on them. */
  ghost predicate TwoTests(nodes: seq<HarnessNode>) {
    |nodes| == 2 && nodes[0].id == nodes[0].path == "a" && nodes[1].id == nodes[1].path == "b"
  }

  lemma MapsOfTwo(nodes: seq<HarnessNode>)
    requires TwoTests(nodes)
    ensures IdMap(nodes) == map["a" := "a", "b" := "b"]
    ensures nodes[0].flakiness.Some? && nodes[1].flakiness.Some? ==>
              FlakeMap(nodes) == map["a" := nodes[0].flakiness.value, "b" := nodes[1].flakiness.value]
  {
    assert nodes[..1] == [nodes[0]] && nodes[..1][..0] == [];
    assert "a"[0] != "b"[0];
    assert IdMap([]) == map[] && FlakeMap([]) == map[];
    assert IdMap(nodes[..1]) == map["a" := "a"];
    assert nodes[0].flakiness.Some? ==> FlakeMap(nodes[..1]) == map["a" := nodes[0].flakiness.value];
  }

  /** The edge a call on the two tests adds. */
  lemma EdgeOfTwo(nodes: seq<HarnessNode>, runs: seq<TestRun>, k: nat, o: Settings) returns (e: CofailEdge)
    requires TwoTests(nodes) && IsLog(o.log2) && o.minCoFail <= 1 && o.minRuns <= |runs|
    requires 1 <= k < |runs| && CountsOf(nodes, runs, k)
    ensures var c := CallOn(nodes, runs, o);
            && TwoTests(c.after) && Emitted(c, [e]) && PairEdge(c, "a", "b") == Some(e)
    ensures e.from == "a" && e.to == "b" && e.jointFailures == k
    ensures Ppmi(k, k, k, |runs|, o.log2).Some?
    ensures e == CofailEdge("a", "b", "a", "b", k, o.round3(Ppmi(k, k, k, |runs|, o.log2).value),
                            o.round4(k as real / |runs| as real) > o.threshold)
  {
    hide Ppmi, Joint, FailRuns, SeenRuns, IsLog;
    var c := CallOn(nodes, runs, o);
    assert "a" in {"a", "b"} && "b" in {"a", "b"};
    MapsOfTwo(c.after);
    GateByCounts(k, k, k, |runs|, o.log2);
    assert k * |runs| > k * k by { LessTimes(k, |runs|); }
    assert StringLess("a", "b");
    e := PairEdge(c, "a", "b").value;
    OnlyPair(c, k);
    OnePairEdge(c, e);
  }

  lemma LessTimes(k: nat, n: nat)
    requires 1 <= k < n
    ensures k * n > k * k
  {
  }

  lemma OnlyPair(c: Call, k: nat)
    requires CountsOf(c.before, c.runs, k) && k > 0
    ensures JointPairs(c, [("a", "b")])
  {
    hide Joint;
    PairOrder();
    var ks := [("a", "b")];
    forall p: (string, string) ensures p in ks <==> StringLess(p.0, p.1) && Joint(c.before, c.runs, p.0, p.1) > 0 {
      assert p in ks <==> p == ("a", "b");
      assert StringLess("a", "b") && !StringLess("b", "a") && !StringLess("a", "a") && !StringLess("b", "b");
    }
  }

  lemma OnePairEdge(c: Call, e: CofailEdge)
    requires c.runs != [] && JointPairs(c, [("a", "b")]) && PairEdge(c, "a", "b") == Some(e)
    ensures Emitted(c, [e])
  {
    hide PairEdge, JointPairs;
    var ks := [("a", "b")];
    assert ks[..0] == [] && EdgesOf(c, []) == [];
    assert EdgesOf(c, ks) == [] + [e];
  }

  /**
   Two runs, then three, then the same two again: the second call leaves two edges between the tests, and
   the third a repetition of the first edge.
   */
  lemma CallsPileUp(o: Settings) returns (e1: CofailEdge, e2: CofailEdge)
    requires IsLog(o.log2) && o.minCoFail <= 1 && o.minRuns <= 2
    ensures var c1 := CallOn(TESTS, FEW, o); var c2 := CallOn(c1.after, MORE, o); var c3 := CallOn(c2.after, FEW, o);
            && Emitted(c1, [e1]) && Emitted(c2, [e2]) && Emitted(c3, [e1])
    ensures e1.from == e2.from && e1.to == e2.to && e1.jointFailures == 1 && e2.jointFailures == 2
    ensures Merged([], [e1]) == [e1] && Merged([e1], [e2]) == [e1, e2] && Merged([e1, e2], [e1]) == [e1, e2, e1]
  {
    hide Emitted, Merged, CountsOf, PairEdge, IsLog, ScoredNodes;
    var c1 := CallOn(TESTS, FEW, o);
    var c2 := CallOn(c1.after, MORE, o);
    CountsOfBoth(TESTS);
    CountsOfBoth(c1.after);
    CountsOfBoth(c2.after);
    e1 := EdgeOfTwo(TESTS, FEW, 1, o);
    e2 := EdgeOfTwo(c1.after, MORE, 2, o);
    var e3 := EdgeOfTwo(c2.after, FEW, 1, o);
    MergedTies([], e1);
    MergedTies([e1], e2);
    MergedTies([e1, e2], e1);
    assert [] + [e1] == [e1] && [e1] + [e2] == [e1, e2] && [e1, e2] + [e1] == [e1, e2, e1];
  }

  /** Between edges with the same ends a different one goes last. */
  lemma MergedTies(es: seq<CofailEdge>, e: CofailEdge)
    requires NoneRepeated(es + [e]) && forall x :: x in es ==> x.from == e.from && x.to == e.to
    ensures Merged(es, [e]) == es + [e]
  {
    var all := es + [e];
    forall i, j | 0 <= i < j < |all| ensures !EdgeBefore(all[j], all[i]) {
      assert i < |es| ==> all[i] in es;
      assert j < |es| ==> all[j] in es;
      StringLessLaws(e.from, e.from, e.from);
      StringLessLaws(e.to, e.to, e.to);
    }
    SortKeepsSorted(EdgeBefore, all);
    DedupKeepsDistinct(all);
  }
}
