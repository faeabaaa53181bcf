/**
 Community detection on the combined harness-edge graph: the composite adjacency and the
 greedy modularity maximisation of Louvain's first phase. Weights are exact reals.
 */
module Cluster {
  import opened Harness

  type AdjMap = map<string, map<string, real>>

  datatype EdgeMix = EdgeMix(alphaCov: real, alphaFail: real, alphaMod: real, alphaDirect: real)

  /** One undirected contribution to the composite graph, before it is accepted. */
  datatype Link = Link(from: string, to: string, w: real)

  /** The four tables in the order they are read; `saturate` stands for `x => 1 - exp(-x)`. */
  function DirectLink(e: DirectEdge, mix: EdgeMix): Link {
    Link(e.from, e.to, mix.alphaDirect)
  }

  function ComodLink(e: ComodEdge, mix: EdgeMix, saturate: real -> real): Link {
    Link(e.from, e.to, saturate(e.ppmi) * mix.alphaMod)
  }

  function CovLink(e: CovEdge, mix: EdgeMix): Link {
    Link(e.from, e.to, e.jaccard * mix.alphaCov)
  }

  function CofailLink(e: CofailEdge, mix: EdgeMix, saturate: real -> real): Link {
    Link(e.from, e.to, saturate(e.ppmi) * mix.alphaFail * (if e.flakinessDampened then 0.5 else 1.0))
  }

  function DirectLinks(g: HarnessEdges, mix: EdgeMix): seq<Link> {
    seq(|g.edges|, i requires 0 <= i < |g.edges| => DirectLink(g.edges[i], mix))
  }

  function ComodLinks(g: HarnessEdges, mix: EdgeMix, saturate: real -> real): seq<Link> {
    seq(|g.comod|, i requires 0 <= i < |g.comod| => ComodLink(g.comod[i], mix, saturate))
  }

  function CovLinks(g: HarnessEdges, mix: EdgeMix): seq<Link> {
    seq(|g.cov|, i requires 0 <= i < |g.cov| => CovLink(g.cov[i], mix))
  }

  function CofailLinks(g: HarnessEdges, mix: EdgeMix, saturate: real -> real): seq<Link> {
    seq(|g.cofail|, i requires 0 <= i < |g.cofail| => CofailLink(g.cofail[i], mix, saturate))
  }

  ghost function Links(g: HarnessEdges, mix: EdgeMix, saturate: real -> real): seq<Link> {
    DirectLinks(g, mix) + ComodLinks(g, mix, saturate) + CovLinks(g, mix) + CofailLinks(g, mix, saturate)
  }

  // ---- the composite adjacency ----

  predicate Adjacent(adj: AdjMap, a: string, b: string) {
    a in adj && b in adj[a]
  }

  function Weight(adj: AdjMap, a: string, b: string): real {
    if Adjacent(adj, a, b) then adj[a][b] else 0.0
  }

  /** Symmetric, without self loops, with positive weights and no isolated entry. */
  ghost predicate WellFormed(adj: AdjMap) {
    && (forall a, b :: Adjacent(adj, a, b) ==> a != b && Adjacent(adj, b, a))
    && (forall a, b :: Adjacent(adj, a, b) ==> Weight(adj, a, b) == Weight(adj, b, a) > 0.0)
    && (forall a {:trigger adj[a]} :: a in adj ==> |adj[a]| > 0)
  }

  ghost predicate Joins(e: Link, a: string, b: string) {
    e.w > 0.0 && e.from != e.to && ((e.from == a && e.to == b) || (e.from == b && e.to == a))
  }

  /** All the accepted weight that the links put between `a` and `b`. */
  ghost function LinkTotal(links: seq<Link>, a: string, b: string): real {
    if links == [] then 0.0
    else
      var e := links[|links| - 1];
      LinkTotal(links[..|links| - 1], a, b) + if Joins(e, a, b) then e.w else 0.0
  }

  ghost predicate Represents(adj: AdjMap, links: seq<Link>) {
    WellFormed(adj) && forall a, b {:trigger Weight(adj, a, b)} :: Weight(adj, a, b) == LinkTotal(links, a, b)
  }

  /** One direction of an accepted link. */
  method AddHalf(adj: AdjMap, a: string, b: string, w: real) returns (r: AdjMap)
    requires forall x {:trigger adj[x]} :: x in adj ==> |adj[x]| > 0
    ensures forall x {:trigger r[x]} :: x in r ==> |r[x]| > 0
    ensures forall x, y :: Adjacent(r, x, y) <==> Adjacent(adj, x, y) || (x == a && y == b)
    ensures forall x, y :: Weight(r, x, y) == Weight(adj, x, y) + if x == a && y == b then w else 0.0
  {
    var row := if a in adj then adj[a] else map[];
    var old' := if b in row then row[b] else 0.0;
    r := adj[a := row[b := old' + w]];
  }

  method Add(adj: AdjMap, e: Link) returns (r: AdjMap)
    requires WellFormed(adj)
    ensures WellFormed(r)
    ensures forall x, y :: Weight(r, x, y) == Weight(adj, x, y) + if Joins(e, x, y) then e.w else 0.0
  {
    if e.w <= 0.0 || e.from == e.to {
      return adj;
    }
    var half := AddHalf(adj, e.from, e.to, e.w);
    r := AddHalf(half, e.to, e.from, e.w);
    AddKeepsForm(adj, r, e);
  }

  lemma AddKeepsForm(adj: AdjMap, r: AdjMap, e: Link)
    requires WellFormed(adj) && e.w > 0.0 && e.from != e.to
    requires forall x :: x in r ==> |r[x]| > 0
    requires forall x, y :: Adjacent(r, x, y) <==> (Adjacent(adj, x, y) || Joins(e, x, y))
    requires forall x, y :: Weight(r, x, y) == Weight(adj, x, y) + if Joins(e, x, y) then e.w else 0.0
    ensures WellFormed(r)
  {
  }

  lemma RepresentsMore(adj: AdjMap, links: seq<Link>, r: AdjMap, e: Link)
    requires Represents(adj, links) && WellFormed(r)
    requires forall x, y :: Weight(r, x, y) == Weight(adj, x, y) + if Joins(e, x, y) then e.w else 0.0
    ensures Represents(r, links + [e])
  {
    assert (links + [e])[..|links|] == links;
  }

  method AddAll(adj: AdjMap, links: seq<Link>, ghost before: seq<Link>) returns (r: AdjMap)
    requires Represents(adj, before)
    ensures Represents(r, before + links)
  {
    r := adj;
    assert before + links[..0] == before;
    for i := 0 to |links|
      invariant Represents(r, before + links[..i])
    {
      var more := Add(r, links[i]);
      RepresentsMore(r, before + links[..i], more, links[i]);
      r := more;
      assert before + links[..i + 1] == before + links[..i] + [links[i]];
    }
    assert links[..|links|] == links;
  }

  // ---- what each table adds, read off the table itself ----

  predicate AreEnds(from: string, to: string, a: string, b: string) {
    from != to && ((from == a && to == b) || (from == b && to == a))
  }

  /** Only a positive score counts. */
  function Part(x: real): real {
    if x > 0.0 then x else 0.0
  }

  ghost function DirectCount(es: seq<DirectEdge>, a: string, b: string): nat {
    if es == [] then 0
    else
      var e := es[|es| - 1];
      DirectCount(es[..|es| - 1], a, b) + if AreEnds(e.from, e.to, a, b) then 1 else 0
  }

  ghost function ComodScore(es: seq<ComodEdge>, saturate: real -> real, a: string, b: string): real {
    if es == [] then 0.0
    else
      var e := es[|es| - 1];
      ComodScore(es[..|es| - 1], saturate, a, b) + if AreEnds(e.from, e.to, a, b) then Part(saturate(e.ppmi)) else 0.0
  }

  ghost function CovScore(es: seq<CovEdge>, a: string, b: string): real {
    if es == [] then 0.0
    else
      var e := es[|es| - 1];
      CovScore(es[..|es| - 1], a, b) + if AreEnds(e.from, e.to, a, b) then Part(e.jaccard) else 0.0
  }

  /** The co-failures that carry the mark, or those that do not. */
  ghost function CofailScore(es: seq<CofailEdge>, saturate: real -> real, marked: bool, a: string, b: string): real {
    if es == [] then 0.0
    else
      var e := es[|es| - 1];
      CofailScore(es[..|es| - 1], saturate, marked, a, b)
      + if e.flakinessDampened == marked && AreEnds(e.from, e.to, a, b) then Part(saturate(e.ppmi)) else 0.0
  }

  /** What the co-failures of a pair weigh before the mix: a marked one half of its score. */
  ghost function CofailWeight(es: seq<CofailEdge>, saturate: real -> real, a: string, b: string): real {
    CofailScore(es, saturate, false, a, b) + 0.5 * CofailScore(es, saturate, true, a, b)
  }

  predicate ProperMix(mix: EdgeMix) {
    mix.alphaDirect >= 0.0 && mix.alphaMod >= 0.0 && mix.alphaCov >= 0.0 && mix.alphaFail >= 0.0
  }

  /** The mix weighs the four tables; a marked co-failure counts half. */
  ghost predicate Composes(adj: AdjMap, g: HarnessEdges, mix: EdgeMix, saturate: real -> real) {
    forall a, b {:trigger Weight(adj, a, b)} ::
      Weight(adj, a, b) == mix.alphaDirect * DirectCount(g.edges, a, b) as real
                           + mix.alphaMod * ComodScore(g.comod, saturate, a, b)
                           + mix.alphaCov * CovScore(g.cov, a, b)
                           + mix.alphaFail * CofailWeight(g.cofail, saturate, a, b)
  }

  lemma {:induction false} TotalConcat(l: seq<Link>, m: seq<Link>, a: string, b: string)
    ensures LinkTotal(l + m, a, b) == LinkTotal(l, a, b) + LinkTotal(m, a, b)
    decreases |m|
  {
    hide Joins;
    if m == [] {
      assert l + m == l;
    } else {
      assert (l + m)[..|l + m| - 1] == l + m[..|m| - 1];
      TotalConcat(l, m[..|m| - 1], a, b);
    }
  }

  /** A link that weighs `alpha` times a score, taken into the sum. */
  lemma OneTerm(alpha: real, rest: real, x: real, e: Link, a: string, b: string, joins: bool)
    requires alpha >= 0.0 && e.w == alpha * x && joins == AreEnds(e.from, e.to, a, b)
    ensures alpha * rest + (if Joins(e, a, b) then e.w else 0.0) == alpha * (rest + if joins then Part(x) else 0.0)
  {
    if alpha > 0.0 {
      if x > 0.0 { ProductSign(alpha, x); } else { ProductSign(alpha, -x); }
    }
  }

  lemma ProductSign(x: real, y: real)
    requires x >= 0.0 && y >= 0.0
    ensures x * y >= 0.0 && (x > 0.0 && y > 0.0 ==> x * y > 0.0) && x * -y == -(x * y)
  {
  }

  lemma LastLink(ls: seq<Link>, e: Link, front: seq<Link>, a: string, b: string)
    requires ls == front + [e]
    ensures LinkTotal(ls, a, b) == LinkTotal(front, a, b) + if Joins(e, a, b) then e.w else 0.0
  {
    hide Joins;
    assert ls[..|front|] == front;
  }

  lemma {:induction false} DirectTotal(g: HarnessEdges, mix: EdgeMix, a: string, b: string)
    requires ProperMix(mix)
    ensures LinkTotal(DirectLinks(g, mix), a, b) == mix.alphaDirect * DirectCount(g.edges, a, b) as real
    decreases |g.edges|
  {
    hide LinkTotal, Joins, AreEnds;
    if g.edges == [] {
      NoLinks(a, b);
    } else {
      var n := |g.edges| - 1;
      var front, e := g.(edges := g.edges[..n]), g.edges[n];
      DirectTotal(front, mix, a, b);
      LastLink(DirectLinks(g, mix), DirectLink(e, mix), DirectLinks(front, mix), a, b);
      OneTerm(mix.alphaDirect, DirectCount(front.edges, a, b) as real, 1.0, DirectLink(e, mix), a, b, AreEnds(e.from, e.to, a, b));
    }
  }

  lemma NoLinks(a: string, b: string)
    ensures LinkTotal([], a, b) == 0.0
  {
  }

  lemma {:induction false} ComodTotal(g: HarnessEdges, mix: EdgeMix, saturate: real -> real, a: string, b: string)
    requires ProperMix(mix)
    ensures LinkTotal(ComodLinks(g, mix, saturate), a, b) == mix.alphaMod * ComodScore(g.comod, saturate, a, b)
    decreases |g.comod|
  {
    hide LinkTotal, Joins, AreEnds, Part;
    if g.comod == [] {
      NoLinks(a, b);
    } else {
      var n := |g.comod| - 1;
      var front, e := g.(comod := g.comod[..n]), g.comod[n];
      var l := ComodLink(e, mix, saturate);
      ComodTotal(front, mix, saturate, a, b);
      LastLink(ComodLinks(g, mix, saturate), l, ComodLinks(front, mix, saturate), a, b);
      OneTerm(mix.alphaMod, ComodScore(front.comod, saturate, a, b), saturate(e.ppmi), l, a, b, AreEnds(e.from, e.to, a, b));
    }
  }

  lemma {:induction false} CovTotal(g: HarnessEdges, mix: EdgeMix, a: string, b: string)
    requires ProperMix(mix)
    ensures LinkTotal(CovLinks(g, mix), a, b) == mix.alphaCov * CovScore(g.cov, a, b)
    decreases |g.cov|
  {
    hide LinkTotal, Joins, AreEnds, Part;
    if g.cov == [] {
      NoLinks(a, b);
    } else {
      var n := |g.cov| - 1;
      var front, e := g.(cov := g.cov[..n]), g.cov[n];
      var l := CovLink(e, mix);
      CovTotal(front, mix, a, b);
      LastLink(CovLinks(g, mix), l, CovLinks(front, mix), a, b);
      OneTerm(mix.alphaCov, CovScore(front.cov, a, b), e.jaccard, l, a, b, AreEnds(e.from, e.to, a, b));
    }
  }

  lemma {:induction false} CofailTotal(g: HarnessEdges, mix: EdgeMix, saturate: real -> real, a: string, b: string)
    requires ProperMix(mix)
    ensures LinkTotal(CofailLinks(g, mix, saturate), a, b) == mix.alphaFail * CofailWeight(g.cofail, saturate, a, b)
    decreases |g.cofail|
  {
    hide LinkTotal, Joins, AreEnds, Part, CofailLink, CofailWeight;
    if g.cofail == [] {
      NoLinks(a, b);
      NoCofails(saturate, a, b);
    } else {
      var n := |g.cofail| - 1;
      var front, e := g.(cofail := g.cofail[..n]), g.cofail[n];
      var l := CofailLink(e, mix, saturate);
      var y := if e.flakinessDampened then saturate(e.ppmi) * 0.5 else saturate(e.ppmi);
      CofailTotal(front, mix, saturate, a, b);
      LastLink(CofailLinks(g, mix, saturate), l, CofailLinks(front, mix, saturate), a, b);
      LastCofail(g.cofail, e, front.cofail, saturate, y, a, b);
      HalfWeight(e, mix, saturate, y);
      OneTerm(mix.alphaFail, CofailWeight(front.cofail, saturate, a, b), y, l, a, b, AreEnds(e.from, e.to, a, b));
    }
  }

  lemma NoCofails(saturate: real -> real, a: string, b: string)
    ensures CofailWeight([], saturate, a, b) == 0.0
  {
  }

  lemma LastCofail(es: seq<CofailEdge>, e: CofailEdge, front: seq<CofailEdge>, saturate: real -> real, y: real, a: string, b: string)
    requires es == front + [e] && y == if e.flakinessDampened then saturate(e.ppmi) * 0.5 else saturate(e.ppmi)
    ensures CofailWeight(es, saturate, a, b)
            == CofailWeight(front, saturate, a, b) + if AreEnds(e.from, e.to, a, b) then Part(y) else 0.0
  {
    hide AreEnds;
    assert es[..|front|] == front;
  }

  lemma HalfWeight(e: CofailEdge, mix: EdgeMix, saturate: real -> real, y: real)
    requires y == if e.flakinessDampened then saturate(e.ppmi) * 0.5 else saturate(e.ppmi)
    ensures var l := CofailLink(e, mix, saturate); l.from == e.from && l.to == e.to && l.w == mix.alphaFail * y
  {
  }

  lemma TotalsCompose(adj: AdjMap, g: HarnessEdges, mix: EdgeMix, saturate: real -> real)
    requires ProperMix(mix) && forall a, b :: Weight(adj, a, b) == LinkTotal(Links(g, mix, saturate), a, b)
    ensures Composes(adj, g, mix, saturate)
  {
    hide Weight, LinkTotal, DirectLinks, ComodLinks, CovLinks, CofailLinks, DirectCount, ComodScore, CovScore, CofailWeight;
    var d, c, v, f := DirectLinks(g, mix), ComodLinks(g, mix, saturate), CovLinks(g, mix), CofailLinks(g, mix, saturate);
    forall a, b
      ensures LinkTotal(Links(g, mix, saturate), a, b)
              == mix.alphaDirect * DirectCount(g.edges, a, b) as real
                 + mix.alphaMod * ComodScore(g.comod, saturate, a, b)
                 + mix.alphaCov * CovScore(g.cov, a, b)
                 + mix.alphaFail * CofailWeight(g.cofail, saturate, a, b)
    {
      TotalConcat(d + c + v, f, a, b);
      TotalConcat(d + c, v, a, b);
      TotalConcat(d, c, a, b);
      DirectTotal(g, mix, a, b);
      ComodTotal(g, mix, saturate, a, b);
      CovTotal(g, mix, a, b);
      CofailTotal(g, mix, saturate, a, b);
    }
  }

  /** An accepted link has positive weight and two ends. */
  ghost predicate Carries(adj: AdjMap, a: string, b: string, w: real) {
    Weight(adj, a, b) == if a != b && w > 0.0 then w else 0.0
  }

  lemma OneLink(l: Link)
    ensures LinkTotal([l], l.from, l.to) == if l.from != l.to && l.w > 0.0 then l.w else 0.0
  {
    assert [l][..0] == [];
  }

  /** Graphs with a single edge, table by table. */
  ghost predicate SingleEdges(adj: AdjMap, g: HarnessEdges, mix: EdgeMix, saturate: real -> real) {
    && (|g.edges| == 1 && g.comod == [] && g.cov == [] && g.cofail == [] ==>
          var e := g.edges[0]; Carries(adj, e.from, e.to, mix.alphaDirect))
    && (g.edges == [] && |g.comod| == 1 && g.cov == [] && g.cofail == [] ==>
          var e := g.comod[0]; Carries(adj, e.from, e.to, mix.alphaMod * saturate(e.ppmi)))
    && (g.edges == [] && g.comod == [] && |g.cov| == 1 && g.cofail == [] ==>
          var e := g.cov[0]; Carries(adj, e.from, e.to, mix.alphaCov * e.jaccard))
    && (g.edges == [] && g.comod == [] && g.cov == [] && |g.cofail| == 1 && !g.cofail[0].flakinessDampened ==>
          var e := g.cofail[0]; Carries(adj, e.from, e.to, mix.alphaFail * saturate(e.ppmi)))
    && (g.edges == [] && g.comod == [] && g.cov == [] && |g.cofail| == 1 && g.cofail[0].flakinessDampened ==>
          var e := g.cofail[0]; Carries(adj, e.from, e.to, 0.5 * (mix.alphaFail * saturate(e.ppmi))))
  }

  lemma SingleLinks(adj: AdjMap, g: HarnessEdges, mix: EdgeMix, saturate: real -> real)
    requires forall a, b :: Weight(adj, a, b) == LinkTotal(Links(g, mix, saturate), a, b)
    ensures SingleEdges(adj, g, mix, saturate)
  {
    hide Weight, LinkTotal;
    var ls := Links(g, mix, saturate);
    if |ls| == 1 {
      OneLink(ls[0]);
      assert ls == [ls[0]];
    }
  }

  /** Marking one co-failure takes half of what it adds away from the weight between its ends, and nothing else. */
  lemma MarkingHalves(adj: AdjMap, g: HarnessEdges, k: nat, after: AdjMap, mix: EdgeMix, saturate: real -> real, a: string, b: string)
    requires k < |g.cofail| && !g.cofail[k].flakinessDampened
    requires Composes(adj, g, mix, saturate)
    requires Composes(after, g.(cofail := g.cofail[k := g.cofail[k].(flakinessDampened := true)]), mix, saturate)
    ensures var e := g.cofail[k];
            Weight(after, a, b) == Weight(adj, a, b) - if AreEnds(e.from, e.to, a, b) then 0.5 * (mix.alphaFail * Part(saturate(e.ppmi))) else 0.0
  {
    hide Weight, DirectCount, ComodScore, CovScore, CofailScore, AreEnds, Part;
    MarkMoves(g.cofail, k, saturate, a, b);
  }

  lemma {:induction false} MarkMoves(es: seq<CofailEdge>, k: nat, saturate: real -> real, a: string, b: string)
    requires k < |es| && !es[k].flakinessDampened
    ensures var e, fs := es[k], es[k := es[k].(flakinessDampened := true)];
            var x := if AreEnds(e.from, e.to, a, b) then Part(saturate(e.ppmi)) else 0.0;
            && CofailScore(fs, saturate, false, a, b) == CofailScore(es, saturate, false, a, b) - x
            && CofailScore(fs, saturate, true, a, b) == CofailScore(es, saturate, true, a, b) + x
    decreases |es|
  {
    hide AreEnds, Part;
    var n, fs := |es| - 1, es[k := es[k].(flakinessDampened := true)];
    if k < n {
      MarkMoves(es[..n], k, saturate, a, b);
      assert fs[..n] == es[..n][k := es[k].(flakinessDampened := true)];
    } else {
      assert fs[..n] == es[..n];
    }
  }

  /**
   The weight between two nodes is everything the four tables put there: with a mix that is not negative, each
   table's own score in proportion to its own factor, and half of the score for marked co-failures.
   */
  method CompositeAdjacency(g: HarnessEdges, mix: EdgeMix, saturate: real -> real) returns (adj: AdjMap)
    ensures WellFormed(adj)
    ensures forall a, b :: Weight(adj, a, b) == LinkTotal(Links(g, mix, saturate), a, b)
    ensures ProperMix(mix) ==> Composes(adj, g, mix, saturate)
    ensures SingleEdges(adj, g, mix, saturate)
  {
    hide Composes, SingleEdges;
    ghost var d, c, v := DirectLinks(g, mix), ComodLinks(g, mix, saturate), CovLinks(g, mix);
    adj := AddAll(map[], DirectLinks(g, mix), []);
    assert [] + d == d;
    adj := AddAll(adj, ComodLinks(g, mix, saturate), d);
    adj := AddAll(adj, CovLinks(g, mix), d + c);
    adj := AddAll(adj, CofailLinks(g, mix, saturate), d + c + v);
    if ProperMix(mix) {
      TotalsCompose(adj, g, mix, saturate);
    }
    SingleLinks(adj, g, mix, saturate);
  }
}
