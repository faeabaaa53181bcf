/** The clustering from end to end: composite graph, Louvain, labels on the nodes, and the report. */
module ClusterEnrich {
  import opened Options
  import opened Sums
  import opened Ordering
  import opened Harness
  import opened Cluster
  import opened Gains
  import opened LouvainRun
  import opened Communities
  import opened ClusterReport

  // ---- labels ----

  function Digits(n: nat): (s: string)
    ensures s != []
  {
    if n < 10 then [('0' as int + n) as char] else Digits(n / 10) + [('0' as int + n % 10) as char]
  }

  /** `C01`, `C02`, and so on, counted from one, with at least two digits. */
  function Label(c: nat): string {
    "C" + (if c + 1 < 10 then "0" else []) + Digits(c + 1)
  }

  lemma {:induction false} DigitsTell(m: nat, n: nat)
    requires Digits(m) == Digits(n)
    ensures m == n
    decreases m
  {
    if m < 10 && n < 10 {
      assert Digits(m)[0] == Digits(n)[0];
    } else {
      MoreDigits(m);
      MoreDigits(n);
      var s, t := Digits(m), Digits(n);
      if m >= 10 && n >= 10 {
        assert s[..|s| - 1] == Digits(m / 10) && t[..|t| - 1] == Digits(n / 10);
        DigitsTell(m / 10, n / 10);
        assert s[|s| - 1] == t[|t| - 1];
      }
    }
  }

  lemma MoreDigits(n: nat)
    ensures |Digits(n)| == 1 <==> n < 10
  {
  }

  lemma {:induction false} FirstDigit(n: nat)
    requires n > 0
    ensures Digits(n)[0] != '0'
    decreases n
  {
    if n >= 10 { FirstDigit(n / 10); }
  }

  /** Different clusters have different labels. */
  lemma LabelsTell(c: nat, d: nat)
    requires Label(c) == Label(d)
    ensures c == d
  {
    var s, t := Label(c), Label(d);
    FirstDigit(c + 1);
    FirstDigit(d + 1);
    if c + 1 < 10 { assert s[1] == '0' && s[2..] == Digits(c + 1); } else { assert s[1..] == Digits(c + 1); }
    if d + 1 < 10 { assert t[1] == '0' && t[2..] == Digits(d + 1); } else { assert t[1..] == Digits(d + 1); }
    DigitsTell(c + 1, d + 1);
  }

  /** The number a string of digits stands for. */
  function ValueOf(s: string): int {
    if s == [] then 0 else 10 * ValueOf(s[..|s| - 1]) + (s[|s| - 1] as int - '0' as int)
  }

  lemma {:induction false} DigitsAreDecimal(n: nat)
    ensures ValueOf(Digits(n)) == n && forall c :: c in Digits(n) ==> '0' <= c <= '9'
  {
    var s := Digits(n);
    if n < 10 {
      assert s[..0] == [] && ValueOf(s) == n;
    } else {
      DigitsAreDecimal(n / 10);
      assert s[..|s| - 1] == Digits(n / 10);
    }
  }

  /** The label is a `C` and the cluster's number counted from one, with a leading zero only to make it two digits long. */
  lemma LabelNumbers(c: nat)
    ensures Label(c)[0] == 'C' && |Label(c)| >= 3 && forall d :: d in Label(c)[1..] ==> '0' <= d <= '9'
    ensures ValueOf(Label(c)[1..]) == c + 1
    ensures |Label(c)| > 3 ==> Label(c)[1] != '0'
  {
    hide Digits;
    var d := Digits(c + 1);
    DigitsAreDecimal(c + 1);
    MoreDigits(c + 1);
    FirstDigit(c + 1);
    if c + 1 < 10 {
      assert Label(c)[1..] == ['0'] + d;
      assert (['0'] + d)[..1] == ['0'] && ['0'][..0] == [] && d[..0] == [];
      assert ValueOf(['0']) == 0 && ValueOf(d) == d[0] as int - '0' as int;
    } else {
      assert Label(c)[1..] == d;
    }
  }

  /** A node in a cluster gets its label; a node without edges gets none, and loses one it had. */
  function WithCluster(n: HarnessNode, comm: Comm): HarnessNode {
    n.(cluster := if n.id in comm then Some(Label(comm[n.id])) else None)
  }

  function Labelled(nodes: seq<HarnessNode>, comm: Comm): (r: seq<HarnessNode>)
    ensures |r| == |nodes| && forall i :: 0 <= i < |nodes| ==> r[i] == WithCluster(nodes[i], comm)
  {
    seq(|nodes|, i requires 0 <= i < |nodes| => WithCluster(nodes[i], comm))
  }

  // ---- the flakiest member ----

  predicate ScoredIn(n: HarnessNode, comm: Comm, c: nat) {
    n.id in comm && comm[n.id] == c && n.flakiness.Some?
  }

  /** The last of the scored members with the greatest flakiness, with its score. */
  function Peak(nodes: seq<HarnessNode>, comm: Comm, c: nat): Option<(string, real)> {
    if nodes == [] then None
    else
      var best, n := Peak(nodes[..|nodes| - 1], comm, c), nodes[|nodes| - 1];
      if ScoredIn(n, comm, c) && (best.None? || best.value.1 <= n.flakiness.value) then Some((n.id, n.flakiness.value))
      else best
  }

  lemma {:induction false} PeakIsGreatest(nodes: seq<HarnessNode>, comm: Comm, c: nat)
    ensures var p := Peak(nodes, comm, c);
      && (p.None? <==> forall i :: 0 <= i < |nodes| ==> !ScoredIn(nodes[i], comm, c))
      && (p.Some? ==> exists i :: 0 <= i < |nodes| && ScoredIn(nodes[i], comm, c)
                                  && (nodes[i].id, nodes[i].flakiness.value) == p.value
                                  && forall k :: 0 <= k < |nodes| && ScoredIn(nodes[k], comm, c) ==>
                                       nodes[k].flakiness.value <= p.value.1 && (i < k ==> nodes[k].flakiness.value < p.value.1))
  {
    if nodes != [] {
      var front, n := nodes[..|nodes| - 1], nodes[|nodes| - 1];
      PeakIsGreatest(front, comm, c);
      var best := Peak(front, comm, c);
      if ScoredIn(n, comm, c) && (best.None? || best.value.1 <= n.flakiness.value) {
        forall k | 0 <= k < |nodes| && ScoredIn(nodes[k], comm, c) ensures nodes[k].flakiness.value <= n.flakiness.value {
          assert k < |front| ==> nodes[k] == front[k];
        }
        assert nodes[|front|] == n;
      } else if best.Some? {
        var i :| 0 <= i < |front| && ScoredIn(front[i], comm, c)
                 && (front[i].id, front[i].flakiness.value) == best.value
                 && forall k :: 0 <= k < |front| && ScoredIn(front[k], comm, c) ==>
                      front[k].flakiness.value <= best.value.1 && (i < k ==> front[k].flakiness.value < best.value.1);
        assert nodes[i] == front[i];
        forall k | 0 <= k < |nodes| && ScoredIn(nodes[k], comm, c)
          ensures nodes[k].flakiness.value <= best.value.1 && (i < k ==> nodes[k].flakiness.value < best.value.1)
        {
          assert k < |front| ==> nodes[k] == front[k];
        }
      } else {
        forall k | 0 <= k < |nodes| ensures !ScoredIn(nodes[k], comm, c) {
          assert k < |front| ==> nodes[k] == front[k];
        }
      }
    }
  }

  /** The labels written do not matter to it. */
  lemma {:induction false} PeakOfLabelled(nodes: seq<HarnessNode>, other: Comm, comm: Comm, c: nat)
    ensures Peak(Labelled(nodes, other), comm, c) == Peak(nodes, comm, c)
  {
    if nodes != [] {
      var front := nodes[..|nodes| - 1];
      PeakOfLabelled(front, other, comm, c);
      assert Labelled(nodes, other)[..|nodes| - 1] == Labelled(front, other);
    }
  }

  function PeakId(nodes: seq<HarnessNode>, comm: Comm, c: nat): Option<string> {
    match Peak(nodes, comm, c)
    case None => None
    case Some(p) => Some(p.0)
  }

  method FindPeak(nodes: seq<HarnessNode>, comm: Comm, c: nat) returns (peak: Option<(string, real)>)
    ensures peak == Peak(nodes, comm, c)
  {
    peak := None;
    for i := 0 to |nodes|
      invariant peak == Peak(nodes[..i], comm, c)
    {
      assert nodes[..i + 1][..i] == nodes[..i];
      var n := nodes[i];
      if ScoredIn(n, comm, c) && (peak.None? || peak.value.1 <= n.flakiness.value) {
        peak := Some((n.id, n.flakiness.value));
      }
    }
    assert nodes[..|nodes|] == nodes;
  }

  // ---- the summary ----

  datatype Summary = Summary(id: string, row: ClusterRow, flakiest: Option<string>)

  datatype Outcome = Outcome(clusters: seq<Summary>, totalModularity: real)

  /** Summaries are listed by their labels, as strings. */
  predicate LabelBefore(x: Summary, y: Summary) {
    StringLess(x.id, y.id)
  }

  function Summaries(rows: seq<ClusterRow>, nodes: seq<HarnessNode>, comm: Comm): (r: seq<Summary>)
    ensures |r| == |rows| && forall i :: 0 <= i < |rows| ==> r[i] == Summary(Label(i), rows[i], PeakId(nodes, comm, i))
  {
    seq(|rows|, i requires 0 <= i < |rows| => Summary(Label(i), rows[i], PeakId(nodes, comm, i)))
  }

  method Summarise(rows: seq<ClusterRow>, nodes: seq<HarnessNode>, comm: Comm) returns (clusters: seq<Summary>)
    ensures clusters == StableSort(LabelBefore, Summaries(rows, nodes, comm))
  {
    hide Label, Peak, StableSort;
    clusters := [];
    for i := 0 to |rows|
      invariant |clusters| == i
      invariant forall k :: 0 <= k < i ==> clusters[k] == Summary(Label(k), rows[k], PeakId(nodes, comm, k))
    {
      var peak := FindPeak(nodes, comm, i);
      clusters := clusters + [Summary(Label(i), rows[i], if peak.Some? then Some(peak.value.0) else None)];
    }
    assert clusters == Summaries(rows, nodes, comm);
    clusters := StableSort(LabelBefore, clusters);
  }

  // ---- the whole call ----

  /** One row for each community, in the order of the labels. */
  ghost predicate Listed(net: Net, comm: Comm, rows: seq<ClusterRow>)
    requires net.Ok() && comm.Keys == net.k.Keys
  {
    && |rows| == |comm.Values| && (forall n :: n in comm ==> comm[n] < |rows|)
    && (forall i :: 0 <= i < |rows| ==> RowOk(net, comm, i, rows[i]))
  }

  /** What the report says of a graph with edges. */
  ghost predicate Reported(net: Net, comm: Comm, nodes: seq<HarnessNode>, o: Outcome) {
    && net.Ok() && comm.Keys == net.k.Keys && o.totalModularity == Q(net, comm)
    && exists rows :: Listed(net, comm, rows) && o.clusters == StableSort(LabelBefore, Summaries(rows, nodes, comm))
  }

  /** Everything a call does to the nodes and returns. */
  ghost predicate Enriched(nodes: seq<HarnessNode>, links: seq<Link>, after: seq<HarnessNode>, o: Outcome) {
    exists adj, comm: Comm ::
      && Represents(adj, links) && FromLouvain(adj, comm) && after == Labelled(nodes, comm)
      && (adj.Keys == {} ==> o == Outcome([], 0.0))
      && (adj.Keys != {} ==> Reported(NetOf(adj), comm, after, o))
  }

  method Enrich(g: HarnessGraph, mix: EdgeMix, saturate: real -> real) returns (o: Outcome)
    modifies g`nodes
    ensures Enriched(old(g.nodes), Links(g.Tables(), mix, saturate), g.nodes, o)
  {
    hide WellFormed, Weight, LinkTotal, Final, IsRelabel, RowOk, StableSort, Summaries, Q, Dense, NetOf, Degrees, Labelled,
         Reported;
    ghost var nodes, links := g.nodes, Links(g.Tables(), mix, saturate);
    var adj := CompositeAdjacency(g.Tables(), mix, saturate);
    var comm := Louvain(adj);
    WriteLabels(g, comm);
    if adj.Keys == {} {
      return Outcome([], 0.0);
    }
    var net := MakeNet(adj);
    RelabelDomain(Final(net), comm);
    var rows, total := Report(net, comm);
    var clusters := Summarise(rows, g.nodes, comm);
    o := Outcome(clusters, total);
    PutTogether(adj, comm, rows, nodes, links, g.nodes, o);
  }

  lemma PutTogether(adj: AdjMap, comm: Comm, rows: seq<ClusterRow>, nodes: seq<HarnessNode>, links: seq<Link>,
                    after: seq<HarnessNode>, o: Outcome)
    requires Represents(adj, links) && FromLouvain(adj, comm) && after == Labelled(nodes, comm) && adj.Keys != {}
    requires NetOf(adj).Ok() && comm.Keys == NetOf(adj).k.Keys && Listed(NetOf(adj), comm, rows)
    requires o.totalModularity == Q(NetOf(adj), comm)
    requires o.clusters == StableSort(LabelBefore, Summaries(rows, after, comm))
    ensures Enriched(nodes, links, after, o)
  {
    hide Represents, FromLouvain, Listed, StableSort, Summaries, Q, NetOf, Labelled;
  }

  method WriteLabels(g: HarnessGraph, comm: Comm)
    modifies g`nodes
    ensures g.nodes == Labelled(old(g.nodes), comm)
  {
    hide WithCluster;
    ghost var was := g.nodes;
    for i := 0 to |g.nodes|
      invariant |g.nodes| == |was|
      invariant forall k :: 0 <= k < i ==> g.nodes[k] == WithCluster(was[k], comm)
      invariant forall k :: i <= k < |was| ==> g.nodes[k] == was[k]
    {
      g.nodes := g.nodes[i := WithCluster(g.nodes[i], comm)];
    }
  }

  /** The degrees and their total, computed once more for the report. */
  method MakeNet(adj: AdjMap) returns (net: Net)
    ensures net == NetOf(adj)
  {
    hide Degrees;
    var k := AllDegrees(adj);
    var m := SumValues(k);
    net := Net(adj, k, m);
  }

  // ---- what a call guarantees ----

  ghost predicate GoodEnough(net: Net, comm: Comm, modularity: real) {
    && net.Ok() && comm.Keys == net.k.Keys
    && modularity >= Q(net, Start(net)) - Slack(MAX_PASSES * |net.k.Keys|, net.m)
    && (LocalOptimum(net, comm) || Restless(net, Start(net), VisitOrder(net), MAX_PASSES))
  }

  /**
   The promise of the whole clustering: the reported modularity is at most the ties below that of single
   nodes, and unless every pass moved something no node gains by joining a neighbouring cluster.
   */
  lemma ReportIsGood(adj: AdjMap, comm: Comm, nodes: seq<HarnessNode>, o: Outcome)
    requires adj.Keys != {} && FromLouvain(adj, comm) && Reported(NetOf(adj), comm, nodes, o)
    ensures GoodEnough(NetOf(adj), comm, o.totalModularity)
  {
    hide WellFormed, IsRelabel, Final, Q, Slack, LocalOptimum, Restless, VisitOrder, Start, Listed, NetOf;
    LouvainGuarantee(NetOf(adj), comm);
  }

  /** The links decide the graph. */
  lemma CompositeIsUnique(adj: AdjMap, adj': AdjMap, links: seq<Link>)
    requires Represents(adj, links) && Represents(adj', links)
    ensures adj == adj'
  {
    hide LinkTotal;
    forall a, b ensures Adjacent(adj, a, b) <==> Adjacent(adj', a, b) {
      assert Weight(adj, a, b) == Weight(adj', a, b);
    }
    SameRows(adj, adj');
    SameRows(adj', adj);
    forall a | a in adj ensures adj[a] == adj'[a] {
      forall b ensures b in adj[a] <==> b in adj'[a] {
        assert Adjacent(adj, a, b) <==> Adjacent(adj', a, b);
      }
      forall b | b in adj[a] ensures adj[a][b] == adj'[a][b] {
        assert Weight(adj, a, b) == Weight(adj', a, b);
      }
    }
  }

  lemma SameRows(adj: AdjMap, adj': AdjMap)
    requires WellFormed(adj) && forall a, b :: Adjacent(adj, a, b) ==> Adjacent(adj', a, b)
    ensures adj.Keys <= adj'.Keys
  {
    forall a | a in adj ensures a in adj' {
      assert adj[a].Keys != {};
      var b :| b in adj[a].Keys;
      assert Adjacent(adj, a, b);
    }
  }

  lemma RowsAreUnique(net: Net, comm: Comm, rows: seq<ClusterRow>, rows': seq<ClusterRow>)
    requires net.Ok() && comm.Keys == net.k.Keys && Listed(net, comm, rows) && Listed(net, comm, rows')
    ensures rows == rows'
  {
    hide RowOk, WellFormed;
    forall i | 0 <= i < |rows| ensures rows[i] == rows'[i] {
      RowIsUnique(net, comm, i, rows[i], rows'[i]);
    }
  }

  lemma ReportIsUnique(net: Net, comm: Comm, nodes: seq<HarnessNode>, o: Outcome, o': Outcome)
    requires Reported(net, comm, nodes, o) && Reported(net, comm, nodes, o')
    ensures o == o'
  {
    hide Listed, WellFormed, Q, StableSort, Summaries;
    var rows :| Listed(net, comm, rows) && o.clusters == StableSort(LabelBefore, Summaries(rows, nodes, comm));
    var rows' :| Listed(net, comm, rows') && o'.clusters == StableSort(LabelBefore, Summaries(rows', nodes, comm));
    RowsAreUnique(net, comm, rows, rows');
  }

  /** Deterministic: the same nodes and edges always give the same labels and the same report. */
  lemma EnrichIsDetermined(nodes: seq<HarnessNode>, links: seq<Link>,
                           after: seq<HarnessNode>, o: Outcome, after': seq<HarnessNode>, o': Outcome)
    requires Enriched(nodes, links, after, o) && Enriched(nodes, links, after', o')
    ensures after == after' && o == o'
  {
    hide Represents, Reported, Labelled, NetOf, FromLouvain, WellFormed;
    var adj, comm: Comm :|
      && Represents(adj, links) && FromLouvain(adj, comm) && after == Labelled(nodes, comm)
      && (adj.Keys == {} ==> o == Outcome([], 0.0))
      && (adj.Keys != {} ==> Reported(NetOf(adj), comm, after, o));
    var adj', comm': Comm :|
      && Represents(adj', links) && FromLouvain(adj', comm') && after' == Labelled(nodes, comm')
      && (adj'.Keys == {} ==> o' == Outcome([], 0.0))
      && (adj'.Keys != {} ==> Reported(NetOf(adj'), comm', after', o'));
    CompositeIsUnique(adj, adj', links);
    RepresentsForm(adj, links);
    LouvainIsDetermined(adj, comm, comm');
    if adj.Keys != {} { ReportIsUnique(NetOf(adj), comm, after, o, o'); }
  }

  lemma RepresentsForm(adj: AdjMap, links: seq<Link>)
    requires Represents(adj, links)
    ensures WellFormed(adj)
  {
  }

  /** A second run on the result changes nothing and reports the same. */
  lemma EnrichAgain(nodes: seq<HarnessNode>, links: seq<Link>, after: seq<HarnessNode>, o: Outcome)
    requires Enriched(nodes, links, after, o)
    ensures Enriched(after, links, after, o)
  {
    hide Represents, Reported, NetOf, FromLouvain;
    var adj, comm: Comm :|
      && Represents(adj, links) && FromLouvain(adj, comm) && after == Labelled(nodes, comm)
      && (adj.Keys == {} ==> o == Outcome([], 0.0))
      && (adj.Keys != {} ==> Reported(NetOf(adj), comm, after, o));
    assert Labelled(after, comm) == after;
  }

  // ---- the labels on the nodes and the members in the report ----

  lemma LabelOrder()
    ensures WeakOrder(LabelBefore)
  {
    hide StringLess;
    StringLessIsOrder();
  }

  lemma SummaryMembers(rows: seq<ClusterRow>, nodes: seq<HarnessNode>, comm: Comm, s: Summary)
    ensures s in StableSort(LabelBefore, Summaries(rows, nodes, comm)) <==>
            exists c :: 0 <= c < |rows| && s == Summary(Label(c), rows[c], PeakId(nodes, comm, c))
  {
    hide StableSort, Label, PeakId, LabelBefore, WeakOrder;
    var all := Summaries(rows, nodes, comm);
    LabelOrder();
    SortIsSorted(LabelBefore, all);
    assert s in StableSort(LabelBefore, all) <==> s in multiset(StableSort(LabelBefore, all));
    assert s in all <==> s in multiset(all);
  }

  lemma RowMembers(net: Net, comm: Comm, rows: seq<ClusterRow>, c: nat, n: string)
    requires net.Ok() && comm.Keys == net.k.Keys && Listed(net, comm, rows) && c < |rows|
    ensures n in rows[c].members <==> n in comm && comm[n] == c
    ensures n in comm ==> comm[n] < |rows|
  {
    assert RowOk(net, comm, c, rows[c]);
  }

  /** A node carries a cluster's label if and only if the report lists it as a member of that cluster, and none if it is listed nowhere. */
  lemma LabelsMatchReport(nodes: seq<HarnessNode>, links: seq<Link>, after: seq<HarnessNode>, o: Outcome, i: nat)
    requires Enriched(nodes, links, after, o) && i < |after|
    ensures forall s :: s in o.clusters ==> (after[i].cluster == Some(s.id) <==> after[i].id in s.row.members)
    ensures after[i].cluster.Some? <==> exists s :: s in o.clusters && after[i].id in s.row.members
  {
    hide Represents, NetOf, FromLouvain, Label, PeakId, Listed, StableSort, WellFormed, Q;
    var adj, comm: Comm :|
      && Represents(adj, links) && FromLouvain(adj, comm) && after == Labelled(nodes, comm)
      && (adj.Keys == {} ==> o == Outcome([], 0.0))
      && (adj.Keys != {} ==> Reported(NetOf(adj), comm, after, o));
    if adj.Keys == {} {
      NoNodesNoLabels(adj, comm);
    } else {
      var net, x := NetOf(adj), after[i].id;
      var rows :| Listed(net, comm, rows) && o.clusters == StableSort(LabelBefore, Summaries(rows, after, comm));
      forall s | s in o.clusters ensures after[i].cluster == Some(s.id) <==> x in s.row.members {
        SummaryMembers(rows, after, comm, s);
        var c :| 0 <= c < |rows| && s == Summary(Label(c), rows[c], PeakId(after, comm, c));
        RowMembers(net, comm, rows, c, x);
        if x in comm && Label(comm[x]) == Label(c) { LabelsTell(comm[x], c); }
      }
      if x in comm {
        var c := comm[x];
        ListedLabel(net, comm, rows, x);
        RowMembers(net, comm, rows, c, x);
        var s := Summary(Label(c), rows[c], PeakId(after, comm, c));
        SummaryMembers(rows, after, comm, s);
      }
    }
  }

  lemma ListedLabel(net: Net, comm: Comm, rows: seq<ClusterRow>, n: string)
    requires net.Ok() && comm.Keys == net.k.Keys && Listed(net, comm, rows) && n in comm
    ensures comm[n] < |rows|
  {
  }

  lemma NoNodesNoLabels(adj: AdjMap, comm: Comm)
    requires FromLouvain(adj, comm) && adj.Keys == {}
    ensures comm.Keys == {}
  {
  }
}
