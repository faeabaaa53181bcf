/** `louvain` as a whole, its relabel, and the cluster report. */
module Communities {
  import opened Sums
  import opened Modularity
  import opened Ordering
  import opened Cluster
  import opened Gains
  import opened LouvainRun
  import opened LouvainLoops

  // ---- the dense relabel ----

  /** Labels start at 0 and none is skipped. */
  ghost predicate Dense(comm: Comm) {
    forall n, c: nat :: n in comm && c < comm[n] ==> Members(comm, c) != {}
  }

  /** The same partition, with its communities in the same order and numbered without gaps. */
  ghost predicate IsRelabel(comm: Comm, out: Comm) {
    && out.Keys == comm.Keys
    && (forall i, j :: i in comm && j in comm ==> (comm[i] < comm[j] <==> out[i] < out[j]))
    && Dense(out)
  }

  method IndexOf(ids: seq<nat>) returns (remap: map<nat, nat>)
    requires IsAscending(NatLess, ids)
    ensures forall c :: c in ids ==> c in remap && remap[c] < |ids| && ids[remap[c]] == c
  {
    remap := map[];
    for i := 0 to |ids|
      invariant forall j :: 0 <= j < i ==> ids[j] in remap && remap[ids[j]] == j
    {
      assert forall j :: 0 <= j < i ==> NatLess(ids[j], ids[i]);
      remap := remap[ids[i] := i];
    }
  }

  method ApplyLabels(comm: Comm, remap: map<nat, nat>) returns (out: Comm)
    requires forall n :: n in comm ==> comm[n] in remap
    ensures out.Keys == comm.Keys && forall n :: n in out ==> out[n] == remap[comm[n]]
  {
    out := map[];
    var todo := comm.Keys;
    while todo != {}
      invariant todo <= comm.Keys && out.Keys == comm.Keys - todo
      invariant forall n :: n in out ==> out[n] == remap[comm[n]]
      decreases todo
    {
      var n :| n in todo;
      out := out[n := remap[comm[n]]];
      todo := todo - {n};
    }
  }

  method Relabel(comm: Comm) returns (out: Comm)
    ensures IsRelabel(comm, out)
  {
    hide IsRelabel, StrictOrder, IsAscending;
    NatLessIsOrder();
    AscendingElements(NatLess, comm.Values);
    var ids := SortKeys(NatLess, comm.Values);
    var remap := IndexOf(ids);
    assert forall n :: n in comm ==> comm[n] in comm.Values;
    out := ApplyLabels(comm, remap);
    RelabelByIndex(comm, out, ids);
  }

  lemma RelabelByIndex(comm: Comm, out: Comm, ids: seq<nat>)
    requires out.Keys == comm.Keys && IsAscending(NatLess, ids) && forall c :: c in comm.Values <==> c in ids
    requires forall n :: n in out ==> out[n] < |ids| && ids[out[n]] == comm[n]
    ensures IsRelabel(comm, out)
  {
    forall i, j | i in comm && j in comm && out[i] < out[j] ensures comm[i] < comm[j] {
      assert NatLess(ids[out[i]], ids[out[j]]);
    }
    forall n, c: nat | n in out && c < out[n] ensures Members(out, c) != {} {
      assert ids[c] in comm.Values;
      var j :| j in comm && comm[j] == ids[c];
      assert out[j] < c ==> NatLess(ids[out[j]], ids[c]);
      assert c < out[j] ==> NatLess(ids[c], ids[out[j]]);
      assert j in Members(out, c);
    }
  }

  lemma RelabelSameTogether(comm: Comm, out: Comm)
    requires IsRelabel(comm, out)
    ensures forall i, j :: i in comm && j in comm ==> (comm[i] == comm[j] <==> out[i] == out[j])
    ensures forall i :: i in comm ==> Members(comm, comm[i]) == Members(out, out[i])
  {
  }

  /** The labels follow from the partition and the order of its communities: there is one such relabelling. */
  lemma RelabelIsUnique(comm: Comm, out: Comm, out': Comm)
    requires IsRelabel(comm, out) && IsRelabel(comm, out')
    ensures out == out'
  {
    hide IsRelabel;
    RelabelDomain(comm, out);
    RelabelDomain(comm, out');
    forall n | n in comm ensures out[n] == out'[n] {
      SameLabel(comm, out, out', n, out[n]);
      SameLabel(comm, out', out, n, out'[n]);
    }
  }

  /** A node's label is at most the other one: the labels below it are all taken, in the same order. */
  lemma {:induction false} SameLabel(comm: Comm, out: Comm, out': Comm, n: string, c: nat)
    requires IsRelabel(comm, out) && IsRelabel(comm, out') && n in comm && out[n] == c
    ensures c <= out'[n]
    decreases c
  {
    if c > 0 {
      var j :| j in Members(out, c - 1);
      SameLabel(comm, out, out', j, c - 1);
      assert out[j] < out[n];
      assert comm[j] < comm[n];
    }
  }

  // ---- louvain ----

  /** The nodes in ascending order of their ids. */
  ghost function VisitOrder(net: Net): (ns: seq<string>)
    ensures forall n :: n in ns <==> n in net.k
    ensures |ns| == |net.k.Keys| && forall i, j :: 0 <= i < j < |ns| ==> ns[i] != ns[j]
  {
    StringLessIsOrder();
    AscendingElements(StringLess, net.k.Keys);
    assert forall a, b :: StringLess(a, b) ==> a != b;
    Ascending(StringLess, net.k.Keys)
  }

  /** Every node on its own. */
  ghost function Start(net: Net): (comm: Comm)
    ensures comm.Keys == net.k.Keys
  {
    Singletons(VisitOrder(net))
  }

  ghost function Final(net: Net): (comm: Comm)
    requires net.Ok()
    ensures comm.Keys == net.k.Keys
  {
    Passes(net, Start(net), VisitOrder(net), MAX_PASSES)
  }

  /** The communities are those of the last pass, relabelled; a graph without nodes has none. */
  ghost predicate FromLouvain(adj: AdjMap, comm: Comm) {
    && comm.Keys == adj.Keys
    && (adj.Keys != {} ==> NetOf(adj).Ok() && IsRelabel(Final(NetOf(adj)), comm))
  }

  method Louvain(adj: AdjMap) returns (comm: Comm)
    requires WellFormed(adj)
    ensures FromLouvain(adj, comm)
  {
    hide WellFormed, Sum, IsRelabel, Final;
    NetOfIsOk(adj);
    var k := AllDegrees(adj);
    SumEmpty(k);
    var m := SumValues(k);
    if m <= 0.0 {
      comm := EachOnItsOwn(adj);
      return;
    }
    var net := Net(adj, k, m);
    assert net == NetOf(adj) && adj.Keys != {};
    comm := RunPasses(net);
    comm := Relabel(comm);
    RelabelDomain(Final(net), comm);
  }

  /** Two runs on one graph give the same assignment. */
  lemma LouvainIsDetermined(adj: AdjMap, comm: Comm, comm': Comm)
    requires WellFormed(adj) && FromLouvain(adj, comm) && FromLouvain(adj, comm')
    ensures comm == comm'
  {
    hide WellFormed, IsRelabel, Final;
    if adj.Keys != {} { RelabelIsUnique(Final(NetOf(adj)), comm, comm'); }
  }

  method RunPasses(net: Net) returns (comm: Comm)
    requires net.Ok()
    ensures comm == Final(net)
  {
    hide WellFormed, Sum, TotalsExact, Singletons, Passes;
    StringLessIsOrder();
    var ns := SortKeys(StringLess, net.adj.Keys);
    assert ns == VisitOrder(net);
    var start, sigma := InitialState(net, ns);
    comm := RepeatPasses(net, start, sigma, ns);
  }

  /** At most `MAX_PASSES` passes, stopping after the first that moves nothing. */
  method RepeatPasses(net: Net, start: Comm, sigma0: Totals, ns: seq<string>) returns (comm: Comm)
    requires net.Ok() && start.Keys == net.k.Keys && TotalsExact(net, start, sigma0)
    requires forall n :: n in ns ==> n in net.k
    ensures comm == Passes(net, start, ns, MAX_PASSES)
  {
    hide WellFormed, Sum, TotalsExact, Pass, Moved;
    var sigma := sigma0;
    comm := start;
    var pass, moved := 0, true;
    while pass < MAX_PASSES && moved
      invariant pass <= MAX_PASSES && comm.Keys == net.k.Keys && TotalsExact(net, comm, sigma)
      invariant Passes(net, start, ns, MAX_PASSES) == if moved then Passes(net, comm, ns, MAX_PASSES - pass) else comm
      decreases MAX_PASSES - pass
    {
      comm, sigma, moved := OnePass(net, comm, sigma, ns);
      pass := pass + 1;
    }
  }

  method AllDegrees(adj: AdjMap) returns (k: map<string, real>)
    ensures k == Degrees(adj)
  {
    hide Sum;
    k := map[];
    var todo := adj.Keys;
    while todo != {}
      invariant todo <= adj.Keys && k.Keys == adj.Keys - todo
      invariant forall n :: n in k ==> k[n] == Sum(adj[n], adj[n].Keys)
      decreases todo
    {
      var n :| n in todo;
      var total := SumValues(adj[n]);
      k := k[n := total];
      todo := todo - {n};
    }
  }

  /** The degenerate graph: one label per node, in whatever order the keys come. */
  method EachOnItsOwn(adj: AdjMap) returns (comm: Comm)
    ensures comm.Keys == adj.Keys
    ensures forall i, j :: i in comm && j in comm && i != j ==> comm[i] != comm[j]
  {
    comm := map[];
    var todo, next := adj.Keys, 0;
    while todo != {}
      invariant todo <= adj.Keys && comm.Keys == adj.Keys - todo
      invariant forall i :: i in comm ==> comm[i] < next
      invariant forall i, j :: i in comm && j in comm && i != j ==> comm[i] != comm[j]
      decreases todo
    {
      var n :| n in todo;
      comm := comm[n := next];
      todo, next := todo - {n}, next + 1;
    }
  }

  /** Node number `i` starts in community `i`, whose total is its own degree. */
  method InitialState(net: Net, ns: seq<string>) returns (comm: Comm, sigma: Totals)
    requires forall n :: n in ns <==> n in net.k
    requires forall i, j :: 0 <= i < j < |ns| ==> ns[i] != ns[j]
    ensures comm == Singletons(ns) && comm.Keys == net.k.Keys
    ensures TotalsExact(net, comm, sigma)
  {
    hide Singletons, TotalsExact;
    comm, sigma := map[], map[];
    assert comm == Singletons(ns[..0]) by { NoSingletons(); }
    for i := 0 to |ns|
      invariant comm == Singletons(ns[..i])
      invariant forall c :: c in sigma <==> 0 <= c < i
      invariant forall c :: 0 <= c < i ==> sigma[c] == net.k[ns[c]]
    {
      OneMoreSingleton(ns, i);
      comm := comm[ns[i] := i];
      sigma := sigma[i := net.k[ns[i]]];
    }
    assert ns[..|ns|] == ns;
    SingletonTotals(net, ns, comm, sigma);
  }

  lemma NoSingletons()
    ensures Singletons([]) == map[]
  {
  }

  lemma OneMoreSingleton(ns: seq<string>, i: nat)
    requires i < |ns| && forall i, j :: 0 <= i < j < |ns| ==> ns[i] != ns[j]
    ensures Singletons(ns[..i + 1]) == Singletons(ns[..i])[ns[i] := i]
  {
    assert ns[..i + 1][..i] == ns[..i];
  }

  lemma SingletonTotals(net: Net, ns: seq<string>, comm: Comm, sigma: Totals)
    requires comm.Keys == net.k.Keys && forall n :: n in ns <==> n in net.k
    requires forall i :: 0 <= i < |ns| ==> comm[ns[i]] == i
    requires forall c :: c in sigma <==> 0 <= c < |ns|
    requires forall c :: 0 <= c < |ns| ==> sigma[c] == net.k[ns[c]]
    ensures TotalsExact(net, comm, sigma)
  {
    hide Sum;
    forall c | c in sigma ensures sigma[c] == Sum(net.k, Members(comm, c)) {
      assert Members(comm, c) == {ns[c]};
      SumTake(net.k, {ns[c]}, ns[c]);
      SumEmpty(net.k);
      assert {ns[c]} - {ns[c]} == {};
    }
  }

  /**
   What the whole run guarantees: modularity never ends more than `20 * n * 2e-12 / 2m` below
   where it started, and either every pass kept moving nodes or no node can still gain more
   than 1e-12 by joining a neighbouring community.
   */
  lemma LouvainGuarantee(net: Net, comm: Comm)
    requires net.Ok() && IsRelabel(Final(net), comm)
    ensures Dense(comm) && comm.Keys == net.k.Keys
    ensures Q(net, comm) >= Q(net, Start(net)) - Slack(MAX_PASSES * |net.k.Keys|, net.m)
    ensures LocalOptimum(net, comm) || Restless(net, Start(net), VisitOrder(net), MAX_PASSES)
  {
    hide WellFormed, Passes, LocalOptimum, Restless, Q, VisitOrder, Start, IsRelabel, Dense, Slack;
    RelabelDomain(Final(net), comm);
    PassesBound(net, Start(net), VisitOrder(net), MAX_PASSES);
    SettledIsOptimal(net, Start(net), VisitOrder(net), MAX_PASSES);
    RelabelKeepsQ(net, Final(net), comm);
    RelabelKeepsOptimum(net, Final(net), comm);
  }

  lemma RelabelKeepsQ(net: Net, comm: Comm, out: Comm)
    requires net.Ok() && comm.Keys == net.k.Keys && IsRelabel(comm, out)
    ensures Q(net, comm) == Q(net, out)
  {
    hide PairTotal, ExcessTable, WellFormed, IsRelabel;
    assert out.Keys == comm.Keys by { RelabelDomain(comm, out); }
    RelabelSameTogether(comm, out);
    RenamingKeepsTotal(ExcessTable(net), comm, out);
  }

  lemma RelabelDomain(comm: Comm, out: Comm)
    requires IsRelabel(comm, out)
    ensures comm.Keys == out.Keys && Dense(out)
  {
  }

  lemma RelabelKeepsOptimum(net: Net, comm: Comm, out: Comm)
    requires net.Ok() && comm.Keys == net.k.Keys && IsRelabel(comm, out)
    ensures LocalOptimum(net, comm) ==> LocalOptimum(net, out)
  {
    hide Sum, WellFormed, IsRelabel;
    assert out.Keys == comm.Keys by { RelabelDomain(comm, out); }
    RelabelSameTogether(comm, out);
    if LocalOptimum(net, comm) {
      forall n, d | n in net.k && d in Candidates(net.adj, out, n)
        ensures Gain(net, out, n, d) <= Gain(net, out, n, out[n]) + TIE
      {
        var j :| j in net.adj[n] && j in out && out[j] == d;
        assert comm[j] in Candidates(net.adj, comm, n);
        SameGain(net, comm, out, n, j);
        SameGain(net, comm, out, n, n);
      }
    }
  }

  lemma SameGain(net: Net, comm: Comm, out: Comm, n: string, j: string)
    requires net.Ok() && comm.Keys == net.k.Keys && out.Keys == comm.Keys && n in comm && j in comm
    requires forall i, j :: i in comm && j in comm ==> (comm[i] == comm[j] <==> out[i] == out[j])
    ensures Gain(net, comm, n, comm[j]) == Gain(net, out, n, out[j])
  {
    hide Sum, WellFormed;
    assert Members(comm, comm[j]) == Members(out, out[j]);
    assert LinksInto(net.adj, comm, n, comm[j]) == LinksInto(net.adj, out, n, out[j]);
  }
}
