/** The per-cluster report: members, internal weight, centroid and modularity share, unrounded. */
module ClusterReport {
  import opened Sums
  import opened Modularity
  import opened Ordering
  import opened Cluster
  import opened Gains
  import opened LouvainRun
  import opened LouvainLoops
  import opened Communities

  datatype ClusterRow = ClusterRow(members: seq<string>, centroid: string, internalWeight: real, modularity: real)

  /** Link weight of `n` inside its own community. */
  ghost function Inside(adj: AdjMap, comm: Comm, n: string): real
    requires n in adj && n in comm
  {
    Sum(adj[n], LinksInto(adj, comm, n, comm[n]))
  }

  ghost function InsideTable(adj: AdjMap, comm: Comm): (t: map<string, real>)
    requires comm.Keys == adj.Keys
    ensures t.Keys == comm.Keys
  {
    map n | n in comm :: Inside(adj, comm, n)
  }

  /** `sigma_in / 2m - (sigma_tot / 2m)^2`. */
  ghost function Share(net: Net, comm: Comm, c: nat): real
    requires net.Ok() && comm.Keys == net.k.Keys
  {
    Sum(InsideTable(net.adj, comm), Members(comm, c)) / net.m
      - (Sum(net.k, Members(comm, c)) / net.m) * (Sum(net.k, Members(comm, c)) / net.m)
  }

  lemma OwnRowIsInside(net: Net, comm: Comm, i: string)
    requires net.Ok() && comm.Keys == net.k.Keys && i in comm
    ensures OwnRow(ExcessTable(net), comm, i)
         == Inside(net.adj, comm, i) - Sum(net.k, Members(comm, comm[i])) * net.k[i] / net.m
  {
    hide Sum, WellFormed, ExcessTable, ExcessRow, WeightRow, Square, Members, LinksInto;
    var s := Members(comm, comm[i]);
    TableRow(net, i);
    ExcessRowSum(net, i, s);
    WeightRowSum(net.adj, i, s);
    LinksInside(net.adj, comm, i, comm[i]);
  }

  lemma LinksInside(adj: AdjMap, comm: Comm, i: string, c: nat)
    requires i in adj && comm.Keys == adj.Keys
    ensures Members(comm, c) * adj[i].Keys == LinksInto(adj, comm, i, c)
  {
  }

  lemma MemberRow(net: Net, comm: Comm, c: nat, i: string)
    requires net.Ok() && comm.Keys == net.k.Keys && i in Members(comm, c)
    ensures OwnRows(ExcessTable(net), comm)[i]
         == InsideTable(net.adj, comm)[i] + net.k[i] * (-Sum(net.k, Members(comm, c)) / net.m)
  {
    hide Sum, WellFormed, ExcessTable, Inside, OwnRow, Square;
    OwnRowIsInside(net, comm, i);
    Shuffle(Sum(net.k, Members(comm, c)), net.k[i], net.m);
  }

  /** A cluster's share is its part of the pairwise definition. */
  lemma ShareIsOwnPart(net: Net, comm: Comm, c: nat)
    requires net.Ok() && comm.Keys == net.k.Keys
    ensures Share(net, comm, c) == Sum(OwnRows(ExcessTable(net), comm), Members(comm, c)) / net.m
  {
    hide Sum, WellFormed, ExcessTable, OwnRows, InsideTable, Square, Members;
    var s := Members(comm, c);
    var rows, inside, total := OwnRows(ExcessTable(net), comm), InsideTable(net.adj, comm), Sum(net.k, s);
    forall i | i in s ensures rows[i] == inside[i] + net.k[i] * (-total / net.m) {
      MemberRow(net, comm, c, i);
    }
    SumLinear(rows, inside, net.k, -total / net.m, s);
    SquareShare(Sum(inside, s), total, net.m);
  }

  lemma SquareShare(inside: real, total: real, m: real)
    requires m > 0.0
    ensures inside / m - (total / m) * (total / m) == (inside + total * (-total / m)) / m
  {
    var q := total / m;
    assert -total / m == -q;
    assert total * q / m == q * q;
    assert (inside - total * q) / m == inside / m - total * q / m;
  }

  /** Adding up the shares of the communities in `cs`. */
  ghost function Shares(net: Net, comm: Comm, cs: seq<nat>): real
    requires net.Ok() && comm.Keys == net.k.Keys
  {
    if cs == [] then 0.0 else Shares(net, comm, cs[..|cs| - 1]) + Share(net, comm, cs[|cs| - 1])
  }

  ghost function Labels(cs: seq<nat>): set<nat> {
    set c | c in cs
  }

  lemma {:induction false} SharesAreOwnParts(net: Net, comm: Comm, cs: seq<nat>)
    requires net.Ok() && comm.Keys == net.k.Keys
    requires forall i, j :: 0 <= i < j < |cs| ==> cs[i] != cs[j]
    ensures Shares(net, comm, cs) == Sum(OwnRows(ExcessTable(net), comm), MembersIn(comm, Labels(cs))) / net.m
    decreases cs
  {
    hide Sum, WellFormed, ExcessTable, OwnRows, Share, Members, MembersIn, Square;
    var rows := OwnRows(ExcessTable(net), comm);
    if cs == [] {
      NoMembers(comm);
      SumEmpty(rows);
      assert Labels(cs) == {} && 0.0 / net.m == 0.0;
    } else {
      var c, before := cs[|cs| - 1], cs[..|cs| - 1];
      SharesAreOwnParts(net, comm, before);
      ShareIsOwnPart(net, comm, c);
      assert Labels(cs) == Labels(before) + {c};
      OneMoreCommunity(comm, Labels(before), c);
      SumUnion(rows, MembersIn(comm, Labels(before)), Members(comm, c));
      DivideSum(Sum(rows, MembersIn(comm, Labels(before))), Sum(rows, Members(comm, c)), net.m);
    }
  }

  lemma DivideSum(a: real, b: real, m: real)
    requires m > 0.0
    ensures (a + b) / m == a / m + b / m
  {
  }

  lemma NoMembers(comm: Comm)
    ensures MembersIn(comm, {}) == {}
  {
  }

  lemma OneMoreCommunity(comm: Comm, cs: set<nat>, c: nat)
    requires c !in cs
    ensures MembersIn(comm, cs + {c}) == MembersIn(comm, cs) + Members(comm, c)
    ensures MembersIn(comm, cs) !! Members(comm, c)
  {
  }

  /** The unrounded shares of all clusters add up to the modularity of the partition. */
  lemma SharesSumToQ(net: Net, comm: Comm, cs: seq<nat>)
    requires net.Ok() && comm.Keys == net.k.Keys
    requires forall i, j :: 0 <= i < j < |cs| ==> cs[i] != cs[j]
    requires forall c :: c in comm.Values ==> c in cs
    ensures Shares(net, comm, cs) == Q(net, comm)
  {
    hide Sum, WellFormed, ExcessTable, OwnRows, Square, Shares;
    SharesAreOwnParts(net, comm, cs);
    forall n | n in comm ensures comm[n] in cs {
      assert comm[n] in comm.Values;
    }
    assert MembersIn(comm, Labels(cs)) == net.k.Keys;
  }

  // ---- the report ----

  /** The link weight of one node inside community `c`, neighbour by neighbour. */
  method InsideWeight(adj: AdjMap, comm: Comm, n: string, c: nat) returns (w: real, linked: bool)
    requires n in adj
    ensures w == Sum(adj[n], LinksInto(adj, comm, n, c)) && linked == (LinksInto(adj, comm, n, c) != {})
  {
    hide Sum;
    w, linked := 0.0, false;
    ghost var seen: set<string> := {};
    SumEmpty(adj[n]);
    var todo := adj[n].Keys;
    while todo != {}
      invariant todo <= adj[n].Keys
      invariant seen == LinksInto(adj, comm, n, c) - todo
      invariant w == Sum(adj[n], seen) && linked == (seen != {})
      decreases todo
    {
      var j :| j in todo;
      if j in comm && comm[j] == c {
        SumTake(adj[n], seen + {j}, j);
        assert seen + {j} - {j} == seen;
        w, linked := w + adj[n][j], true;
        seen := seen + {j};
      }
      todo := todo - {j};
    }
    assert seen == LinksInto(adj, comm, n, c);
  }

  /**
   Member number `i` is the centroid: the last of those with most inside weight, or the first member if no
   link runs inside the cluster.
   */
  ghost predicate CentroidAt(adj: AdjMap, comm: Comm, members: seq<string>, i: nat)
    requires comm.Keys == adj.Keys && (forall n :: n in members ==> n in comm) && i < |members|
  {
    var top := Inside(adj, comm, members[i]);
    && (forall k :: 0 <= k < |members| ==> Inside(adj, comm, members[k]) <= top)
    && (if top > 0.0 then forall k :: i < k < |members| ==> Inside(adj, comm, members[k]) < top else i == 0)
  }

  /** One cluster: its members in order, its centroid, its inside weight and its share. */
  ghost predicate RowOk(net: Net, comm: Comm, c: nat, row: ClusterRow)
    requires net.Ok() && comm.Keys == net.k.Keys
  {
    && (forall n :: n in row.members <==> n in Members(comm, c)) && IsAscending(StringLess, row.members)
    && row.internalWeight == Sum(InsideTable(net.adj, comm), Members(comm, c)) / 2.0
    && row.modularity == Share(net, comm, c)
    && exists i :: 0 <= i < |row.members| && row.members[i] == row.centroid && CentroidAt(net.adj, comm, row.members, i)
  }

  lemma OneCentroid(adj: AdjMap, comm: Comm, members: seq<string>, i: nat, j: nat)
    requires comm.Keys == adj.Keys && (forall n :: n in members ==> n in comm) && i < |members| && j < |members|
    requires CentroidAt(adj, comm, members, i) && CentroidAt(adj, comm, members, j)
    ensures i == j
  {
    hide Inside;
    assert Inside(adj, comm, members[i]) == Inside(adj, comm, members[j]);
  }

  /** The report says the same about a cluster every time. */
  lemma RowIsUnique(net: Net, comm: Comm, c: nat, row: ClusterRow, row': ClusterRow)
    requires net.Ok() && comm.Keys == net.k.Keys && RowOk(net, comm, c, row) && RowOk(net, comm, c, row')
    ensures row == row'
  {
    hide CentroidAt, IsAscending, StrictOrder, Share, InsideTable, WellFormed, StringLess, Sum;
    StringLessIsOrder();
    AscendingUnique(StringLess, Members(comm, c), row.members);
    AscendingUnique(StringLess, Members(comm, c), row'.members);
    var i :| 0 <= i < |row.members| && row.members[i] == row.centroid && CentroidAt(net.adj, comm, row.members, i);
    var j :| 0 <= j < |row'.members| && row'.members[j] == row'.centroid && CentroidAt(net.adj, comm, row'.members, j);
    OneCentroid(net.adj, comm, row.members, i, j);
  }

  ghost function Prefix(members: seq<string>, i: nat): set<string>
    requires i <= |members|
  {
    set n | n in members[..i]
  }

  lemma AddMember(t: map<string, real>, members: seq<string>, i: nat)
    requires i < |members| && Prefix(members, i + 1) <= t.Keys
    requires forall j :: 0 <= j < i ==> members[j] != members[i]
    ensures Prefix(members, i + 1) == Prefix(members, i) + {members[i]}
    ensures Sum(t, Prefix(members, i + 1)) == Sum(t, Prefix(members, i)) + t[members[i]]
  {
    hide Sum;
    assert members[..i + 1] == members[..i] + [members[i]];
    SumTake(t, Prefix(members, i + 1), members[i]);
    assert Prefix(members, i + 1) - {members[i]} == Prefix(members, i);
  }

  lemma InsideNonNegative(adj: AdjMap, comm: Comm, n: string)
    requires WellFormed(adj) && n in adj && n in comm
    ensures Inside(adj, comm, n) >= 0.0
    ensures LinksInto(adj, comm, n, comm[n]) == {} <==> Inside(adj, comm, n) == 0.0
  {
    forall j | j in adj[n] ensures adj[n][j] > 0.0 {
      assert Adjacent(adj, n, j) && Weight(adj, n, j) > 0.0;
    }
    SumPositive(adj[n], LinksInto(adj, comm, n, comm[n]));
    SumEmpty(adj[n]);
  }

  /**
   The running maximum over the first `i` members, at place `at`; members without inside links never
   compete, and as long as there was none with any, the first member stands in.
   */
  ghost predicate Leading(adj: AdjMap, comm: Comm, members: seq<string>, i: nat, at: nat, best: real, found: bool)
    requires comm.Keys == adj.Keys && (forall n :: n in members ==> n in comm) && i <= |members| && at < |members|
  {
    && (found ==> at < i && best == Inside(adj, comm, members[at]) > 0.0)
    && (found ==> forall k :: 0 <= k < i ==> Inside(adj, comm, members[k]) <= best)
    && (found ==> forall k :: at < k < i ==> Inside(adj, comm, members[k]) < best)
    && (!found ==> at == 0 && forall k :: 0 <= k < i ==> Inside(adj, comm, members[k]) == 0.0)
  }

  method ClusterTotals(net: Net, comm: Comm, c: nat, members: seq<string>)
    returns (inside: real, total: real, centroid: string)
    requires net.Ok() && comm.Keys == net.k.Keys && |members| > 0
    requires forall n :: n in members <==> n in Members(comm, c)
    requires forall i, j :: 0 <= i < j < |members| ==> members[i] != members[j]
    ensures inside == Sum(InsideTable(net.adj, comm), Members(comm, c)) && total == Sum(net.k, Members(comm, c))
    ensures exists i :: 0 <= i < |members| && members[i] == centroid && CentroidAt(net.adj, comm, members, i)
  {
    hide Sum, Inside, Prefix, WellFormed, LinksInto;
    inside, total, centroid := 0.0, 0.0, members[0];
    var best, found := 0.0, false;
    ghost var at, t := 0, InsideTable(net.adj, comm);
    SumEmpty(t);
    SumEmpty(net.k);
    PrefixBounds(comm, c, members);
    for i := 0 to |members|
      invariant inside == Sum(t, Prefix(members, i)) && total == Sum(net.k, Prefix(members, i))
      invariant 0 <= at < |members| && centroid == members[at] && Leading(net.adj, comm, members, i, at, best, found)
    {
      var n := members[i];
      var w, linked := InsideWeight(net.adj, comm, n, c);
      InsideNonNegative(net.adj, comm, n);
      assert w == Inside(net.adj, comm, n) && linked == (w != 0.0) by { InsideOfMember(net.adj, comm, n, c); }
      if linked && (!found || w >= best) {
        centroid, best, found := n, w, true;
        at := i;
      }
      AddMember(t, members, i);
      AddMember(net.k, members, i);
      inside, total := inside + w, total + net.k[n];
    }
    assert members[at] == centroid && CentroidAt(net.adj, comm, members, at);
  }

  lemma InsideOfMember(adj: AdjMap, comm: Comm, n: string, c: nat)
    requires n in adj && n in Members(comm, c)
    ensures Inside(adj, comm, n) == Sum(adj[n], LinksInto(adj, comm, n, c)) && comm[n] == c
  {
  }

  lemma PrefixBounds(comm: Comm, c: nat, members: seq<string>)
    requires forall n :: n in members <==> n in Members(comm, c)
    ensures Prefix(members, 0) == {} && Prefix(members, |members|) == Members(comm, c)
    ensures forall i :: 0 <= i <= |members| ==> Prefix(members, i) <= Members(comm, c)
  {
  }

  lemma ShareByTotals(net: Net, comm: Comm, c: nat, inside: real, total: real)
    requires net.Ok() && comm.Keys == net.k.Keys
    requires inside == Sum(InsideTable(net.adj, comm), Members(comm, c)) && total == Sum(net.k, Members(comm, c))
    ensures 2.0 * (inside / 2.0) / net.m - (total / net.m) * (total / net.m) == Share(net, comm, c)
  {
    hide Sum, InsideTable, WellFormed;
    assert 2.0 * (inside / 2.0) == inside;
  }

  lemma AscendingDistinct(members: seq<string>)
    requires IsAscending(StringLess, members)
    ensures forall i, j :: 0 <= i < j < |members| ==> members[i] != members[j]
  {
    hide StringLess;
    Irreflexive();
  }

  method ReportRow(net: Net, comm: Comm, c: nat) returns (row: ClusterRow)
    requires net.Ok() && comm.Keys == net.k.Keys && c in comm.Values
    ensures RowOk(net, comm, c, row) && row.modularity == Share(net, comm, c)
  {
    hide Sum, WellFormed, Inside, StrictOrder, Share, InsideTable, IsAscending, StringLess;
    StringLessIsOrder();
    var own := set n | n in comm && comm[n] == c;
    assert own == Members(comm, c);
    AscendingElements(StringLess, own);
    var members := SortKeys(StringLess, own);
    assert |members| > 0 by { var n :| n in comm && comm[n] == c; assert n in own; }
    AscendingDistinct(members);
    var inside, total, centroid := ClusterTotals(net, comm, c, members);
    var internal := inside / 2.0;
    var sigmaIn := 2.0 * internal;
    ShareByTotals(net, comm, c, inside, total);
    row := ClusterRow(members, centroid, internal, sigmaIn / net.m - (total / net.m) * (total / net.m));
  }

  lemma Irreflexive()
    ensures forall a, b :: StringLess(a, b) ==> a != b
  {
    StringLessIsOrder();
  }

  /** The report over a dense assignment: one row per label, in label order. */
  method Report(net: Net, comm: Comm) returns (rows: seq<ClusterRow>, totalModularity: real)
    requires net.Ok() && comm.Keys == net.k.Keys && Dense(comm)
    ensures |rows| == |comm.Values| && (forall n :: n in comm ==> comm[n] < |rows|)
    ensures forall i :: 0 <= i < |rows| ==> RowOk(net, comm, i, rows[i])
    ensures totalModularity == Q(net, comm)
  {
    hide Sum, RowOk, WellFormed, Shares, Q, StrictOrder, Dense;
    NatLessIsOrder();
    AscendingElements(NatLess, comm.Values);
    var cs := SortKeys(NatLess, comm.Values);
    DenseLabels(comm, cs);
    rows, totalModularity := ReportRows(net, comm, cs);
    SharesSumToQ(net, comm, cs);
  }

  method ReportRows(net: Net, comm: Comm, cs: seq<nat>) returns (rows: seq<ClusterRow>, total: real)
    requires net.Ok() && comm.Keys == net.k.Keys && forall c :: c in cs ==> c in comm.Values
    ensures |rows| == |cs| && total == Shares(net, comm, cs)
    ensures forall i :: 0 <= i < |rows| ==> RowOk(net, comm, cs[i], rows[i])
  {
    hide Sum, RowOk, WellFormed, Share;
    rows, total := [], 0.0;
    for i := 0 to |cs|
      invariant |rows| == i && total == Shares(net, comm, cs[..i])
      invariant forall j :: 0 <= j < i ==> RowOk(net, comm, cs[j], rows[j])
    {
      var row := ReportRow(net, comm, cs[i]);
      assert cs[..i + 1][..i] == cs[..i];
      rows := rows + [row];
      total := total + row.modularity;
    }
    assert cs[..|cs|] == cs;
  }

  /** A dense assignment has the labels 0, 1, 2, ... */
  lemma DenseLabels(comm: Comm, cs: seq<nat>)
    requires Dense(comm) && IsAscending(NatLess, cs) && forall c :: c in comm.Values <==> c in cs
    ensures forall i :: 0 <= i < |cs| ==> cs[i] == i
    ensures forall n :: n in comm ==> comm[n] < |cs|
  {
    forall i | 0 <= i < |cs| ensures cs[i] == i {
      LabelsFromZero(comm, cs, i);
    }
    forall n | n in comm ensures comm[n] < |cs| {
      assert comm[n] in comm.Values;
    }
  }

  lemma {:induction false} LabelsFromZero(comm: Comm, cs: seq<nat>, i: nat)
    requires Dense(comm) && IsAscending(NatLess, cs) && forall c :: c in comm.Values <==> c in cs
    requires i < |cs|
    ensures cs[i] == i
  {
    if i > 0 {
      LabelsFromZero(comm, cs, i - 1);
      assert NatLess(cs[i - 1], cs[i]);
    }
    if cs[i] > i {
      assert cs[i] in comm.Values;
      var n :| n in comm && comm[n] == cs[i];
      var j :| j in Members(comm, i);
      assert comm[j] in comm.Values && i in cs;
      var k :| 0 <= k < |cs| && cs[k] == i;
      if k >= i { AscendingMonotone(cs, i, k); }
    }
  }

  lemma AscendingMonotone(cs: seq<nat>, a: nat, b: nat)
    requires IsAscending(NatLess, cs) && a <= b < |cs|
    ensures cs[a] <= cs[b]
  {
    assert a < b ==> NatLess(cs[a], cs[b]);
  }

  // ---- a cluster of two ----

  lemma SumOfOne(t: map<string, real>, s: set<string>, x: string)
    requires s <= t.Keys && s <= {x}
    ensures Sum(t, s) == if x in s then t[x] else 0.0
  {
    if x in s {
      SumTake(t, s, x);
      assert s - {x} == {};
    } else {
      assert s == {};
    }
  }

  lemma InsideOfTwo(adj: AdjMap, comm: Comm, a: string, b: string)
    requires WellFormed(adj) && comm.Keys == adj.Keys && a in comm && b in comm && a != b && Members(comm, comm[a]) == {a, b}
    ensures Inside(adj, comm, a) == Weight(adj, a, b)
  {
    var s := LinksInto(adj, comm, a, comm[a]);
    forall x | x in s ensures x == b {
      assert Adjacent(adj, a, x);
      assert x in Members(comm, comm[a]);
    }
    assert b in s <==> Adjacent(adj, a, b) by {
      assert b in Members(comm, comm[a]);
    }
    SumOfOne(adj[a], s, b);
  }

  /** The inside weight counts each link once: in a cluster of two nodes it is the weight between them. */
  lemma TwoMembers(net: Net, comm: Comm, c: nat, row: ClusterRow, a: string, b: string)
    requires net.Ok() && comm.Keys == net.k.Keys && RowOk(net, comm, c, row) && row.members == [a, b] && a != b
    ensures row.internalWeight == Weight(net.adj, a, b)
  {
    hide Inside, Weight, WellFormed, Share, IsAscending, CentroidAt;
    var t, s := InsideTable(net.adj, comm), Members(comm, c);
    assert forall n :: n in s <==> n in row.members;
    assert s == {a, b};
    InsideOfTwo(net.adj, comm, a, b);
    InsideOfTwo(net.adj, comm, b, a);
    SumTake(t, s, a);
    SumOfOne(t, s - {a}, b);
    SameBothWays(net.adj, a, b);
  }

  lemma SameBothWays(adj: AdjMap, a: string, b: string)
    requires WellFormed(adj)
    ensures Weight(adj, a, b) == Weight(adj, b, a)
  {
    assert Adjacent(adj, a, b) ==> Weight(adj, a, b) == Weight(adj, b, a);
    assert Adjacent(adj, b, a) ==> Adjacent(adj, a, b);
  }
}
