/**
 The modularity of a composite adjacency, the gain of a move, and what one visit of Louvain
 first phase chooses.
 */
module Gains {
  import opened Sums
  import opened Modularity
  import opened Ordering
  import opened Cluster

  const MAX_PASSES: nat := 20
  /** The tolerance of the tie-break, 1e-12. */
  const TIE: real := 0.000000000001

  /** The adjacency with its degrees `k` and their total `2m`, computed once up front. */
  datatype Net = Net(adj: AdjMap, k: map<string, real>, m: real) {
    ghost predicate Ok() {
      WellFormed(adj) && k.Keys == adj.Keys && m > 0.0
    }
  }

  ghost function Degrees(adj: AdjMap): (k: map<string, real>)
    ensures k.Keys == adj.Keys
  {
    map n | n in adj :: Sum(adj[n], adj[n].Keys)
  }

  ghost function NetOf(adj: AdjMap): Net {
    Net(adj, Degrees(adj), Sum(Degrees(adj), adj.Keys))
  }

  lemma NetOfIsOk(adj: AdjMap)
    requires WellFormed(adj)
    ensures NetOf(adj).m >= 0.0 && (adj.Keys != {} ==> NetOf(adj).Ok())
  {
    forall n | n in adj ensures Degrees(adj)[n] > 0.0 {
      forall j | j in adj[n] ensures adj[n][j] > 0.0 {
        assert Adjacent(adj, n, j) && Weight(adj, n, j) > 0.0;
      }
      assert adj[n].Keys != {};
      SumPositive(adj[n], adj[n].Keys);
    }
    SumPositive(Degrees(adj), adj.Keys);
  }

  // ---- modularity ----

  /** The modularity matrix: observed weight minus the weight expected from the degrees. */
  ghost function Excess(net: Net, i: string, j: string): real
    requires net.Ok() && i in net.k && j in net.k
  {
    Weight(net.adj, i, j) - net.k[i] * net.k[j] / net.m
  }

  ghost function ExcessRow(net: Net, i: string): (row: map<string, real>)
    requires net.Ok() && i in net.k
    ensures row.Keys == net.k.Keys
  {
    map j | j in net.k :: Excess(net, i, j)
  }

  ghost function ExcessTable(net: Net): (b: Table<string>)
    requires net.Ok()
    ensures b.Keys == net.k.Keys && Square(b)
  {
    map i | i in net.k :: ExcessRow(net, i)
  }

  /** Modularity by its pairwise definition. */
  ghost function Q(net: Net, comm: Assignment<string>): real
    requires net.Ok() && comm.Keys == net.k.Keys
  {
    PairTotal(ExcessTable(net), comm) / net.m
  }

  lemma TableRow(net: Net, i: string)
    requires net.Ok() && i in net.k
    ensures ExcessTable(net)[i] == ExcessRow(net, i)
  {
  }

  lemma ExcessEntrySymmetric(net: Net, i: string, j: string)
    requires net.Ok() && i in net.k && j in net.k
    ensures ExcessTable(net)[i][j] == ExcessTable(net)[j][i]
  {
    hide WellFormed, Weight, ExcessTable;
    TableRow(net, i);
    TableRow(net, j);
    WeightSymmetric(net.adj, i, j);
  }

  lemma ExcessSymmetric(net: Net)
    requires net.Ok()
    ensures Symmetric(ExcessTable(net))
  {
    hide ExcessTable, ExcessRow, WellFormed;
    forall i, j | i in net.k && j in net.k ensures ExcessTable(net)[i][j] == ExcessTable(net)[j][i] {
      ExcessEntrySymmetric(net, i, j);
    }
  }

  lemma WeightSymmetric(adj: AdjMap, i: string, j: string)
    requires WellFormed(adj)
    ensures Weight(adj, i, j) == Weight(adj, j, i)
  {
    if Adjacent(adj, i, j) || Adjacent(adj, j, i) {}
  }

  // ---- the gain of a visit ----

  ghost function LinksInto(adj: AdjMap, comm: Assignment<string>, n: string, c: nat): (s: set<string>)
    requires n in adj
    ensures s <= adj[n].Keys
  {
    set j | j in adj[n] && j in comm && comm[j] == c
  }

  /** `k_{n,C} - sigma_tot(C) * k_n / 2m`, with `n` taken out of its own community. */
  ghost function Gain(net: Net, comm: Assignment<string>, n: string, c: nat): real
    requires net.Ok() && n in net.k && comm.Keys == net.k.Keys
  {
    Sum(net.adj[n], LinksInto(net.adj, comm, n, c)) - Sum(net.k, Members(comm, c) - {n}) * net.k[n] / net.m
  }

  ghost function WeightRow(adj: AdjMap, n: string): (r: map<string, real>)
    ensures r.Keys == adj.Keys
  {
    map j | j in adj :: Weight(adj, n, j)
  }

  lemma {:induction false} WeightRowSum(adj: AdjMap, n: string, s: set<string>)
    requires n in adj && s <= adj.Keys
    ensures Sum(WeightRow(adj, n), s) == Sum(adj[n], s * adj[n].Keys)
    decreases s
  {
    if x :| x in s {
      SumTake(WeightRow(adj, n), s, x);
      WeightRowSum(adj, n, s - {x});
      assert (s - {x}) * adj[n].Keys == s * adj[n].Keys - {x};
      if x in adj[n] {
        SumTake(adj[n], s * adj[n].Keys, x);
      } else {
        assert s * adj[n].Keys - {x} == s * adj[n].Keys;
      }
    }
  }

  lemma NoSelfLink(adj: AdjMap, comm: Assignment<string>, n: string, c: nat)
    requires WellFormed(adj) && n in adj && comm.Keys == adj.Keys
    ensures (Members(comm, c) - {n}) * adj[n].Keys == LinksInto(adj, comm, n, c)
  {
    assert !Adjacent(adj, n, n);
  }

  lemma Shuffle(a: real, b: real, m: real)
    requires m != 0.0
    ensures b * (-a / m) == -(a * b / m) == -(b * a / m)
  {
  }

  lemma ExcessRowSum(net: Net, n: string, s: set<string>)
    requires net.Ok() && n in net.k && s <= net.k.Keys
    ensures Sum(ExcessRow(net, n), s) == Sum(WeightRow(net.adj, n), s) - Sum(net.k, s) * net.k[n] / net.m
  {
    hide WellFormed, Weight, Sum;
    var c := -net.k[n] / net.m;
    forall j | j in s ensures ExcessRow(net, n)[j] == WeightRow(net.adj, n)[j] + net.k[j] * c {
      Shuffle(net.k[n], net.k[j], net.m);
    }
    SumLinear(ExcessRow(net, n), WeightRow(net.adj, n), net.k, c, s);
    Shuffle(net.k[n], Sum(net.k, s), net.m);
  }

  /** The gain the code computes is the pull of the modularity matrix. */
  lemma GainIsPull(net: Net, comm: Assignment<string>, n: string, c: nat)
    requires net.Ok() && n in net.k && comm.Keys == net.k.Keys
    ensures Gain(net, comm, n, c) == Pull(ExcessTable(net), comm, n, c)
  {
    hide ExcessTable, ExcessRow, WeightRow, LinksInto, WellFormed, Sum, Square;
    var s := Members(comm, c) - {n};
    TableRow(net, n);
    ExcessRowSum(net, n, s);
    WeightRowSum(net.adj, n, s);
    NoSelfLink(net.adj, comm, n, c);
  }

  lemma ScaleDifference(after: real, before: real, m: real, d: real)
    requires m != 0.0 && after - before == 2.0 * d
    ensures after / m - before / m == 2.0 / m * d
  {
  }

  /** One move changes modularity by exactly `2/2m` times the difference of the two gains. */
  lemma MoveChangesQ(net: Net, comm: Assignment<string>, next: Assignment<string>, n: string)
    requires net.Ok() && n in net.k && comm.Keys == net.k.Keys && OneMove(comm, next, n)
    ensures Q(net, next) - Q(net, comm)
         == 2.0 / net.m * (Gain(net, comm, n, next[n]) - Gain(net, comm, n, comm[n]))
  {
    hide ExcessTable, PairTotal, Pull, Gain, WellFormed, Square, Symmetric;
    ExcessSymmetric(net);
    MoveChangesTotal(ExcessTable(net), comm, next, n);
    GainIsPull(net, comm, n, next[n]);
    GainIsPull(net, comm, n, comm[n]);
    ScaleDifference(PairTotal(ExcessTable(net), next), PairTotal(ExcessTable(net), comm), net.m,
                    Gain(net, comm, n, next[n]) - Gain(net, comm, n, comm[n]));
  }

  // ---- what one visit chooses ----

  /** The scan over candidate communities, in order, from a best so far. */
  ghost function Best(g: map<nat, real>, cs: seq<nat>, best: nat, gain: real): (nat, real)
    requires forall c :: c in cs ==> c in g
  {
    if cs == [] then (best, gain)
    else if g[cs[0]] > gain + TIE || (g[cs[0]] > gain - TIE && cs[0] < best) then
      Best(g, cs[1..], cs[0], g[cs[0]])
    else
      Best(g, cs[1..], best, gain)
  }

  /** What is known of the best so far once the candidates `done` have been scanned. */
  ghost predicate ScanState(g: map<nat, real>, cur: nat, done: seq<nat>, best: nat, gain: real)
    requires cur in g && forall c :: c in done ==> c in g
  {
    && best in g && gain == g[best]
    && (best == cur ==> forall c :: c in done ==> g[c] <= gain + TIE && (c < cur ==> g[c] <= gain - TIE))
    && (best != cur ==> best in done && gain > g[cur] - TIE && forall c :: c in done ==> g[c] <= gain + 2.0 * TIE)
  }

  /**
   However the ties fall, the chosen gain is less than 1e-12 below the current one and at most
   2e-12 below the best candidate; staying put means no candidate is better by more than 1e-12,
   and every lower-numbered one is worse by at least that.
   */
  lemma {:induction false} BestProperties(g: map<nat, real>, cur: nat, done: seq<nat>, cs: seq<nat>, best: nat, gain: real)
    requires cur in g && forall c :: c in done + cs ==> c in g
    requires IsAscending(NatLess, done + cs) && ScanState(g, cur, done, best, gain)
    ensures var r := Best(g, cs, best, gain); ScanState(g, cur, done + cs, r.0, r.1)
    decreases cs
  {
    if cs == [] {
      assert done + cs == done;
    } else {
      var c := cs[0];
      assert done + cs == done + [c] + cs[1..];
      forall d | d in done ensures d < c {
        var i :| 0 <= i < |done| && done[i] == d;
        assert NatLess((done + cs)[i], (done + cs)[|done|]);
      }
      if g[c] > gain + TIE || (g[c] > gain - TIE && c < best) {
        BestProperties(g, cur, done + [c], cs[1..], c, g[c]);
      } else {
        BestProperties(g, cur, done + [c], cs[1..], best, gain);
      }
    }
  }

  ghost function Candidates(adj: AdjMap, comm: Assignment<string>, n: string): set<nat>
    requires n in adj
  {
    set j | j in adj[n] && j in comm :: comm[j]
  }

  ghost function GainTable(net: Net, comm: Assignment<string>, n: string): (g: map<nat, real>)
    requires net.Ok() && n in net.k && comm.Keys == net.k.Keys
    ensures g.Keys == Candidates(net.adj, comm, n) + {comm[n]}
  {
    map c | c in Candidates(net.adj, comm, n) + {comm[n]} :: Gain(net, comm, n, c)
  }

  ghost function Choice(net: Net, comm: Assignment<string>, n: string): nat
    requires net.Ok() && n in net.k && comm.Keys == net.k.Keys
  {
    NatLessIsOrder();
    AscendingElements(NatLess, Candidates(net.adj, comm, n));
    Best(GainTable(net, comm, n), Ascending(NatLess, Candidates(net.adj, comm, n)), comm[n], Gain(net, comm, n, comm[n])).0
  }

  /** The choice of a visit, in terms of the gains alone. */
  lemma ChoiceIsNearBest(net: Net, comm: Assignment<string>, n: string)
    requires net.Ok() && n in net.k && comm.Keys == net.k.Keys
    ensures var c := Choice(net, comm, n);
      && (c == comm[n] || c in Candidates(net.adj, comm, n))
      && Gain(net, comm, n, c) > Gain(net, comm, n, comm[n]) - TIE
      && (forall d :: d in Candidates(net.adj, comm, n) ==> Gain(net, comm, n, d) <= Gain(net, comm, n, c) + 2.0 * TIE)
      && (c == comm[n] ==> forall d :: d in Candidates(net.adj, comm, n) ==>
            && Gain(net, comm, n, d) <= Gain(net, comm, n, c) + TIE
            && (d < c ==> Gain(net, comm, n, d) <= Gain(net, comm, n, c) - TIE))
  {
    hide Gain, Candidates;
    NatLessIsOrder();
    var s := Candidates(net.adj, comm, n);
    AscendingElements(NatLess, s);
    var g, cs := GainTable(net, comm, n), Ascending(NatLess, s);
    assert [] + cs == cs;
    BestProperties(g, comm[n], [], cs, comm[n], g[comm[n]]);
  }
}
