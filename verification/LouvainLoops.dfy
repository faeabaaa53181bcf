/** The loops of `louvain`, with the incrementally kept community totals, proved against the run. */
module LouvainLoops {
  import opened Sums
  import opened Modularity
  import opened Ordering
  import opened Cluster
  import opened Gains
  import opened LouvainRun

  type Totals = map<nat, real>

  /** The running total of every community is the sum of its members' degrees. */
  ghost predicate TotalsExact(net: Net, comm: Comm, sigma: Totals)
    requires comm.Keys == net.k.Keys
  {
    && (forall n :: n in comm ==> comm[n] in sigma)
    && (forall c :: c in sigma ==> sigma[c] == Sum(net.k, Members(comm, c)))
  }

  /** The same while node `n` is taken out of its community. */
  ghost predicate TotalsWithout(net: Net, comm: Comm, n: string, sigma: Totals)
    requires comm.Keys == net.k.Keys
  {
    && (forall j :: j in comm ==> comm[j] in sigma)
    && (forall c :: c in sigma ==> sigma[c] == Sum(net.k, Members(comm, c) - {n}))
  }

  /** Exact totals add up to `2m` between them. */
  lemma TotalsConserve(net: Net, comm: Comm, sigma: Totals)
    requires comm.Keys == net.k.Keys && TotalsExact(net, comm, sigma)
    ensures Sum(sigma, sigma.Keys) == Sum(net.k, net.k.Keys)
  {
    TotalsOver(net, comm, sigma, sigma.Keys);
    assert MembersIn(comm, sigma.Keys) == net.k.Keys;
  }

  ghost function MembersIn(comm: Comm, cs: set<nat>): (s: set<string>)
    ensures s <= comm.Keys
  {
    set n | n in comm && comm[n] in cs
  }

  lemma {:induction false} TotalsOver(net: Net, comm: Comm, sigma: Totals, cs: set<nat>)
    requires comm.Keys == net.k.Keys && TotalsExact(net, comm, sigma) && cs <= sigma.Keys
    ensures Sum(sigma, cs) == Sum(net.k, MembersIn(comm, cs))
    decreases cs
  {
    if c :| c in cs {
      SumTake(sigma, cs, c);
      TotalsOver(net, comm, sigma, cs - {c});
      SumUnion(net.k, MembersIn(comm, cs - {c}), Members(comm, c));
      assert MembersIn(comm, cs - {c}) + Members(comm, c) == MembersIn(comm, cs);
    } else {
      assert MembersIn(comm, cs) == {};
    }
  }

  lemma TakeOut(net: Net, comm: Comm, n: string, sigma: Totals, out: Totals)
    requires comm.Keys == net.k.Keys && n in comm && TotalsExact(net, comm, sigma)
    requires out.Keys == sigma.Keys
    requires forall c :: c in sigma ==> out[c] == sigma[c] - if c == comm[n] then net.k[n] else 0.0
    ensures TotalsWithout(net, comm, n, out)
  {
    hide Sum;
    forall c | c in out ensures out[c] == Sum(net.k, Members(comm, c) - {n}) {
      SumWithout(net.k, Members(comm, c), n);
    }
  }

  lemma PutIn(net: Net, comm: Comm, next: Comm, n: string, out: Totals, sigma: Totals)
    requires comm.Keys == net.k.Keys && TotalsWithout(net, comm, n, out) && OneMove(comm, next, n)
    requires sigma.Keys == out.Keys && next[n] in sigma
    requires forall c :: c in sigma ==> sigma[c] == out[c] + if c == next[n] then net.k[n] else 0.0
    ensures TotalsExact(net, next, sigma)
  {
    hide Sum;
    forall c | c in sigma ensures sigma[c] == Sum(net.k, Members(next, c)) {
      MembersAfterMove(comm, next, n, c);
      SumWithout(net.k, Members(next, c), n);
    }
  }

  // ---- one visit ----

  ghost function Among(comm: Comm, done: set<string>, c: nat): (s: set<string>)
    ensures s <= done
  {
    set j | j in done && j in comm && comm[j] == c
  }

  /** The neighbours `done` so far, their link weights collected by community. */
  ghost predicate Collected(adj: AdjMap, comm: Comm, n: string, done: set<string>, kToC: Totals)
    requires n in adj && comm.Keys == adj.Keys && done <= adj[n].Keys
  {
    && (forall c :: c in kToC <==> Among(comm, done, c) != {})
    && (forall c :: c in kToC ==> kToC[c] == Sum(adj[n], Among(comm, done, c)))
  }

  lemma CollectOne(adj: AdjMap, comm: Comm, n: string, done: set<string>, kToC: Totals, j: string, next: Totals)
    requires n in adj && comm.Keys == adj.Keys && done <= adj[n].Keys && Collected(adj, comm, n, done, kToC)
    requires j in adj[n] && j !in done && j in comm
    requires next == kToC[comm[j] := (if comm[j] in kToC then kToC[comm[j]] else 0.0) + adj[n][j]]
    ensures Collected(adj, comm, n, done + {j}, next)
  {
    hide Sum;
    forall c
      ensures c in next <==> Among(comm, done + {j}, c) != {}
      ensures c in next ==> next[c] == Sum(adj[n], Among(comm, done + {j}, c))
    {
      SumEmpty(adj[n]);
      if c == comm[j] {
        assert j in Among(comm, done + {j}, c);
        SumTake(adj[n], Among(comm, done + {j}, c), j);
        assert Among(comm, done + {j}, c) - {j} == Among(comm, done, c);
      } else {
        assert Among(comm, done + {j}, c) == Among(comm, done, c);
      }
    }
  }

  lemma SumEmpty<K>(t: map<K, real>)
    ensures Sum(t, {}) == 0.0
  {
  }

  method CollectLinks(adj: AdjMap, comm: Comm, n: string) returns (kToC: Totals)
    requires WellFormed(adj) && n in adj && comm.Keys == adj.Keys
    ensures kToC.Keys == Candidates(adj, comm, n)
    ensures forall c :: c in kToC ==> kToC[c] == Sum(adj[n], LinksInto(adj, comm, n, c))
  {
    hide Sum;
    kToC := map[];
    var todo := adj[n].Keys;
    assert adj[n].Keys - todo == {};
    while todo != {}
      invariant todo <= adj[n].Keys
      invariant Collected(adj, comm, n, adj[n].Keys - todo, kToC)
      decreases todo
    {
      var j :| j in todo;
      assert Adjacent(adj, n, j);
      var c := comm[j];
      var next := kToC[c := (if c in kToC then kToC[c] else 0.0) + adj[n][j]];
      CollectOne(adj, comm, n, adj[n].Keys - todo, kToC, j, next);
      assert adj[n].Keys - todo + {j} == adj[n].Keys - (todo - {j});
      kToC, todo := next, todo - {j};
    }
    assert adj[n].Keys - todo == adj[n].Keys;
    forall c
      ensures Among(comm, adj[n].Keys, c) == LinksInto(adj, comm, n, c)
      ensures c in Candidates(adj, comm, n) <==> Among(comm, adj[n].Keys, c) != {}
    {
      if c in Candidates(adj, comm, n) {
        var j :| j in adj[n] && j in comm && comm[j] == c;
        assert j in Among(comm, adj[n].Keys, c);
      }
    }
  }

  /** A gain, from the collected links and the running totals with the node taken out. */
  function GainOf(kToC: Totals, out: Totals, kN: real, m: real, c: nat): real
    requires m != 0.0
  {
    (if c in kToC then kToC[c] else 0.0) - (if c in out then out[c] else 0.0) * kN / m
  }

  lemma GainFromTotals(net: Net, comm: Comm, n: string, kToC: Totals, out: Totals, c: nat)
    requires net.Ok() && n in net.k && comm.Keys == net.k.Keys
    requires kToC.Keys == Candidates(net.adj, comm, n)
    requires forall c :: c in kToC ==> kToC[c] == Sum(net.adj[n], LinksInto(net.adj, comm, n, c))
    requires TotalsWithout(net, comm, n, out)
    requires c in kToC || c == comm[n]
    ensures Gain(net, comm, n, c) == GainOf(kToC, out, net.k[n], net.m, c)
  {
    hide Sum, WellFormed;
    if c !in kToC {
      assert LinksInto(net.adj, comm, n, c) == {};
      SumEmpty(net.adj[n]);
    } else {
      var j :| j in net.adj[n] && j in comm && comm[j] == c;
    }
  }

  /** The scan of the candidate communities, in ascending order. */
  lemma NextBest(g: map<nat, real>, cs: seq<nat>, i: nat, best: nat, gain: real)
    requires i < |cs| && forall c :: c in cs ==> c in g
    ensures Best(g, cs[i..], best, gain)
            == if g[cs[i]] > gain + TIE || (g[cs[i]] > gain - TIE && cs[i] < best) then Best(g, cs[i + 1..], cs[i], g[cs[i]])
               else Best(g, cs[i + 1..], best, gain)
  {
    assert cs[i..][0] == cs[i] && cs[i..][1..] == cs[i + 1..];
  }

  lemma LastBest(g: map<nat, real>, best: nat, gain: real)
    ensures Best(g, [], best, gain) == (best, gain)
  {
  }

  method ScanCommunities(kToC: Totals, out: Totals, kN: real, m: real, cur: nat, ghost g: map<nat, real>)
    returns (best: nat)
    requires m != 0.0 && cur in g && kToC.Keys <= g.Keys
    requires forall c :: c in g ==> g[c] == GainOf(kToC, out, kN, m, c)
    ensures StrictOrder(NatLess) && (forall c :: c in Ascending(NatLess, kToC.Keys) ==> c in g)
    ensures best == Best(g, Ascending(NatLess, kToC.Keys), cur, g[cur]).0
  {
    hide GainOf, Best, StrictOrder;
    NatLessIsOrder();
    AscendingElements(NatLess, kToC.Keys);
    best := cur;
    var bestGain := GainOf(kToC, out, kN, m, cur);
    var cs := SortKeys(NatLess, kToC.Keys);
    for i := 0 to |cs|
      invariant Best(g, cs[i..], best, bestGain) == Best(g, cs, cur, g[cur])
    {
      var c := cs[i];
      var gain := GainOf(kToC, out, kN, m, c);
      NextBest(g, cs, i, best, bestGain);
      if gain > bestGain + TIE || (gain > bestGain - TIE && c < best) {
        bestGain := gain;
        best := c;
      }
    }
    LastBest(g, best, bestGain);
  }

  /** One step of the inner loop: `n` is taken out, a community is chosen, `n` is put back. */
  method VisitNode(net: Net, comm: Comm, sigma: Totals, n: string) returns (next: Comm, sigma': Totals, moved: bool)
    requires net.Ok() && n in net.k && comm.Keys == net.k.Keys && TotalsExact(net, comm, sigma)
    ensures next == Visit(net, comm, n) && moved == (Choice(net, comm, n) != comm[n])
    ensures TotalsExact(net, next, sigma') && sigma'.Keys == sigma.Keys
  {
    hide Sum, WellFormed, LinksInto, Candidates, Members, Gain, GainOf;
    var cur := comm[n];
    var kToC := CollectLinks(net.adj, comm, n);
    var kN := net.k[n];
    var out := sigma[cur := (if cur in sigma then sigma[cur] else 0.0) - kN];
    TakeOut(net, comm, n, sigma, out);
    ghost var g := GainTable(net, comm, n);
    forall c | c in g ensures g[c] == GainOf(kToC, out, kN, net.m, c) {
      GainFromTotals(net, comm, n, kToC, out, c);
    }
    var best := ScanCommunities(kToC, out, kN, net.m, cur, g);
    assert best == Choice(net, comm, n);
    ChoiceIsKnown(net, comm, n, sigma);
    sigma' := out[best := (if best in out then out[best] else 0.0) + kN];
    next, moved := comm, false;
    if best != cur {
      next, moved := comm[n := best], true;
    }
    assert next == comm[n := best];
    PutIn(net, comm, next, n, out, sigma');
  }

  lemma ChoiceIsKnown(net: Net, comm: Comm, n: string, sigma: Totals)
    requires net.Ok() && n in net.k && comm.Keys == net.k.Keys && TotalsExact(net, comm, sigma)
    ensures Choice(net, comm, n) in sigma
  {
    hide Gain, Choice, WellFormed, Sum;
    ChoiceIsNearBest(net, comm, n);
  }

  // ---- passes ----

  method OnePass(net: Net, comm: Comm, sigma: Totals, ns: seq<string>) returns (next: Comm, sigma': Totals, moved: bool)
    requires net.Ok() && comm.Keys == net.k.Keys && TotalsExact(net, comm, sigma)
    requires forall n :: n in ns ==> n in net.k
    ensures next == Pass(net, comm, ns) && moved == Moved(net, comm, ns)
    ensures TotalsExact(net, next, sigma')
  {
    hide WellFormed, TotalsExact, Choice, Visit;
    next, sigma', moved := comm, sigma, false;
    for i := 0 to |ns|
      invariant next.Keys == net.k.Keys && TotalsExact(net, next, sigma')
      invariant Pass(net, comm, ns) == Pass(net, next, ns[i..])
      invariant Moved(net, comm, ns) == (moved || Moved(net, next, ns[i..]))
    {
      assert ns[i..][0] == ns[i] && ns[i..][1..] == ns[i + 1..];
      var didMove;
      next, sigma', didMove := VisitNode(net, next, sigma', ns[i]);
      moved := moved || didMove;
    }
  }

  ghost function Singletons(ns: seq<string>): (comm: Comm)
    requires forall i, j :: 0 <= i < j < |ns| ==> ns[i] != ns[j]
    ensures forall n :: n in comm <==> n in ns
    ensures forall i :: 0 <= i < |ns| ==> comm[ns[i]] == i
  {
    if ns == [] then map[] else Singletons(ns[..|ns| - 1])[ns[|ns| - 1] := |ns| - 1]
  }
}
