/** The whole run of Louvain's first phase: visits, passes, relabel, and what they guarantee. */
module LouvainRun {
  import opened Modularity
  import opened Cluster
  import opened Gains

  type Comm = Assignment<string>

  // ---- the run as a function ----

  ghost function Visit(net: Net, comm: Comm, n: string): (next: Comm)
    requires net.Ok() && n in net.k && comm.Keys == net.k.Keys
    ensures next.Keys == comm.Keys && OneMove(comm, next, n)
  {
    comm[n := Choice(net, comm, n)]
  }

  ghost function Pass(net: Net, comm: Comm, ns: seq<string>): (next: Comm)
    requires net.Ok() && comm.Keys == net.k.Keys && forall n :: n in ns ==> n in net.k
    ensures next.Keys == comm.Keys
  {
    if ns == [] then comm else Pass(net, Visit(net, comm, ns[0]), ns[1..])
  }

  ghost predicate Moved(net: Net, comm: Comm, ns: seq<string>)
    requires net.Ok() && comm.Keys == net.k.Keys && forall n :: n in ns ==> n in net.k
  {
    ns != [] && (Choice(net, comm, ns[0]) != comm[ns[0]] || Moved(net, Visit(net, comm, ns[0]), ns[1..]))
  }

  ghost function Passes(net: Net, comm: Comm, ns: seq<string>, fuel: nat): (next: Comm)
    requires net.Ok() && comm.Keys == net.k.Keys && forall n :: n in ns ==> n in net.k
    ensures next.Keys == comm.Keys
  {
    if fuel == 0 then comm
    else if Moved(net, comm, ns) then Passes(net, Pass(net, comm, ns), ns, fuel - 1)
    else Pass(net, comm, ns)
  }

  // ---- how much a run can lose ----

  /** The most modularity that `visits` tie-breaks can cost. */
  ghost function Slack(visits: nat, m: real): real
    requires m > 0.0
  {
    visits as real * (2.0 * TIE / m)
  }

  lemma SlackAdds(a: nat, b: nat, m: real)
    requires m > 0.0
    ensures Slack(a + b, m) == Slack(a, m) + Slack(b, m) && Slack(a, m) >= 0.0
  {
    assert (a + b) as real == a as real + b as real;
  }

  lemma VisitBound(net: Net, comm: Comm, n: string)
    requires net.Ok() && n in net.k && comm.Keys == net.k.Keys
    ensures Q(net, Visit(net, comm, n)) >= Q(net, comm) - Slack(1, net.m)
  {
    hide Q, Gain, Candidates, Choice, WellFormed;
    ChoiceIsNearBest(net, comm, n);
    var c := Choice(net, comm, n);
    MoveChangesQ(net, comm, Visit(net, comm, n), n);
    ScaledLoss(net.m, Gain(net, comm, n, c) - Gain(net, comm, n, comm[n]));
  }

  lemma ScaledLoss(m: real, d: real)
    requires m > 0.0 && d >= -TIE
    ensures 2.0 / m * d >= -Slack(1, m)
  {
    assert 2.0 / m * d >= 2.0 / m * -TIE;
  }

  lemma {:induction false} PassBound(net: Net, comm: Comm, ns: seq<string>)
    requires net.Ok() && comm.Keys == net.k.Keys && forall n :: n in ns ==> n in net.k
    ensures Q(net, Pass(net, comm, ns)) >= Q(net, comm) - Slack(|ns|, net.m)
    decreases ns
  {
    hide Q, Choice, WellFormed, Visit, Slack;
    if ns == [] {
      SlackAdds(0, 0, net.m);
    } else {
      VisitBound(net, comm, ns[0]);
      PassBound(net, Visit(net, comm, ns[0]), ns[1..]);
      SlackAdds(1, |ns[1..]|, net.m);
    }
  }

  lemma {:induction false} PassesBound(net: Net, comm: Comm, ns: seq<string>, fuel: nat)
    requires net.Ok() && comm.Keys == net.k.Keys && forall n :: n in ns ==> n in net.k
    ensures Q(net, Passes(net, comm, ns, fuel)) >= Q(net, comm) - Slack(fuel * |ns|, net.m)
    decreases fuel
  {
    hide Q, Pass, Moved, WellFormed, Slack;
    if fuel == 0 {
      SlackAdds(0, 0, net.m);
    } else {
      PassBound(net, comm, ns);
      if Moved(net, comm, ns) {
        PassesBound(net, Pass(net, comm, ns), ns, fuel - 1);
      }
      assert fuel * |ns| == (fuel - 1) * |ns| + |ns| && (fuel - 1) * |ns| >= 0;
      SlackAdds((fuel - 1) * |ns|, |ns|, net.m);
    }
  }

  // ---- what a quiet pass means ----

  /** No node has a neighbouring community it would gain more than 1e-12 by joining. */
  ghost predicate LocalOptimum(net: Net, comm: Comm)
    requires net.Ok() && comm.Keys == net.k.Keys
  {
    forall n, d :: n in net.k && d in Candidates(net.adj, comm, n) ==>
                     Gain(net, comm, n, d) <= Gain(net, comm, n, comm[n]) + TIE
  }

  lemma {:induction false} QuietPass(net: Net, comm: Comm, ns: seq<string>)
    requires net.Ok() && comm.Keys == net.k.Keys && forall n :: n in ns ==> n in net.k
    requires !Moved(net, comm, ns)
    ensures Pass(net, comm, ns) == comm
    ensures forall n :: n in ns ==> Choice(net, comm, n) == comm[n]
    decreases ns
  {
    hide Choice, WellFormed;
    if ns != [] {
      assert Visit(net, comm, ns[0]) == comm;
      QuietPass(net, comm, ns[1..]);
      assert forall n :: n in ns ==> n == ns[0] || n in ns[1..];
    }
  }

  lemma QuietPassIsOptimal(net: Net, comm: Comm, ns: seq<string>)
    requires net.Ok() && comm.Keys == net.k.Keys && forall n :: n in ns <==> n in net.k
    requires !Moved(net, comm, ns)
    ensures LocalOptimum(net, comm)
  {
    hide Choice, WellFormed, Gain, Candidates, Moved;
    QuietPass(net, comm, ns);
    forall n, d | n in net.k && d in Candidates(net.adj, comm, n)
      ensures Gain(net, comm, n, d) <= Gain(net, comm, n, comm[n]) + TIE
    {
      ChoiceIsNearBest(net, comm, n);
    }
  }

  /** A run that settles before its passes are used up ends in a local optimum. */
  lemma {:induction false} SettledIsOptimal(net: Net, comm: Comm, ns: seq<string>, fuel: nat)
    requires net.Ok() && comm.Keys == net.k.Keys && forall n :: n in ns <==> n in net.k
    ensures LocalOptimum(net, Passes(net, comm, ns, fuel)) || Restless(net, comm, ns, fuel)
    decreases fuel
  {
    hide LocalOptimum, Pass, WellFormed, Moved, Visit, Choice;
    if fuel != 0 {
      if Moved(net, comm, ns) {
        SettledIsOptimal(net, Pass(net, comm, ns), ns, fuel - 1);
      } else {
        QuietPass(net, comm, ns);
        QuietPassIsOptimal(net, comm, ns);
      }
    }
  }

  /** Every one of the passes moved some node. */
  ghost predicate Restless(net: Net, comm: Comm, ns: seq<string>, fuel: nat)
    requires net.Ok() && comm.Keys == net.k.Keys && forall n :: n in ns ==> n in net.k
  {
    fuel == 0 || (Moved(net, comm, ns) && Restless(net, Pass(net, comm, ns), ns, fuel - 1))
  }
}
