/** Failure histories: flakiness scores on the nodes and an edge for tests that fail together more than by chance. */
module Flaky {
  import opened Harness
  import opened Options
  import opened Ordering
  import opened PairCounting
  import opened Beliefs

  datatype Outcome = Pass | Fail | Skip

  datatype TestRun = TestRun(outcomes: map<string, Outcome>, changed: seq<string>)

  /** The thresholds of one call, the logarithm, and the two roundings of what is written down. */
  datatype Settings = Settings(minCoFail: nat, threshold: real, minRuns: nat,
                               log2: real -> real, round4: real -> real, round3: real -> real)

  ghost predicate IsLog(log: real -> real) {
    log(1.0) == 0.0 && forall x, y :: 0.0 < x < y ==> log(x) < log(y)
  }

  // ---- the counts, by their meaning ----

  function FirstNode(nodes: seq<HarnessNode>, path: string): Option<HarnessNode> {
    if nodes == [] then None
    else if nodes[0].path == path then Some(nodes[0])
    else FirstNode(nodes[1..], path)
  }

  /** When the changed files are known, a failing test of a node without coverage is taken for a flake. */
  predicate Survives(nodes: seq<HarnessNode>, run: TestRun, t: string) {
    run.changed == [] || (FirstNode(nodes, t).Some? ==> FirstNode(nodes, t).value.coverage.Some?)
  }

  function Fails(run: TestRun): set<string> {
    set t | t in run.outcomes && run.outcomes[t] == Fail
  }

  function Genuine(nodes: seq<HarnessNode>, run: TestRun): set<string> {
    set t | t in Fails(run) && Survives(nodes, run, t)
  }

  ghost function Joint(nodes: seq<HarnessNode>, runs: seq<TestRun>, a: string, b: string): nat {
    if runs == [] then 0
    else
      var g := Genuine(nodes, runs[|runs| - 1]);
      Joint(nodes, runs[..|runs| - 1], a, b) + if a in g && b in g then 1 else 0
  }

  ghost function FailRuns(runs: seq<TestRun>, t: string): nat {
    if runs == [] then 0
    else FailRuns(runs[..|runs| - 1], t) + if t in Fails(runs[|runs| - 1]) then 1 else 0
  }

  /** Every appearance counts, a skipped one too. */
  ghost function SeenRuns(runs: seq<TestRun>, t: string): nat {
    if runs == [] then 0
    else SeenRuns(runs[..|runs| - 1], t) + if t in runs[|runs| - 1].outcomes then 1 else 0
  }

  /** Two tests fail together no more often than either fails. */
  lemma {:induction false} JointIsAtMostFails(nodes: seq<HarnessNode>, runs: seq<TestRun>, a: string, b: string)
    ensures Joint(nodes, runs, a, b) <= FailRuns(runs, a) <= |runs|
    ensures Joint(nodes, runs, a, b) <= FailRuns(runs, b) <= |runs|
  {
    if runs != [] {
      JointIsAtMostFails(nodes, runs[..|runs| - 1], a, b);
    }
  }

  // ---- the counting loops ----

  ghost predicate Tallied(runs: seq<TestRun>, seen: map<string, nat>, fails: map<string, nat>) {
    forall t :: KeyCount(seen, t) == SeenRuns(runs, t) && KeyCount(fails, t) == FailRuns(runs, t)
  }

  ghost predicate Paired(nodes: seq<HarnessNode>, runs: seq<TestRun>, joint: PairCounts) {
    && (forall a, b :: PairCount(joint, a, b) == if StringLess(a, b) then Joint(nodes, runs, a, b) else 0)
    && (forall k :: k in joint ==> StringLess(k.0, k.1) && joint[k] > 0)
  }

  method TallyRun(run: TestRun, seen0: map<string, nat>, fails0: map<string, nat>)
    returns (seen: map<string, nat>, fails: map<string, nat>)
    ensures forall t :: KeyCount(seen, t) == KeyCount(seen0, t) + if t in run.outcomes then 1 else 0
    ensures forall t :: KeyCount(fails, t) == KeyCount(fails0, t) + if t in Fails(run) then 1 else 0
  {
    hide StringLess, IsAscending, KeyCount, Added, Distinct, StrictOrder;
    StringLessIsOrder();
    var ts := SortKeys(StringLess, run.outcomes.Keys);
    AscendingElements(StringLess, run.outcomes.Keys);
    DistinctAscending(ts);
    seen, fails := seen0, fails0;
    AddedNone(seen0, ts, run.outcomes.Keys);
    AddedNone(fails0, ts, Fails(run));
    for i := 0 to |ts|
      invariant Added(seen0, seen, ts, i, run.outcomes.Keys) && Added(fails0, fails, ts, i, Fails(run))
    {
      var t := ts[i];
      assert t in run.outcomes.Keys;
      AddOne(seen0, seen, ts, i, run.outcomes.Keys);
      AddOne(fails0, fails, ts, i, Fails(run));
      seen := seen[t := KeyCount(seen, t) + 1];
      if run.outcomes[t] == Fail {
        fails := fails[t := KeyCount(fails, t) + 1];
      }
    }
    AddedAll(seen0, seen, ts, run.outcomes.Keys);
    AddedAll(fails0, fails, ts, Fails(run));
  }

  /** The counts after the first `i` names, one more for each that is in `s`. */
  ghost predicate Added(before: map<string, nat>, after: map<string, nat>, ts: seq<string>, i: nat, s: set<string>)
    requires i <= |ts|
  {
    forall t :: KeyCount(after, t) == KeyCount(before, t) + if t in ts[..i] && t in s then 1 else 0
  }

  lemma AddedNone(before: map<string, nat>, ts: seq<string>, s: set<string>)
    ensures Added(before, before, ts, 0, s)
  {
  }

  lemma AddOne(before: map<string, nat>, after: map<string, nat>, ts: seq<string>, i: nat, s: set<string>)
    requires i < |ts| && Distinct(ts) && Added(before, after, ts, i, s)
    ensures ts[i] in s ==> Added(before, after[ts[i] := KeyCount(after, ts[i]) + 1], ts, i + 1, s)
    ensures ts[i] !in s ==> Added(before, after, ts, i + 1, s)
  {
    assert ts[..i + 1] == ts[..i] + [ts[i]] && ts[i] !in ts[..i];
  }

  lemma AddedAll(before: map<string, nat>, after: map<string, nat>, ts: seq<string>, s: set<string>)
    requires Added(before, after, ts, |ts|, s) && forall t :: t in s ==> t in ts
    ensures forall t :: KeyCount(after, t) == KeyCount(before, t) + if t in s then 1 else 0
  {
    assert ts[..|ts|] == ts;
  }

  lemma OneMoreRun(nodes: seq<HarnessNode>, runs: seq<TestRun>, i: nat)
    requires i < |runs|
    ensures forall t :: SeenRuns(runs[..i + 1], t) == SeenRuns(runs[..i], t) + if t in runs[i].outcomes then 1 else 0
    ensures forall t :: FailRuns(runs[..i + 1], t) == FailRuns(runs[..i], t) + if t in Fails(runs[i]) then 1 else 0
    ensures forall a, b ::
              Joint(nodes, runs[..i + 1], a, b)
              == Joint(nodes, runs[..i], a, b) + if a in Genuine(nodes, runs[i]) && b in Genuine(nodes, runs[i]) then 1 else 0
  {
    hide Genuine, Fails;
    assert runs[..i + 1][..i] == runs[..i];
  }

  lemma PairRun(nodes: seq<HarnessNode>, runs: seq<TestRun>, i: nat, v: seq<string>, co: PairCounts, r: PairCounts)
    requires i < |runs| && IsAscending(StringLess, v) && StrictOrder(StringLess)
    requires forall a :: a in v <==> a in Genuine(nodes, runs[i])
    requires Paired(nodes, runs[..i], co) && PairsAdded(co, v, |v|, 0, r)
    ensures Paired(nodes, runs[..i + 1], r)
  {
    hide StringLess, Genuine, Visited, IsAscending, StrictOrder, Joint;
    OneMoreRun(nodes, runs, i);
    forall a, b
      ensures PairCount(r, a, b) == if StringLess(a, b) then Joint(nodes, runs[..i + 1], a, b) else 0
    {
      AllPairsVisited(v, a, b);
    }
    forall k | k in r ensures StringLess(k.0, k.1) && r[k] > 0 {
      AllPairsVisited(v, k.0, k.1);
      assert r[k] == PairCount(r, k.0, k.1);
    }
  }

  method CountRuns(nodes: seq<HarnessNode>, runs: seq<TestRun>)
    returns (seen: map<string, nat>, fails: map<string, nat>, joint: PairCounts)
    ensures Tallied(runs, seen, fails) && Paired(nodes, runs, joint)
  {
    hide Paired, PairsAdded, Genuine, Fails, StringLess, IsAscending, SeenRuns, FailRuns, Joint, KeyCount;
    StringLessIsOrder();
    seen, fails, joint := map[], map[], map[];
    assert runs[..0] == [];
    NoRuns(nodes);
    for i := 0 to |runs|
      invariant Tallied(runs[..i], seen, fails) && Paired(nodes, runs[..i], joint)
    {
      OneMoreRun(nodes, runs, i);
      seen, fails := TallyRun(runs[i], seen, fails);
      var genuine := Genuine(nodes, runs[i]);
      var v := SortKeys(StringLess, genuine);
      AscendingElements(StringLess, genuine);
      var next := CountPairs(joint, v);
      PairRun(nodes, runs, i, v, joint, next);
      joint := next;
    }
    assert runs[..|runs|] == runs;
  }

  lemma NoRuns(nodes: seq<HarnessNode>)
    ensures Tallied([], map[], map[]) && Paired(nodes, [], map[])
  {
  }

  // ---- scores ----

  function Scored(n: HarnessNode, seen: nat, fails: nat, o: Settings, nRuns: nat): HarnessNode {
    if seen > 0 && nRuns >= o.minRuns then n.(flakiness := Some(o.round4(fails as real / seen as real))) else n
  }

  // ---- edges ----

  function IdMap(nodes: seq<HarnessNode>): map<string, string> {
    if nodes == [] then map[]
    else IdMap(nodes[..|nodes| - 1])[nodes[|nodes| - 1].path := nodes[|nodes| - 1].id]
  }

  function FlakeMap(nodes: seq<HarnessNode>): map<string, real> {
    if nodes == [] then map[]
    else
      var n := nodes[|nodes| - 1];
      var m := FlakeMap(nodes[..|nodes| - 1]);
      if n.flakiness.Some? then m[n.path := n.flakiness.value] else m
  }

  function Chance(failsA: nat, failsB: nat, nRuns: nat): real
    requires nRuns > 0
  {
    (failsA as real / nRuns as real) * (failsB as real / nRuns as real)
  }

  function Association(joint: nat, failsA: nat, failsB: nat, nRuns: nat): real
    requires nRuns > 0 && Chance(failsA, failsB, nRuns) != 0.0
  {
    joint as real / nRuns as real / Chance(failsA, failsB, nRuns)
  }

  function Ppmi(joint: nat, failsA: nat, failsB: nat, nRuns: nat, log2: real -> real): Option<real>
    requires nRuns > 0
  {
    if Chance(failsA, failsB, nRuns) == 0.0 then None
    else
      var x := log2(Association(joint, failsA, failsB, nRuns));
      if x <= 0.0 then None else Some(x)
  }

  /** The edge a pair of tests gets, if it gets one. */
  function EdgeFor(a: string, b: string, joint: nat, failsA: nat, failsB: nat, nRuns: nat,
                   ids: map<string, string>, flakes: map<string, real>, o: Settings): Option<CofailEdge>
    requires nRuns > 0
  {
    if joint < o.minCoFail then None
    else
      match Ppmi(joint, failsA, failsB, nRuns, o.log2)
      case None => None
      case Some(x) =>
        if a !in ids || b !in ids then None
        else
          var flaky := Flake(flakes, a) > o.threshold && Flake(flakes, b) > o.threshold;
          if StringLess(ids[a], ids[b]) then Some(CofailEdge(ids[a], ids[b], a, b, joint, o.round3(x), flaky))
          else Some(CofailEdge(ids[b], ids[a], b, a, joint, o.round3(x), flaky))
  }

  function Flake(flakes: map<string, real>, path: string): real {
    if path in flakes then flakes[path] else 0.0
  }

  /** The gate in whole numbers: the pair fails together more often than independent tests would. */
  lemma GateByCounts(joint: nat, failsA: nat, failsB: nat, nRuns: nat, log2: real -> real)
    requires nRuns > 0 && IsLog(log2) && 0 < joint <= failsA && joint <= failsB
    ensures Ppmi(joint, failsA, failsB, nRuns, log2).Some? <==> joint * nRuns > failsA * failsB
  {
    hide IsLog, Ppmi;
    WholeProducts(joint, failsA, failsB, nRuns);
    GateByShares(joint, failsA, failsB, nRuns, log2);
  }

  lemma GateByShares(joint: nat, failsA: nat, failsB: nat, nRuns: nat, log2: real -> real)
    requires nRuns > 0 && IsLog(log2) && 0 < joint <= failsA && joint <= failsB
    ensures Ppmi(joint, failsA, failsB, nRuns, log2).Some?
            <==> joint as real * nRuns as real > failsA as real * failsB as real
  {
    hide IsLog, Chance, Association;
    AssociationGate(joint, failsA, failsB, nRuns);
    LogSign(log2, Association(joint, failsA, failsB, nRuns));
  }

  lemma AssociationGate(joint: nat, failsA: nat, failsB: nat, nRuns: nat)
    requires nRuns > 0 && 0 < joint <= failsA && joint <= failsB
    ensures Chance(failsA, failsB, nRuns) != 0.0 && Association(joint, failsA, failsB, nRuns) > 0.0
    ensures Association(joint, failsA, failsB, nRuns) > 1.0
            <==> joint as real * nRuns as real > failsA as real * failsB as real
  {
    var n, a, b, j := nRuns as real, failsA as real, failsB as real, joint as real;
    SharesArePositive(a, b, n);
    RatioOfShares(j, a, b, n, a / n, b / n, j / n, Chance(failsA, failsB, nRuns),
                  Association(joint, failsA, failsB, nRuns));
  }

  lemma WholeProducts(joint: nat, a: nat, b: nat, n: nat)
    ensures joint * n > a * b <==> joint as real * n as real > a as real * b as real
  {
    assert a as real * b as real == (a * b) as real && joint as real * n as real == (joint * n) as real;
  }

  lemma LogSign(log2: real -> real, x: real)
    requires IsLog(log2) && x > 0.0
    ensures log2(x) > 0.0 <==> x > 1.0
  {
    if x < 1.0 { assert log2(x) < log2(1.0); }
    if x > 1.0 { assert log2(1.0) < log2(x); }
  }

  lemma RatioOfShares(j: real, a: real, b: real, n: real, p: real, q: real, s: real, d: real, r: real)
    requires j > 0.0 && a > 0.0 && b > 0.0 && n > 0.0
    requires p == a / n && q == b / n && s == j / n && d == p * q && d != 0.0 && r == s / d
    ensures r > 0.0 && (r > 1.0 <==> j * n > a * b)
  {
    Quotient(a, n);
    Quotient(b, n);
    Quotient(j, n);
    Multiply(p, q);
    Quotient(s, d);
    RatioTimes(r, d, p, q, s, n, a, b, j);
    Multiply(a, b);
    AboveOne(r, a * b, j * n);
  }

  lemma SharesArePositive(a: real, b: real, n: real)
    requires a > 0.0 && b > 0.0 && n > 0.0
    ensures (a / n) * (b / n) != 0.0
  {
    Quotient(a, n);
    Quotient(b, n);
    Multiply(a / n, b / n);
  }

  lemma RatioTimes(r: real, d: real, p: real, q: real, s: real, n: real, a: real, b: real, j: real)
    requires r * d == s && d == p * q && p * n == a && q * n == b && s * n == j
    ensures r * (a * b) == j * n
  {
    assert (p * n) * (q * n) == d * (n * n);
    assert r * (d * (n * n)) == r * d * (n * n);
    assert s * (n * n) == s * n * n;
  }

  lemma AboveOne(r: real, x: real, y: real)
    requires x > 0.0 && r * x == y
    ensures r > 1.0 <==> y > x
  {
    if r > 1.0 { Multiply(r - 1.0, x); }
    if r <= 1.0 { Product(1.0 - r, x); }
  }

  // ---- the order edges are kept in ----

  predicate EdgeBefore(x: CofailEdge, y: CofailEdge) {
    StringLess(x.from, y.from) || (x.from == y.from && StringLess(x.to, y.to))
  }

  predicate PairLess(x: (string, string), y: (string, string)) {
    StringLess(x.0, y.0) || (x.0 == y.0 && StringLess(x.1, y.1))
  }

  lemma PairOrder()
    ensures StrictOrder(PairLess)
  {
    hide StringLess;
    StringLessIsOrder();
  }

  lemma EdgeOrder()
    ensures WeakOrder(EdgeBefore)
  {
    hide StringLess;
    StringLessIsOrder();
  }

  /** Equal neighbours become one. */
  function Dedup(es: seq<CofailEdge>): seq<CofailEdge> {
    if |es| < 2 then es
    else if es[0] == es[1] then Dedup(es[1..])
    else [es[0]] + Dedup(es[1..])
  }

  lemma {:induction false} DedupMembers(es: seq<CofailEdge>, e: CofailEdge)
    ensures e in Dedup(es) <==> e in es
  {
    if |es| >= 2 {
      DedupMembers(es[1..], e);
      assert es == [es[0]] + es[1..];
    }
  }

  lemma {:induction false} DedupKeepsDistinct(es: seq<CofailEdge>)
    requires forall i :: 0 <= i < |es| - 1 ==> es[i] != es[i + 1]
    ensures Dedup(es) == es
  {
    if |es| >= 2 {
      DedupKeepsDistinct(es[1..]);
    }
  }

  // ---- the whole call ----

  datatype FlakyReport = FlakyReport(nRuns: nat, runsProcessed: nat, flakesFlagged: nat, edgesEmitted: nat, shortHistory: nat)

  predicate Flagged(n: HarnessNode, seen: nat, fails: nat, o: Settings, nRuns: nat) {
    seen > 0 && nRuns >= o.minRuns && fails as real / seen as real > o.threshold
  }

  /** Nodes scored above the threshold. */
  ghost function FlaggedNodes(nodes: seq<HarnessNode>, runs: seq<TestRun>, o: Settings): nat {
    if nodes == [] then 0
    else
      var n := nodes[|nodes| - 1];
      FlaggedNodes(nodes[..|nodes| - 1], runs, o)
      + if Flagged(n, SeenRuns(runs, n.path), FailRuns(runs, n.path), o, |runs|) then 1 else 0
  }

  /** Nodes that appeared in too few runs to be scored. */
  ghost function ShortNodes(nodes: seq<HarnessNode>, runs: seq<TestRun>, o: Settings): nat {
    if nodes == [] then 0
    else
      var n := nodes[|nodes| - 1];
      ShortNodes(nodes[..|nodes| - 1], runs, o) + if SeenRuns(runs, n.path) > 0 && |runs| < o.minRuns then 1 else 0
  }

  ghost function ScoredNodes(nodes: seq<HarnessNode>, runs: seq<TestRun>, o: Settings): (r: seq<HarnessNode>)
    ensures |r| == |nodes|
  {
    seq(|nodes|, i requires 0 <= i < |nodes| =>
          Scored(nodes[i], SeenRuns(runs, nodes[i].path), FailRuns(runs, nodes[i].path), o, |runs|))
  }

  /** One call's data: the nodes before and after scoring, the runs and the settings. */
  datatype Call = Call(before: seq<HarnessNode>, after: seq<HarnessNode>, runs: seq<TestRun>, o: Settings)

  ghost function PairEdge(c: Call, a: string, b: string): Option<CofailEdge>
    requires c.runs != []
  {
    EdgeFor(a, b, Joint(c.before, c.runs, a, b), FailRuns(c.runs, a), FailRuns(c.runs, b), |c.runs|,
            IdMap(c.after), FlakeMap(c.after), c.o)
  }

  ghost function EdgesOf(c: Call, ks: seq<(string, string)>): seq<CofailEdge>
    requires c.runs != []
  {
    if ks == [] then []
    else
      var k := ks[|ks| - 1];
      var e := PairEdge(c, k.0, k.1);
      EdgesOf(c, ks[..|ks| - 1]) + if e.Some? then [e.value] else []
  }

  /** The pairs that failed together at least once, in order. */
  ghost predicate JointPairs(c: Call, ks: seq<(string, string)>) {
    && StrictOrder(PairLess) && IsAscending(PairLess, ks)
    && forall k :: k in ks <==> StringLess(k.0, k.1) && Joint(c.before, c.runs, k.0, k.1) > 0
  }

  method WriteScores(g: HarnessGraph, runs: seq<TestRun>, seen: map<string, nat>, fails: map<string, nat>, o: Settings)
    returns (flagged: nat, short: nat)
    requires Tallied(runs, seen, fails)
    modifies g`nodes
    ensures g.nodes == ScoredNodes(old(g.nodes), runs, o)
    ensures flagged == FlaggedNodes(old(g.nodes), runs, o) && short == ShortNodes(old(g.nodes), runs, o)
  {
    hide Scored, Flagged;
    ghost var was := g.nodes;
    flagged, short := 0, 0;
    for i := 0 to |g.nodes|
      invariant |g.nodes| == |was|
      invariant forall k :: 0 <= k < i ==> g.nodes[k] == ScoredNodes(was, runs, o)[k]
      invariant forall k :: i <= k < |was| ==> g.nodes[k] == was[k]
      invariant flagged == FlaggedNodes(was[..i], runs, o) && short == ShortNodes(was[..i], runs, o)
    {
      var n := g.nodes[i];
      assert was[..i + 1][..i] == was[..i];
      if Flagged(n, KeyCount(seen, n.path), KeyCount(fails, n.path), o, |runs|) {
        flagged := flagged + 1;
      }
      if KeyCount(seen, n.path) > 0 && |runs| < o.minRuns {
        short := short + 1;
      }
      g.nodes := g.nodes[i := Scored(n, KeyCount(seen, n.path), KeyCount(fails, n.path), o, |runs|)];
    }
    assert was[..|was|] == was;
  }

  lemma JointKeys(c: Call, joint: PairCounts)
    requires c.runs != [] && Paired(c.before, c.runs, joint)
    ensures StrictOrder(PairLess) && JointPairs(c, Ascending(PairLess, joint.Keys))
    ensures forall k :: k in joint ==> k in Ascending(PairLess, joint.Keys) && joint[k] == Joint(c.before, c.runs, k.0, k.1)
  {
    hide StringLess, PairLess, IsAscending, StrictOrder, Joint;
    PairOrder();
    AscendingElements(PairLess, joint.Keys);
    forall k
      ensures k in Ascending(PairLess, joint.Keys) <==> StringLess(k.0, k.1) && Joint(c.before, c.runs, k.0, k.1) > 0
    {
      assert k in joint.Keys <==> k in Ascending(PairLess, joint.Keys);
      assert PairCount(joint, k.0, k.1) == if StringLess(k.0, k.1) then Joint(c.before, c.runs, k.0, k.1) else 0;
    }
    forall k | k in joint ensures joint[k] == Joint(c.before, c.runs, k.0, k.1) {
      assert joint[k] == PairCount(joint, k.0, k.1);
    }
  }

  lemma OneMorePair(c: Call, ks: seq<(string, string)>, i: nat)
    requires c.runs != [] && i < |ks|
    ensures var e := PairEdge(c, ks[i].0, ks[i].1);
            EdgesOf(c, ks[..i + 1]) == EdgesOf(c, ks[..i]) + if e.Some? then [e.value] else []
  {
    hide PairEdge;
    assert ks[..i + 1][..i] == ks[..i];
  }

  method EmitEdges(joint: PairCounts, fails: map<string, nat>, c: Call) returns (edges: seq<CofailEdge>)
    requires c.runs != [] && Paired(c.before, c.runs, joint)
    requires forall t :: KeyCount(fails, t) == FailRuns(c.runs, t)
    ensures StrictOrder(PairLess) && edges == EdgesOf(c, Ascending(PairLess, joint.Keys))
  {
    hide PairLess, StrictOrder, EdgeFor, EdgesOf, Joint, FailRuns, IdMap, FlakeMap, KeyCount, Paired, JointPairs;
    JointKeys(c, joint);
    var pairs := SortKeys(PairLess, joint.Keys);
    AscendingElements(PairLess, joint.Keys);
    var ids, flakes := IdMap(c.after), FlakeMap(c.after);
    edges := [];
    assert pairs[..0] == [] && EdgesOf(c, []) == [] by { NoPairEdges(c); }
    for i := 0 to |pairs|
      invariant edges == EdgesOf(c, pairs[..i])
    {
      OneMorePair(c, pairs, i);
      var k := pairs[i];
      assert k in joint.Keys;
      var e := EdgeFor(k.0, k.1, joint[k], KeyCount(fails, k.0), KeyCount(fails, k.1), |c.runs|, ids, flakes, c.o);
      if e.Some? {
        edges := edges + [e.value];
      }
    }
    assert pairs[..|pairs|] == pairs;
  }

  lemma NoPairEdges(c: Call)
    requires c.runs != []
    ensures EdgesOf(c, []) == []
  {
  }

  /** The edges one call adds, in the order of their pairs. */
  ghost predicate Emitted(c: Call, es: seq<CofailEdge>)
    requires c.runs != []
  {
    exists ks :: JointPairs(c, ks) && es == EdgesOf(c, ks)
  }

  /** New edges put with the old ones: sorted by their ends, and equal neighbours made one. */
  function Merged(before: seq<CofailEdge>, es: seq<CofailEdge>): seq<CofailEdge> {
    Dedup(StableSort(EdgeBefore, before + es))
  }

  /** Scores the nodes and, with enough runs, adds the edges of the pairs to those already there. */
  method Enrich(g: HarnessGraph, runs: seq<TestRun>, o: Settings) returns (report: FlakyReport)
    modifies g`nodes, g`cofail
    ensures runs == [] ==> g.nodes == old(g.nodes) && g.cofail == old(g.cofail) && report == FlakyReport(0, 0, 0, 0, 0)
    ensures runs != [] ==> g.nodes == ScoredNodes(old(g.nodes), runs, o)
    ensures runs != [] ==> report == FlakyReport(|runs|, |runs|, FlaggedNodes(old(g.nodes), runs, o),
                                                 report.edgesEmitted, ShortNodes(old(g.nodes), runs, o))
    ensures runs != [] && |runs| < o.minRuns ==> g.cofail == old(g.cofail) && report.edgesEmitted == 0
    ensures runs != [] && |runs| >= o.minRuns ==>
              exists es :: Emitted(Call(old(g.nodes), g.nodes, runs, o), es)
                           && g.cofail == Merged(old(g.cofail), es) && report.edgesEmitted == |es|
  {
    hide Paired, Scored, Joint, EdgesOf, JointPairs, StableSort, Dedup, ScoredNodes, StrictOrder, PairLess,
         FlaggedNodes, ShortNodes;
    if runs == [] {
      return FlakyReport(0, 0, 0, 0, 0);
    }
    var before := g.nodes;
    var seen, fails, joint := CountRuns(g.nodes, runs);
    var flagged, short := WriteScores(g, runs, seen, fails, o);
    if |runs| < o.minRuns {
      return FlakyReport(|runs|, |runs|, flagged, 0, short);
    }
    ghost var c := Call(before, g.nodes, runs, o);
    JointKeys(c, joint);
    var edges := EmitEdges(joint, fails, Call(before, g.nodes, runs, o));
    assert JointPairs(c, Ascending(PairLess, joint.Keys));
    g.cofail := Merged(g.cofail, edges);
    assert Emitted(c, edges);
    report := FlakyReport(|runs|, |runs|, flagged, |edges|, short);
  }

  // ---- which edges there are ----

  /** Both tests are nodes, and they fail together often enough, and more often than by chance. */
  ghost predicate Gated(c: Call, a: string, b: string) {
    var j := Joint(c.before, c.runs, a, b);
    && a in IdMap(c.after) && b in IdMap(c.after) && 0 < j && j >= c.o.minCoFail
    && j * |c.runs| > FailRuns(c.runs, a) * FailRuns(c.runs, b)
  }

  lemma PairEdgeIfGated(c: Call, a: string, b: string)
    requires c.runs != [] && IsLog(c.o.log2) && Joint(c.before, c.runs, a, b) > 0
    ensures PairEdge(c, a, b).Some? <==> Gated(c, a, b)
    ensures PairEdge(c, a, b).Some? ==> Between(c, PairEdge(c, a, b).value, a, b)
  {
    hide IdMap, FlakeMap, Joint, FailRuns, Ppmi, StringLess, IsLog;
    JointIsAtMostFails(c.before, c.runs, a, b);
    GateByCounts(Joint(c.before, c.runs, a, b), FailRuns(c.runs, a), FailRuns(c.runs, b), |c.runs|, c.o.log2);
  }

  /** The edge joins the nodes of these two tests and carries their count. */
  ghost predicate Between(c: Call, e: CofailEdge, a: string, b: string) {
    var ids := IdMap(c.after);
    && a in ids && b in ids && e.jointFailures == Joint(c.before, c.runs, a, b)
    && ((e.from == ids[a] && e.to == ids[b] && e.fromPath == a && e.toPath == b)
        || (e.from == ids[b] && e.to == ids[a] && e.fromPath == b && e.toPath == a))
  }

  lemma {:induction false} EdgesOfMembers(c: Call, ks: seq<(string, string)>, e: CofailEdge)
    requires c.runs != []
    ensures e in EdgesOf(c, ks) <==> exists k :: k in ks && PairEdge(c, k.0, k.1) == Some(e)
  {
    hide PairEdge;
    if ks != [] {
      EdgesOfMembers(c, ks[..|ks| - 1], e);
      assert ks == ks[..|ks| - 1] + [ks[|ks| - 1]];
    }
  }

  /** Nothing that was there is taken away: an edge recorded by an earlier call stays, whatever the new counts say. */
  lemma OldEdgesStay(c: Call, ks: seq<(string, string)>, old_: seq<CofailEdge>, e: CofailEdge)
    requires c.runs != []
    ensures e in Merged(old_, EdgesOf(c, ks)) <==> e in old_ || e in EdgesOf(c, ks)
  {
    hide StableSort, EdgeBefore, WeakOrder, Dedup, EdgesOf;
    EdgeOrder();
    var all := old_ + EdgesOf(c, ks);
    SortIsSorted(EdgeBefore, all);
    DedupMembers(StableSort(EdgeBefore, all), e);
    assert e in multiset(StableSort(EdgeBefore, all)) <==> e in multiset(all);
  }

  /** Different files have different ids. */
  ghost predicate IdsIdentify(nodes: seq<HarnessNode>) {
    forall p, q :: p in IdMap(nodes) && q in IdMap(nodes) && IdMap(nodes)[p] == IdMap(nodes)[q] ==> p == q
  }

  lemma OnePairPerEdge(c: Call, e: CofailEdge, f: CofailEdge, a: string, b: string, x: string, y: string)
    requires IdsIdentify(c.after) && Between(c, e, a, b) && Between(c, f, x, y)
    requires StringLess(a, b) && StringLess(x, y) && e.from == f.from && e.to == f.to
    ensures a == x && b == y
  {
    hide StringLess, IdMap, Joint;
    StringLessLaws(a, b, a);
    StringLessLaws(a, a, a);
  }

  ghost predicate DifferentEnds(es: seq<CofailEdge>) {
    forall i, j :: 0 <= i < j < |es| ==> es[i].from != es[j].from || es[i].to != es[j].to
  }

  lemma {:induction false} EdgesOfDiffer(c: Call, ks: seq<(string, string)>)
    requires c.runs != [] && IsLog(c.o.log2) && IdsIdentify(c.after) && Distinct(ks)
    requires forall k :: k in ks ==> StringLess(k.0, k.1) && Joint(c.before, c.runs, k.0, k.1) > 0
    ensures DifferentEnds(EdgesOf(c, ks))
  {
    hide PairEdge, StringLess, Joint, IdsIdentify, Between, Gated, IsLog;
    if ks != [] {
      var front, k := ks[..|ks| - 1], ks[|ks| - 1];
      assert k in ks && forall x :: x in front ==> x in ks;
      EdgesOfDiffer(c, front);
      PairEdgeIfGated(c, k.0, k.1);
      var e' := PairEdge(c, k.0, k.1);
      assert EdgesOf(c, ks) == EdgesOf(c, front) + if e'.Some? then [e'.value] else [];
      hide EdgesOf;
      if PairEdge(c, k.0, k.1).Some? {
        var e := PairEdge(c, k.0, k.1).value;
        forall i | 0 <= i < |EdgesOf(c, front)|
          ensures EdgesOf(c, front)[i].from != e.from || EdgesOf(c, front)[i].to != e.to
        {
          NotSameEnds(c, front, k, EdgesOf(c, front)[i], e);
        }
      }
    }
  }

  lemma NotSameEnds(c: Call, front: seq<(string, string)>, k: (string, string), f: CofailEdge, e: CofailEdge)
    requires c.runs != [] && IsLog(c.o.log2) && IdsIdentify(c.after) && k !in front && StringLess(k.0, k.1)
    requires forall x :: x in front ==> StringLess(x.0, x.1) && Joint(c.before, c.runs, x.0, x.1) > 0
    requires f in EdgesOf(c, front) && Between(c, e, k.0, k.1)
    ensures f.from != e.from || f.to != e.to
  {
    hide PairEdge, StringLess, Joint, IdsIdentify, Between, Gated, IsLog;
    EdgesOfMembers(c, front, f);
    var x :| x in front && PairEdge(c, x.0, x.1) == Some(f);
    PairEdgeIfGated(c, x.0, x.1);
    if f.from == e.from && f.to == e.to {
      OnePairPerEdge(c, f, e, x.0, x.1, k.0, k.1);
    }
  }

  /**
   From a graph without such edges: the edges come out strictly ascending, so none is repeated; every edge
   joins a gated pair and carries its exact count; and every gated pair has its edge.
   */
  lemma FirstCallEdges(c: Call, ks: seq<(string, string)>)
    requires c.runs != [] && IsLog(c.o.log2) && IdsIdentify(c.after) && JointPairs(c, ks)
    ensures var r := Merged([], EdgesOf(c, ks));
            && IsAscending(EdgeBefore, r)
            && (forall e :: e in r ==> exists a, b :: StringLess(a, b) && Gated(c, a, b) && Between(c, e, a, b))
            && (forall a, b :: StringLess(a, b) && Gated(c, a, b) ==> exists e :: e in r && Between(c, e, a, b))
  {
    hide StableSort, Dedup, EdgesOf, StringLess, Gated, Between, IdsIdentify, IsLog, Joint, PairEdge;
    var es := EdgesOf(c, ks);
    var r := Merged([], es);
    assert [] + es == es;
    AscendingIsDistinct(ks);
    EdgesOfDiffer(c, ks);
    SortedStrictly(es);
    forall e | e in r ensures exists a, b :: StringLess(a, b) && Gated(c, a, b) && Between(c, e, a, b) {
      OldEdgesStay(c, ks, [], e);
      assert [] + es == es;
      EdgesOfMembers(c, ks, e);
      var k :| k in ks && PairEdge(c, k.0, k.1) == Some(e);
      PairEdgeIfGated(c, k.0, k.1);
      assert StringLess(k.0, k.1) && Gated(c, k.0, k.1) && Between(c, e, k.0, k.1);
    }
    forall a, b | StringLess(a, b) && Gated(c, a, b) ensures exists e :: e in r && Between(c, e, a, b) {
      GatedIsJoint(c, a, b);
      assert (a, b) in ks;
      PairEdgeIfGated(c, a, b);
      var e := PairEdge(c, a, b).value;
      assert (a, b) in ks && PairEdge(c, (a, b).0, (a, b).1) == Some(e);
      EdgesOfMembers(c, ks, e);
      OldEdgesStay(c, ks, [], e);
      assert [] + es == es;
    }
  }

  lemma GatedIsJoint(c: Call, a: string, b: string)
    requires Gated(c, a, b)
    ensures Joint(c.before, c.runs, a, b) > 0
  {
  }

  lemma AscendingIsDistinct(ks: seq<(string, string)>)
    requires StrictOrder(PairLess) && IsAscending(PairLess, ks)
    ensures Distinct(ks)
  {
    hide PairLess;
  }

  /** Edges with different ends are sorted strictly, and nothing is removed as a repetition. */
  lemma SortedStrictly(es: seq<CofailEdge>)
    requires DifferentEnds(es)
    ensures IsAscending(EdgeBefore, StableSort(EdgeBefore, es))
    ensures Dedup(StableSort(EdgeBefore, es)) == StableSort(EdgeBefore, es)
  {
    hide StableSort, Dedup, StringLess;
    EdgeOrder();
    SortIsSorted(EdgeBefore, es);
    var r := StableSort(EdgeBefore, es);
    EndsStayDifferent(es, r);
    StringLessIsOrder();
    forall i, j | 0 <= i < j < |r| ensures EdgeBefore(r[i], r[j]) {
      assert !EdgeBefore(r[j], r[i]);
    }
    forall i | 0 <= i < |r| - 1 ensures r[i] != r[i + 1] {
      assert EdgeBefore(r[i], r[i + 1]);
    }
    DedupKeepsDistinct(r);
  }

  /** A reordering of edges with pairwise different ends still has pairwise different ends. */
  lemma EndsStayDifferent(es: seq<CofailEdge>, r: seq<CofailEdge>)
    requires multiset(es) == multiset(r)
    requires DifferentEnds(es)
    ensures DifferentEnds(r)
  {
    forall i, j | 0 <= i < j < |r| ensures r[i].from != r[j].from || r[i].to != r[j].to {
      assert r[i] in multiset(es) && r[j] in multiset(es);
      if r[i] == r[j] {
        TwiceInSequence(r, i, j);
        OnceInDistinct(es, r[i]);
      } else {
        var x :| 0 <= x < |es| && es[x] == r[i];
        var y :| 0 <= y < |es| && es[y] == r[j];
        assert x != y;
      }
    }
  }

  lemma TwiceInSequence(r: seq<CofailEdge>, i: nat, j: nat)
    requires i < j < |r| && r[i] == r[j]
    ensures multiset(r)[r[i]] >= 2
  {
    assert r == r[..j] + r[j..];
    assert r[i] == r[..j][i] && r[j..][0] == r[j];
  }

  lemma {:induction false} OnceInDistinct(es: seq<CofailEdge>, e: CofailEdge)
    requires forall i, j :: 0 <= i < j < |es| ==> es[i] != es[j]
    ensures multiset(es)[e] <= 1
  {
    if es != [] {
      var front, last := es[..|es| - 1], es[|es| - 1];
      assert es == front + [last];
      OnceInDistinct(front, e);
      if e == last {
        assert e !in front;
        assert e !in multiset(front);
      }
    }
  }
}
