/** Per-spec calibrations from the mutation and smell events of a log, with or without a harness graph. */
module Evidence {
  import opened Beliefs
  import opened Options
  import opened Harness
  import opened Specs
  import opened Events
  import opened Calibration

  // ---- what the events say about a spec ----

  predicate IsAbout(e: Event, kind: string, id: string) {
    Attr(e, "event_kind", "") == kind && "spec_id" in e.attrs && e.attrs["spec_id"] == id
  }

  predicate IsCaught(e: Event, id: string) {
    IsAbout(e, "mutation_result", id) && Attr(e, "outcome", "") == "caught"
  }

  predicate IsMissed(e: Event, id: string) {
    IsAbout(e, "mutation_result", id) && (Attr(e, "outcome", "") == "missed" || Attr(e, "outcome", "") == "timeout")
  }

  predicate IsEvidence(e: Event) {
    Attr(e, "event_kind", "") == "mutation_result" || Attr(e, "event_kind", "") == "test_smell_detected"
  }

  function SmellKey(e: Event): string {
    Attr(e, "test_fn", "") + "|" + Attr(e, "smell_kind", "")
  }

  ghost function Caught(es: seq<Event>, id: string): nat {
    if es == [] then 0
    else Caught(es[..|es| - 1], id) + if IsCaught(es[|es| - 1], id) then 1 else 0
  }

  ghost function Missed(es: seq<Event>, id: string): nat {
    if es == [] then 0
    else Missed(es[..|es| - 1], id) + if IsMissed(es[|es| - 1], id) then 1 else 0
  }

  /** Repeated reports of the same smell in the same test count once. */
  ghost function Smells(es: seq<Event>, id: string): set<string> {
    set e | e in es && IsAbout(e, "test_smell_detected", id) :: SmellKey(e)
  }

  function KillRate(caught: nat, missed: nat): real {
    if caught + missed == 0 then 1.0 else caught as real / (caught + missed) as real
  }

  function SmellPenalty(smells: nat): real {
    Clamp(1.0 - 0.15 * smells as real, 0.3, 1.0)
  }

  ghost function SpecCalibration(es: seq<Event>, id: string): Calibration {
    FromEvidence(KillRate(Caught(es, id), Missed(es, id)), SmellPenalty(|Smells(es, id)|))
  }

  // ---- gathering it in one pass ----

  function Count(m: map<string, nat>, id: string): nat {
    if id in m then m[id] else 0
  }

  function Set(m: map<string, set<string>>, id: string): set<string> {
    if id in m then m[id] else {}
  }

  lemma OneMoreEvent(es: seq<Event>, i: nat, id: string)
    requires i < |es|
    ensures Caught(es[..i + 1], id) == Caught(es[..i], id) + if IsCaught(es[i], id) then 1 else 0
    ensures Missed(es[..i + 1], id) == Missed(es[..i], id) + if IsMissed(es[i], id) then 1 else 0
    ensures Smells(es[..i + 1], id)
            == Smells(es[..i], id) + if IsAbout(es[i], "test_smell_detected", id) then {SmellKey(es[i])} else {}
  {
    hide IsCaught, IsMissed, IsAbout, SmellKey;
    assert es[..i + 1][..i] == es[..i];
    assert es[..i + 1] == es[..i] + [es[i]];
  }

  method TakeEvidence(e: Event, c: map<string, nat>, m: map<string, nat>, s: map<string, set<string>>)
    returns (caught: map<string, nat>, missed: map<string, nat>, smells: map<string, set<string>>)
    ensures forall id :: Count(caught, id) == Count(c, id) + if IsCaught(e, id) then 1 else 0
    ensures forall id :: Count(missed, id) == Count(m, id) + if IsMissed(e, id) then 1 else 0
    ensures forall id :: Set(smells, id)
                         == Set(s, id) + if IsAbout(e, "test_smell_detected", id) then {SmellKey(e)} else {}
  {
    hide SmellKey, Attr;
    caught, missed, smells := c, m, s;
    if "spec_id" in e.attrs {
      var id := e.attrs["spec_id"];
      var kind, outcome := Attr(e, "event_kind", ""), Attr(e, "outcome", "");
      if kind == "mutation_result" {
        if outcome == "caught" {
          caught := caught[id := Count(caught, id) + 1];
        } else if outcome == "missed" || outcome == "timeout" {
          missed := missed[id := Count(missed, id) + 1];
        }
      } else if kind == "test_smell_detected" {
        smells := smells[id := Set(smells, id) + {SmellKey(e)}];
      }
    }
  }

  method Gather(es: seq<Event>) returns (caught: map<string, nat>, missed: map<string, nat>, smells: map<string, set<string>>)
    ensures forall id :: Count(caught, id) == Caught(es, id)
    ensures forall id :: Count(missed, id) == Missed(es, id)
    ensures forall id :: Set(smells, id) == Smells(es, id)
  {
    hide Caught, Missed, Smells, SmellKey, IsCaught, IsMissed, IsAbout, Count, Set;
    caught, missed, smells := map[], map[], map[];
    assert es[..0] == [];
    NoEvidence();
    NoCounts();
    for i := 0 to |es|
      invariant forall id :: Count(caught, id) == Caught(es[..i], id)
      invariant forall id :: Count(missed, id) == Missed(es[..i], id)
      invariant forall id :: Set(smells, id) == Smells(es[..i], id)
    {
      var e := es[i];
      forall id
        ensures Caught(es[..i + 1], id) == Caught(es[..i], id) + if IsCaught(e, id) then 1 else 0
        ensures Missed(es[..i + 1], id) == Missed(es[..i], id) + if IsMissed(e, id) then 1 else 0
        ensures Smells(es[..i + 1], id)
                == Smells(es[..i], id) + if IsAbout(e, "test_smell_detected", id) then {SmellKey(e)} else {}
      {
        OneMoreEvent(es, i, id);
      }
      caught, missed, smells := TakeEvidence(e, caught, missed, smells);
    }
    assert es[..|es|] == es;
  }

  lemma NoCounts()
    ensures forall id :: Count(map[], id) == 0 && Set(map[], id) == {}
  {
  }

  lemma NoEvidence()
    ensures forall id :: Caught([], id) == 0 && Missed([], id) == 0 && Smells([], id) == {}
  {
  }

  // ---- flakiness of a spec's clusters ----

  predicate Flakes(n: HarnessNode, cid: string) {
    n.cluster == Some(cid) && n.flakiness.Some?
  }

  ghost function FlakeSum(nodes: seq<HarnessNode>, cid: string): real {
    if nodes == [] then 0.0
    else
      var n := nodes[|nodes| - 1];
      FlakeSum(nodes[..|nodes| - 1], cid) + if Flakes(n, cid) then n.flakiness.value else 0.0
  }

  ghost function FlakeCount(nodes: seq<HarnessNode>, cid: string): nat {
    if nodes == [] then 0
    else FlakeCount(nodes[..|nodes| - 1], cid) + if Flakes(nodes[|nodes| - 1], cid) then 1 else 0
  }

  /** The mean flakiness of a cluster with at least one scored file. */
  ghost function Mean(nodes: seq<HarnessNode>, cid: string): real
    requires FlakeCount(nodes, cid) > 0
  {
    FlakeSum(nodes, cid) / FlakeCount(nodes, cid) as real
  }

  predicate Matches(spec: SpecDescriptor, n: HarnessNode) {
    exists k :: 0 <= k < |spec.support| && Under(spec.support[k], n.path)
  }

  /** A file of the spec that sits in a scored cluster. */
  ghost predicate IsPeer(spec: SpecDescriptor, nodes: seq<HarnessNode>, n: HarnessNode) {
    Matches(spec, n) && n.cluster.Some? && FlakeCount(nodes, n.cluster.value) > 0
  }

  ghost function PeerSum(spec: SpecDescriptor, nodes: seq<HarnessNode>, k: nat): real
    requires k <= |nodes|
  {
    if k == 0 then 0.0
    else
      var n := nodes[k - 1];
      PeerSum(spec, nodes, k - 1) + if IsPeer(spec, nodes, n) then Mean(nodes, n.cluster.value) else 0.0
  }

  ghost function PeerCount(spec: SpecDescriptor, nodes: seq<HarnessNode>, k: nat): nat
    requires k <= |nodes|
  {
    if k == 0 then 0
    else PeerCount(spec, nodes, k - 1) + if IsPeer(spec, nodes, nodes[k - 1]) then 1 else 0
  }

  ghost function Flakiness(spec: SpecDescriptor, nodes: seq<HarnessNode>): real {
    var n := PeerCount(spec, nodes, |nodes|);
    if n == 0 then 0.0 else PeerSum(spec, nodes, |nodes|) / n as real
  }

  ghost function ClusterCalibration(es: seq<Event>, spec: SpecDescriptor, nodes: seq<HarnessNode>): Calibration {
    FromClusterEvidence(KillRate(Caught(es, spec.id), Missed(es, spec.id)), SmellPenalty(|Smells(es, spec.id)|),
                        Flakiness(spec, nodes))
  }

  /** One calibration per spec id; the last descriptor of an id decides. */
  ghost function Calibrations(specs: seq<SpecDescriptor>, es: seq<Event>, nodes: seq<HarnessNode>): map<string, Calibration> {
    if specs == [] then map[]
    else
      var spec := specs[|specs| - 1];
      Calibrations(specs[..|specs| - 1], es, nodes)[spec.id := ClusterCalibration(es, spec, nodes)]
  }

  // ---- the calibrations as the command computes them ----

  method ClusterMeans(nodes: seq<HarnessNode>) returns (means: map<string, real>)
    ensures forall cid :: cid in means <==> FlakeCount(nodes, cid) > 0
    ensures forall cid :: cid in means ==> means[cid] == Mean(nodes, cid)
  {
    hide FlakeSum, FlakeCount;
    var totals: map<string, (real, nat)> := map[];
    assert nodes[..0] == [];
    NoFlakes();
    for i := 0 to |nodes|
      invariant forall cid :: cid in totals ==> totals[cid] == (FlakeSum(nodes[..i], cid), FlakeCount(nodes[..i], cid))
      invariant forall cid :: cid !in totals ==> FlakeSum(nodes[..i], cid) == 0.0 && FlakeCount(nodes[..i], cid) == 0
    {
      var n := nodes[i];
      forall cid
        ensures FlakeSum(nodes[..i + 1], cid) == FlakeSum(nodes[..i], cid) + if Flakes(n, cid) then n.flakiness.value else 0.0
        ensures FlakeCount(nodes[..i + 1], cid) == FlakeCount(nodes[..i], cid) + if Flakes(n, cid) then 1 else 0
      {
        OneMoreNode(nodes, i, cid);
      }
      if n.cluster.Some? && n.flakiness.Some? {
        var cid := n.cluster.value;
        var entry := if cid in totals then totals[cid] else (0.0, 0);
        totals := totals[cid := (entry.0 + n.flakiness.value, entry.1 + 1)];
      }
    }
    assert nodes[..|nodes|] == nodes;
    means := map cid | cid in totals && totals[cid].1 > 0 :: totals[cid].0 / totals[cid].1 as real;
  }

  lemma NoFlakes()
    ensures forall cid :: FlakeSum([], cid) == 0.0 && FlakeCount([], cid) == 0
  {
  }

  lemma OneMoreNode(nodes: seq<HarnessNode>, i: nat, cid: string)
    requires i < |nodes|
    ensures FlakeSum(nodes[..i + 1], cid)
            == FlakeSum(nodes[..i], cid) + if Flakes(nodes[i], cid) then nodes[i].flakiness.value else 0.0
    ensures FlakeCount(nodes[..i + 1], cid) == FlakeCount(nodes[..i], cid) + if Flakes(nodes[i], cid) then 1 else 0
  {
    assert nodes[..i + 1][..i] == nodes[..i];
  }

  method SpecFlakiness(spec: SpecDescriptor, nodes: seq<HarnessNode>, means: map<string, real>) returns (f: real)
    requires forall cid :: cid in means <==> FlakeCount(nodes, cid) > 0
    requires forall cid :: cid in means ==> means[cid] == Mean(nodes, cid)
    ensures f == Flakiness(spec, nodes)
  {
    hide Matches, FlakeCount, Mean;
    var sum, count := 0.0, 0;
    for i := 0 to |nodes|
      invariant sum == PeerSum(spec, nodes, i) && count == PeerCount(spec, nodes, i)
    {
      var n := nodes[i];
      if Matches(spec, n) {
        if n.cluster.Some? && n.cluster.value in means {
          sum, count := sum + means[n.cluster.value], count + 1;
        }
      }
    }
    f := if count == 0 then 0.0 else sum / count as real;
  }

  method ComputeCalibrations(specs: seq<SpecDescriptor>, es: seq<Event>) returns (out: map<string, Calibration>)
    ensures out == Calibrations(specs, es, [])
    ensures forall id :: id in out ==> IsPlainQuality(out[id].quality, es, id)
  {
    hide IsPlainQuality, FromEvidence, FromClusterEvidence, Caught, Missed, Smells, KillRate, SmellPenalty, Flakiness;
    var caught, missed, smells := Gather(es);
    out := map[];
    for i := 0 to |specs|
      invariant out == Calibrations(specs[..i], es, [])
      invariant forall id :: id in out ==> IsPlainQuality(out[id].quality, es, id)
    {
      assert specs[..i + 1][..i] == specs[..i];
      var id := specs[i].id;
      var killRate := KillRate(Count(caught, id), Count(missed, id));
      var penalty := SmellPenalty(|Set(smells, id)|);
      out := out[id := FromEvidence(killRate, penalty)];
      NoGraphIsBaseline(es, specs[i]);
      QualityByOutcomes(es, id);
    }
    assert specs[..|specs|] == specs;
  }

  method ComputeWithClusters(specs: seq<SpecDescriptor>, es: seq<Event>, nodes: seq<HarnessNode>)
    returns (out: map<string, Calibration>)
    ensures out == Calibrations(specs, es, nodes)
  {
    hide FromClusterEvidence, Caught, Missed, Smells, KillRate, SmellPenalty, Flakiness;
    if nodes == [] {
      out := ComputeCalibrations(specs, es);
      return;
    }
    var means := ClusterMeans(nodes);
    var caught, missed, smells := Gather(es);
    out := map[];
    for i := 0 to |specs|
      invariant out == Calibrations(specs[..i], es, nodes)
    {
      assert specs[..i + 1][..i] == specs[..i];
      var id := specs[i].id;
      var killRate := KillRate(Count(caught, id), Count(missed, id));
      var penalty := SmellPenalty(|Set(smells, id)|);
      var f := SpecFlakiness(specs[i], nodes, means);
      out := out[id := FromClusterEvidence(killRate, penalty, f)];
    }
    assert specs[..|specs|] == specs;
  }

  // ---- what the harness graph can and cannot do ----

  /** Without a graph the calibration is the plain one. */
  lemma NoGraphIsBaseline(es: seq<Event>, spec: SpecDescriptor)
    ensures ClusterCalibration(es, spec, []) == SpecCalibration(es, spec.id)
  {
    hide FromClusterEvidence, FromEvidence, Caught, Missed, Smells, KillRate, SmellPenalty;
    FlakinessNeverRaises(KillRate(Caught(es, spec.id), Missed(es, spec.id)), SmellPenalty(|Smells(es, spec.id)|), 0.0, 0.0);
  }

  /** Whatever the graph holds, it never makes a spec's tests more trusted. */
  lemma GraphNeverRaises(es: seq<Event>, spec: SpecDescriptor, nodes: seq<HarnessNode>)
    ensures ClusterCalibration(es, spec, nodes).quality <= SpecCalibration(es, spec.id).quality
  {
    hide FromClusterEvidence, FromEvidence, Caught, Missed, Smells, KillRate, SmellPenalty, Flakiness;
    var f := Flakiness(spec, nodes);
    FlakinessNeverRaises(KillRate(Caught(es, spec.id), Missed(es, spec.id)), SmellPenalty(|Smells(es, spec.id)|), f, f);
  }

  /**
   A spec keeps its plain calibration exactly when the mean flakiness of its files' clusters is not
   positive, or the plain quality already is at its lowest.
   */
  lemma BaselineExactly(es: seq<Event>, spec: SpecDescriptor, nodes: seq<HarnessNode>)
    ensures ClusterCalibration(es, spec, nodes) == SpecCalibration(es, spec.id)
            <==> Flakiness(spec, nodes) <= 0.0 || SpecCalibration(es, spec.id).quality == 0.3
  {
    hide FromClusterEvidence, FromEvidence, Caught, Missed, Smells, KillRate, SmellPenalty, Flakiness;
    FlakinessIsIdleExactly(KillRate(Caught(es, spec.id), Missed(es, spec.id)), SmellPenalty(|Smells(es, spec.id)|),
                           Flakiness(spec, nodes));
  }

  /** A spec none of whose files sits in a flaky cluster keeps its plain calibration. */
  lemma StableClustersAreBaseline(es: seq<Event>, spec: SpecDescriptor, nodes: seq<HarnessNode>)
    requires forall n :: n in nodes && IsPeer(spec, nodes, n) ==> Mean(nodes, n.cluster.value) == 0.0
    ensures ClusterCalibration(es, spec, nodes) == SpecCalibration(es, spec.id)
  {
    hide FromClusterEvidence, FromEvidence, Caught, Missed, Smells, KillRate, SmellPenalty;
    NothingToSum(spec, nodes, |nodes|);
    FlakinessNeverRaises(KillRate(Caught(es, spec.id), Missed(es, spec.id)), SmellPenalty(|Smells(es, spec.id)|), 0.0, 0.0);
  }

  lemma {:induction false} NothingToSum(spec: SpecDescriptor, nodes: seq<HarnessNode>, k: nat)
    requires k <= |nodes|
    requires forall n :: n in nodes && IsPeer(spec, nodes, n) ==> Mean(nodes, n.cluster.value) == 0.0
    ensures PeerSum(spec, nodes, k) == 0.0
  {
    hide Mean;
    if k > 0 {
      NothingToSum(spec, nodes, k - 1);
      assert nodes[k - 1] in nodes;
    }
  }

  /** A spec none of whose files the graph knows keeps its plain calibration. */
  lemma UnknownFilesAreBaseline(es: seq<Event>, spec: SpecDescriptor, nodes: seq<HarnessNode>)
    requires forall n, k :: n in nodes && 0 <= k < |spec.support| ==> !Under(spec.support[k], n.path)
    ensures ClusterCalibration(es, spec, nodes) == SpecCalibration(es, spec.id)
  {
    hide ClusterCalibration, SpecCalibration, Mean, FlakeCount, Under;
    StableClustersAreBaseline(es, spec, nodes);
  }

  function Many(n: nat, x: real): real {
    n as real * x
  }

  lemma ManyMore(n: nat, x: real)
    ensures Many(n + 1, x) == Many(n, x) + x && Many(0, x) == 0.0
  {
    assert (n + 1) as real == n as real + 1.0;
  }

  /** When all scored files of a cluster score the same, that is the cluster's mean. */
  lemma {:induction false} FlakeSumOfEqual(nodes: seq<HarnessNode>, cid: string, x: real)
    requires forall n :: n in nodes && n.cluster == Some(cid) && n.flakiness.Some? ==> n.flakiness.value == x
    ensures FlakeSum(nodes, cid) == Many(FlakeCount(nodes, cid), x)
  {
    hide Many;
    ManyMore(0, x);
    if nodes != [] {
      var k := |nodes| - 1;
      assert nodes[k] in nodes && forall n :: n in nodes[..k] ==> n in nodes;
      FlakeSumOfEqual(nodes[..k], cid, x);
      ManyMore(FlakeCount(nodes[..k], cid), x);
    }
  }

  lemma {:induction false} FlakeCountPositive(nodes: seq<HarnessNode>, cid: string)
    ensures FlakeCount(nodes, cid) > 0 <==> exists n :: n in nodes && n.cluster == Some(cid) && n.flakiness.Some?
  {
    if nodes != [] {
      var k := |nodes| - 1;
      FlakeCountPositive(nodes[..k], cid);
      assert nodes == nodes[..k] + [nodes[k]];
    }
  }

  lemma MeanOfEqual(nodes: seq<HarnessNode>, cid: string, x: real)
    requires forall n :: n in nodes && n.cluster == Some(cid) && n.flakiness.Some? ==> n.flakiness.value == x
    requires exists n :: n in nodes && n.cluster == Some(cid) && n.flakiness.Some?
    ensures FlakeCount(nodes, cid) > 0 && Mean(nodes, cid) == x
  {
    hide FlakeSum, FlakeCount;
    FlakeSumOfEqual(nodes, cid, x);
    FlakeCountPositive(nodes, cid);
    UniqueQuotient(FlakeSum(nodes, cid), FlakeCount(nodes, cid) as real, x);
  }

  lemma {:induction false} PeerSumOfEqual(spec: SpecDescriptor, nodes: seq<HarnessNode>, k: nat, x: real)
    requires k <= |nodes| && forall n :: n in nodes && IsPeer(spec, nodes, n) ==> Mean(nodes, n.cluster.value) == x
    ensures PeerSum(spec, nodes, k) == Many(PeerCount(spec, nodes, k), x)
    ensures PeerCount(spec, nodes, k) > 0 <==> exists i :: 0 <= i < k && IsPeer(spec, nodes, nodes[i])
  {
    hide IsPeer, Mean, Many;
    ManyMore(0, x);
    if k > 0 {
      PeerSumOfEqual(spec, nodes, k - 1, x);
      assert nodes[k - 1] in nodes;
      ManyMore(PeerCount(spec, nodes, k - 1), x);
    }
  }

  /**
   When every scored file in the graph scores `x`, a spec with a file in one of their clusters loses half of `x`
   of its quality, down to 0.3; files without a score of their own count through the cluster they are in.
   */
  lemma EvenFlakiness(es: seq<Event>, spec: SpecDescriptor, nodes: seq<HarnessNode>, x: real, file: HarnessNode, scored: HarnessNode)
    requires 0.0 <= x <= 1.0 && forall n :: n in nodes && n.flakiness.Some? ==> n.flakiness.value == x
    requires file in nodes && (exists k :: 0 <= k < |spec.support| && Under(spec.support[k], file.path))
    requires scored in nodes && file.cluster.Some? && scored.cluster == file.cluster && scored.flakiness.Some?
    ensures var product := SpecCalibration(es, spec.id).quality * (1.0 - 0.5 * x);
            ClusterCalibration(es, spec, nodes).quality == if product < 0.3 then 0.3 else product
  {
    hide ClusterCalibration, SpecCalibration, Mean, FlakeCount, PeerSum, PeerCount, Under;
    forall n | n in nodes && IsPeer(spec, nodes, n) ensures Mean(nodes, n.cluster.value) == x {
      FlakeCountPositive(nodes, n.cluster.value);
      MeanOfEqual(nodes, n.cluster.value, x);
    }
    FlakeCountPositive(nodes, file.cluster.value);
    assert IsPeer(spec, nodes, file);
    PeerSumOfEqual(spec, nodes, |nodes|, x);
    var i :| 0 <= i < |nodes| && nodes[i] == file;
    UniqueQuotient(PeerSum(spec, nodes, |nodes|), PeerCount(spec, nodes, |nodes|) as real, x);
    assert Flakiness(spec, nodes) == x;
    QualityByFlakiness(es, spec, nodes);
  }

  // ---- which events matter ----

  lemma NotEvidence(e: Event, id: string)
    requires !IsEvidence(e)
    ensures !IsCaught(e, id) && !IsMissed(e, id) && !IsAbout(e, "test_smell_detected", id)
  {
  }

  lemma {:induction false} OtherEventsDoNotCount(es: seq<Event>, more: seq<Event>, id: string)
    requires forall e :: e in more ==> !IsEvidence(e)
    ensures Caught(es + more, id) == Caught(es, id) && Missed(es + more, id) == Missed(es, id)
    ensures Smells(es + more, id) == Smells(es, id)
    decreases |more|
  {
    hide Caught, Missed, Smells, IsCaught, IsMissed, IsAbout, IsEvidence;
    if more == [] {
      assert es + more == es;
    } else {
      var n := |more| - 1;
      OtherEventsDoNotCount(es, more[..n], id);
      var all := es + more;
      assert all[..|all| - 1] == es + more[..n];
      assert all[..|all|] == all;
      OneMoreEvent(all, |all| - 1, id);
      assert all[|all| - 1] in more;
      NotEvidence(all[|all| - 1], id);
    }
  }

  /** Events that are neither mutation results nor smells leave every calibration as it was. */
  lemma {:induction false} CalibrationsIgnoreOtherEvents(specs: seq<SpecDescriptor>, es: seq<Event>, more: seq<Event>, nodes: seq<HarnessNode>)
    requires forall e :: e in more ==> !IsEvidence(e)
    ensures Calibrations(specs, es + more, nodes) == Calibrations(specs, es, nodes)
    decreases |specs|
  {
    hide FromClusterEvidence, Caught, Missed, Smells, KillRate, SmellPenalty, Flakiness;
    if specs != [] {
      CalibrationsIgnoreOtherEvents(specs[..|specs| - 1], es, more, nodes);
      OtherEventsDoNotCount(es, more, specs[|specs| - 1].id);
    }
  }

  // ---- the quality, read off the outcomes in the log ----

  /** How many mutants of a spec were reported with this outcome. */
  ghost function Mutants(es: seq<Event>, id: string, outcome: string): nat {
    if es == [] then 0
    else
      var e := es[|es| - 1];
      Mutants(es[..|es| - 1], id, outcome)
      + if Says(e, "event_kind", "mutation_result") && Says(e, "spec_id", id) && Says(e, "outcome", outcome) then 1 else 0
  }

  ghost predicate IsPlainQuality(q: real, es: seq<Event>, id: string) {
    var caught, n := Mutants(es, id, "caught"), |Smells(es, id)|;
    var all := caught + Mutants(es, id, "missed") + Mutants(es, id, "timeout");
    var rate := if all == 0 then 1.0 else caught as real / all as real;
    var product := rate * if n < 5 then 1.0 - 0.15 * n as real else 0.3;
    q == if product < 0.3 then 0.3 else product
  }

  lemma {:induction false} CountedByOutcome(es: seq<Event>, id: string)
    ensures Caught(es, id) == Mutants(es, id, "caught")
    ensures Missed(es, id) == Mutants(es, id, "missed") + Mutants(es, id, "timeout")
  {
    hide IsCaught, IsMissed, Says;
    if es != [] {
      CountedByOutcome(es[..|es| - 1], id);
      OutcomeOf(es[|es| - 1], id);
    }
  }

  lemma OutcomeOf(e: Event, id: string)
    ensures IsCaught(e, id) <==> Says(e, "event_kind", "mutation_result") && Says(e, "spec_id", id) && Says(e, "outcome", "caught")
    ensures IsMissed(e, id) <==> Says(e, "event_kind", "mutation_result") && Says(e, "spec_id", id)
                                 && (Says(e, "outcome", "missed") || Says(e, "outcome", "timeout"))
    ensures !(Says(e, "outcome", "missed") && Says(e, "outcome", "timeout"))
  {
    assert "missed"[0] == 'm' && "timeout"[0] == 't';
  }

  /** Smells are told apart by the test and the kind that are reported, a missing one read as empty. */
  lemma SmellsByName(es: seq<Event>, id: string, name: string)
    ensures name in Smells(es, id) <==>
            exists e :: e in es && Says(e, "event_kind", "test_smell_detected") && Says(e, "spec_id", id)
                        && name == (if "test_fn" in e.attrs then e.attrs["test_fn"] else "") + "|"
                                   + if "smell_kind" in e.attrs then e.attrs["smell_kind"] else ""
  {
  }

  lemma ProductAtMostOne(x: real, y: real)
    requires 0.0 <= x <= 1.0 && 0.0 <= y <= 1.0
    ensures 0.0 <= x * y <= 1.0
  {
    Product(1.0 - x, y);
    Product(x, y);
  }

  /** The share of the killed mutants times the penalty for the smells, but no less than 0.3. */
  lemma QualityByOutcomes(es: seq<Event>, id: string)
    ensures IsPlainQuality(SpecCalibration(es, id).quality, es, id)
  {
    hide Caught, Missed, Smells, Mutants;
    CountedByOutcome(es, id);
    KillRateRange(Caught(es, id), Missed(es, id));
    ProductAtMostOne(KillRate(Caught(es, id), Missed(es, id)), SmellPenalty(|Smells(es, id)|));
  }

  /** A graph takes off half of the flakiness of the spec's clusters, down to the same 0.3. */
  lemma QualityByFlakiness(es: seq<Event>, spec: SpecDescriptor, nodes: seq<HarnessNode>)
    ensures var base, f := SpecCalibration(es, spec.id).quality, Flakiness(spec, nodes);
            var product := base * (1.0 - 0.5 * if f < 0.0 then 0.0 else if f > 1.0 then 1.0 else f);
            ClusterCalibration(es, spec, nodes).quality == if product < 0.3 then 0.3 else product
  {
    hide Caught, Missed, Smells, Flakiness, KillRate, SmellPenalty;
    var base, f := SpecCalibration(es, spec.id).quality, Flakiness(spec, nodes);
    ProductAtMostOne(base, 1.0 - 0.5 * if f < 0.0 then 0.0 else if f > 1.0 then 1.0 else f);
  }

  // ---- evidence moves trust the right way ----

  lemma KillRateMoves(c: nat, m: nat)
    ensures KillRate(c, m) <= KillRate(c + 1, m) && KillRate(c, m + 1) <= KillRate(c, m)
  {
    var x, t := c as real, (c + m) as real;
    assert (c + m + 1) as real == t + 1.0 && (c + 1) as real == x + 1.0;
    if c + m == 0 {
      UniqueQuotient(1.0, 1.0, 1.0);
      Quotient(x, t + 1.0);
      assert KillRate(c, m + 1) == x / (t + 1.0);
    } else {
      Quotient(x, t);
      Quotient(x, t + 1.0);
      Quotient(x + 1.0, t + 1.0);
      CrossMultiply(x / t, (x + 1.0) / (t + 1.0), x, t, x + 1.0, t + 1.0);
      CrossMultiply(x / (t + 1.0), x / t, x, t + 1.0, x, t);
    }
  }

  lemma QualityGrows(low: real, high: real, penalty: real)
    requires low <= high && penalty >= 0.0
    ensures FromEvidence(low, penalty).quality <= FromEvidence(high, penalty).quality
  {
    Product(high - low, penalty);
    assert low * penalty <= high * penalty;
  }

  /** A killed mutant never lowers the quality and a surviving one never raises it. */
  lemma MutantsMoveQuality(c: nat, m: nat, penalty: real)
    requires penalty >= 0.0
    ensures FromEvidence(KillRate(c, m), penalty).quality <= FromEvidence(KillRate(c + 1, m), penalty).quality
    ensures FromEvidence(KillRate(c, m + 1), penalty).quality <= FromEvidence(KillRate(c, m), penalty).quality
  {
    hide KillRate, FromEvidence;
    KillRateMoves(c, m);
    QualityGrows(KillRate(c, m), KillRate(c + 1, m), penalty);
    QualityGrows(KillRate(c, m + 1), KillRate(c, m), penalty);
  }

  /** One more distinct smell never raises the quality. */
  lemma SmellsLowerQuality(killRate: real, n: nat)
    requires killRate >= 0.0
    ensures FromEvidence(killRate, SmellPenalty(n + 1)).quality <= FromEvidence(killRate, SmellPenalty(n)).quality
  {
    Product(killRate, SmellPenalty(n) - SmellPenalty(n + 1));
  }

  /** A spec without evidence of its own gets exactly the prototype's sensor, whatever else the log holds. */
  lemma NoEvidenceIsPrototype(es: seq<Event>, id: string)
    requires forall e :: e in es ==> !IsCaught(e, id) && !IsMissed(e, id) && !IsAbout(e, "test_smell_detected", id)
    ensures SpecCalibration(es, id) == PROTOTYPE
  {
    NoneCounted(es, id);
    FullTrustExactly(es, id);
  }

  lemma {:induction false} NoneCounted(es: seq<Event>, id: string)
    requires forall e :: e in es ==> !IsCaught(e, id) && !IsMissed(e, id) && !IsAbout(e, "test_smell_detected", id)
    ensures Caught(es, id) == 0 && Missed(es, id) == 0 && Smells(es, id) == {}
  {
    hide IsCaught, IsMissed, IsAbout, SmellKey;
    if es != [] {
      assert es[|es| - 1] in es;
      NoneCounted(es[..|es| - 1], id);
    }
  }

  /** The prototype's sensor is given exactly to the specs no mutant survived for and no smell was reported of. */
  lemma FullTrustExactly(es: seq<Event>, id: string)
    ensures SpecCalibration(es, id) == PROTOTYPE <==> Missed(es, id) == 0 && Smells(es, id) == {}
  {
    hide IsCaught, IsMissed, IsAbout, SmellKey, Caught, Missed, Smells;
    var c, m, n := Caught(es, id), Missed(es, id), |Smells(es, id)|;
    KillRateRange(c, m);
    QualityOne(KillRate(c, m), SmellPenalty(n));
  }

  lemma KillRateRange(c: nat, m: nat)
    ensures 0.0 <= KillRate(c, m) <= 1.0 && (KillRate(c, m) == 1.0 <==> m == 0)
  {
    if c + m > 0 {
      var x, t := c as real, (c + m) as real;
      assert t == x + m as real;
      Quotient(x, t);
      var q := x / t;
      assert q * t == x;
      if q >= 1.0 { Product(q - 1.0, t); }
      if m == 0 { UniqueQuotient(x, t, 1.0); }
    }
  }

  lemma QualityOne(killRate: real, penalty: real)
    requires 0.0 <= killRate <= 1.0 && 0.0 <= penalty <= 1.0
    ensures FromEvidence(killRate, penalty) == PROTOTYPE <==> killRate == 1.0 && penalty == 1.0
  {
    Product(1.0 - killRate, penalty);
    assert killRate * penalty == penalty - (1.0 - killRate) * penalty;
    if killRate < 1.0 && penalty == 1.0 { assert killRate * penalty == killRate; }
    if killRate == 1.0 && penalty == 1.0 { assert killRate * penalty == 1.0; }
  }
}
