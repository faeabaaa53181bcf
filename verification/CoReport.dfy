/** `compute_report`: which commits touch which specs, pair counts, and the proposed edges. */
module CoReport {
  import opened Graph
  import opened Ordering
  import opened Calibrate
  import opened Specs
  import opened PairCounting

  datatype CalibrationReport = CalibrationReport(
    commitsAnalysed: nat, commitsWithSpecActivity: nat, specActivity: map<string, nat>,
    edges: seq<CoEdge>, droppedCycleEdges: seq<CoEdge>)

  // ---- which specs a commit touches ----

  predicate Touches(spec: SpecDescriptor, files: seq<string>) {
    exists i, j :: 0 <= i < |spec.support| && 0 <= j < |files| && Under(spec.support[i], files[j])
  }

  ghost function Touched(specs: seq<SpecDescriptor>, files: seq<string>): set<string> {
    set i | 0 <= i < |specs| && Touches(specs[i], files) :: specs[i].id
  }

  /** A commit touches a spec if and only if one of its files lies at or below a support entry, component by component. */
  lemma TouchedByComponents(specs: seq<SpecDescriptor>, files: seq<string>, id: string)
    ensures id in Touched(specs, files) <==>
            exists i, s, f :: 0 <= i < |specs| && specs[i].id == id && s in specs[i].support && f in files
                              && Components(TrimSlashes(s)) <= Components(f)
  {
    hide Under, Components, TrimSlashes;
    if id in Touched(specs, files) {
      var i :| 0 <= i < |specs| && Touches(specs[i], files) && specs[i].id == id;
      var j, k :| 0 <= j < |specs[i].support| && 0 <= k < |files| && Under(specs[i].support[j], files[k]);
      UnderIsComponentPrefix(specs[i].support[j], files[k]);
    }
    if i, s, f :| 0 <= i < |specs| && specs[i].id == id && s in specs[i].support && f in files
                  && Components(TrimSlashes(s)) <= Components(f)
    {
      UnderIsComponentPrefix(s, f);
      var j :| 0 <= j < |specs[i].support| && specs[i].support[j] == s;
      var k :| 0 <= k < |files| && files[k] == f;
      assert Touches(specs[i], files);
    }
  }

  // ---- the counts, by their meaning ----

  ghost function CoCount(specs: seq<SpecDescriptor>, commits: seq<seq<string>>, a: string, b: string): nat {
    if commits == [] then 0
    else
      var t := Touched(specs, commits[|commits| - 1]);
      CoCount(specs, commits[..|commits| - 1], a, b) + if a in t && b in t then 1 else 0
  }

  ghost function ActiveCount(specs: seq<SpecDescriptor>, commits: seq<seq<string>>): nat {
    if commits == [] then 0
    else ActiveCount(specs, commits[..|commits| - 1]) + if Touched(specs, commits[|commits| - 1]) != {} then 1 else 0
  }

  ghost predicate TouchesBoth(specs: seq<SpecDescriptor>, files: seq<string>, a: string, b: string) {
    a in Touched(specs, files) && b in Touched(specs, files)
  }

  ghost predicate TouchesAny(specs: seq<SpecDescriptor>, files: seq<string>) {
    exists id :: id in Touched(specs, files)
  }

  ghost function CommitsTouching(specs: seq<SpecDescriptor>, commits: seq<seq<string>>, a: string, b: string): set<nat> {
    set i: nat | i < |commits| && TouchesBoth(specs, commits[i], a, b)
  }

  ghost function CommitsActive(specs: seq<SpecDescriptor>, commits: seq<seq<string>>): set<nat> {
    set i: nat | i < |commits| && TouchesAny(specs, commits[i])
  }

  /** The count of a pair is the number of commits that touch both. */
  lemma {:induction false} CountIsCommits(specs: seq<SpecDescriptor>, commits: seq<seq<string>>, a: string, b: string)
    ensures CoCount(specs, commits, a, b) == |CommitsTouching(specs, commits, a, b)|
    decreases |commits|
  {
    hide Touched;
    if commits != [] {
      var k := |commits| - 1;
      CountIsCommits(specs, commits[..k], a, b);
      var both := TouchesBoth(specs, commits[k], a, b);
      assert CoCount(specs, commits, a, b) == CoCount(specs, commits[..k], a, b) + if both then 1 else 0;
      hide TouchesBoth;
      assert CommitsTouching(specs, commits, a, b) == CommitsTouching(specs, commits[..k], a, b) + if both then {k} else {};
    }
  }

  /** And the count of activity is the number of commits that touch any spec. */
  lemma {:induction false} ActiveIsCommits(specs: seq<SpecDescriptor>, commits: seq<seq<string>>)
    ensures ActiveCount(specs, commits) == |CommitsActive(specs, commits)|
    decreases |commits|
  {
    hide Touched;
    if commits != [] {
      var k := |commits| - 1;
      ActiveIsCommits(specs, commits[..k]);
      var any := TouchesAny(specs, commits[k]);
      assert ActiveCount(specs, commits) == ActiveCount(specs, commits[..k]) + if any then 1 else 0;
      hide TouchesAny;
      assert CommitsActive(specs, commits) == CommitsActive(specs, commits[..k]) + if any then {k} else {};
    }
  }

  // ---- the loops ----

  method TouchedBy(specs: seq<SpecDescriptor>, files: seq<string>) returns (t: set<string>)
    ensures t == Touched(specs, files)
  {
    t := {};
    for i := 0 to |specs|
      invariant t == Touched(specs[..i], files)
    {
      assert specs[..i + 1] == specs[..i] + [specs[i]];
      assert Touched(specs[..i + 1], files) == Touched(specs[..i], files) + if Touches(specs[i], files) then {specs[i].id} else {};
      if Touches(specs[i], files) {
        t := t + {specs[i].id};
      }
    }
    assert specs[..|specs|] == specs;
  }

  // ---- the whole report ----

  /** Most co-commits first, then by source, then by destination. */
  predicate CoEdgeBefore(x: CoEdge, y: CoEdge) {
    || x.coCommits > y.coCommits
    || (x.coCommits == y.coCommits && (StringLess(x.src, y.src) || (x.src == y.src && StringLess(x.dst, y.dst))))
  }

  lemma CoEdgeOrder()
    ensures StrictOrder(CoEdgeBefore)
  {
    hide StringLess;
    StringLessIsOrder();
  }

  /** What the counting loop knows after some commits. */
  ghost predicate Counted(specs: seq<SpecDescriptor>, commits: seq<seq<string>>, co: PairCounts) {
    && (forall a, b :: PairCount(co, a, b) == if StringLess(a, b) then CoCount(specs, commits, a, b) else 0)
    && (forall k :: k in co ==> StringLess(k.0, k.1) && co[k] > 0)
  }

  ghost predicate ActivityCounted(specs: seq<SpecDescriptor>, commits: seq<seq<string>>, activity: map<string, nat>) {
    forall a :: KeyCount(activity, a) == CoCount(specs, commits, a, a)
  }

  lemma CountOneCommit(specs: seq<SpecDescriptor>, commits: seq<seq<string>>, i: nat, v: seq<string>, co: PairCounts, r: PairCounts)
    requires i < |commits| && IsAscending(StringLess, v) && StrictOrder(StringLess)
    requires forall a :: a in v <==> a in Touched(specs, commits[i])
    requires Counted(specs, commits[..i], co) && PairsAdded(co, v, |v|, 0, r)
    ensures Counted(specs, commits[..i + 1], r)
  {
    hide StringLess, Touched, Visited, IsAscending, StrictOrder;
    assert commits[..i + 1][..i] == commits[..i];
    forall a, b
      ensures PairCount(r, a, b) == if StringLess(a, b) then CoCount(specs, commits[..i + 1], a, b) else 0
    {
      AllPairsVisited(v, a, b);
    }
    forall k | k in r ensures StringLess(k.0, k.1) && r[k] > 0 {
      AllPairsVisited(v, k.0, k.1);
      assert r[k] == PairCount(r, k.0, k.1);
    }
  }

  method CountCommits(specs: seq<SpecDescriptor>, commits: seq<seq<string>>)
    returns (activity: map<string, nat>, co: PairCounts, active: nat)
    ensures Counted(specs, commits, co) && ActivityCounted(specs, commits, activity)
    ensures active == ActiveCount(specs, commits)
  {
    hide Counted, PairsAdded, Touched, StringLess, IsAscending;
    StringLessIsOrder();
    activity, co, active := map[], map[], 0;
    NothingCounted(specs);
    assert commits[..0] == [];
    for i := 0 to |commits|
      invariant Counted(specs, commits[..i], co) && ActivityCounted(specs, commits[..i], activity)
      invariant active == ActiveCount(specs, commits[..i])
    {
      assert commits[..i + 1][..i] == commits[..i];
      var touched := TouchedBy(specs, commits[i]);
      var v := SortKeys(StringLess, touched);
      AscendingElements(StringLess, touched);
      NoPairs(co, v);
      var next := co;
      if touched != {} {
        active := active + 1;
        DistinctAscending(v);
        activity := CountActivity(activity, v);
        next := CountPairs(co, v);
      }
      CountOneCommit(specs, commits, i, v, co, next);
      co := next;
    }
    assert commits[..|commits|] == commits;
  }

  lemma NothingCounted(specs: seq<SpecDescriptor>)
    ensures Counted(specs, [], map[])
  {
  }

  /** The edges the counts justify. */
  ghost predicate Proposed(specs: seq<SpecDescriptor>, commits: seq<seq<string>>, minCommits: nat, e: CoEdge) {
    && StringLess(e.src, e.dst)
    && e.coCommits == CoCount(specs, commits, e.src, e.dst)
    && e.coCommits > 0 && e.coCommits >= minCommits
  }

  method Propose(co: PairCounts, minCommits: nat) returns (proposed: seq<CoEdge>)
    ensures StrictOrder(CoEdgeBefore)
    ensures IsAscending(CoEdgeBefore, proposed)
    ensures forall e :: e in proposed <==> (e.src, e.dst) in co && e.coCommits == co[(e.src, e.dst)] && e.coCommits >= minCommits
  {
    hide CoEdgeBefore, StrictOrder;
    CoEdgeOrder();
    var found := set k | k in co && co[k] >= minCommits :: CoEdge(k.0, k.1, co[k]);
    AscendingElements(CoEdgeBefore, found);
    proposed := SortKeys(CoEdgeBefore, found);
  }

  /** More co-commits, or as many and the ends in order, by positions. */
  ghost predicate ListedBefore(x: CoEdge, y: CoEdge) {
    || x.coCommits > y.coCommits
    || (x.coCommits == y.coCommits && (ComesBefore(x.src, y.src) || (x.src == y.src && ComesBefore(x.dst, y.dst))))
  }

  lemma InOrder(edges: seq<CoEdge>, i: nat, j: nat)
    requires IsAscending(CoEdgeBefore, edges) && i < j < |edges|
    ensures ListedBefore(edges[i], edges[j])
  {
    hide StringLess, ComesBefore;
    var x, y := edges[i], edges[j];
    assert CoEdgeBefore(x, y);
    StringLessByPosition(x.src, y.src);
    StringLessByPosition(x.dst, y.dst);
  }

  /**
   Exactly one edge per pair `a < b` with enough co-commits and at least one, carrying the exact
   count, most first; nothing is dropped and the result has no cycle. Every edge leaves the id that comes first:
   a proper prefix of the other, or the one with the smaller character where they first differ.
   */
  method ComputeReport(specs: seq<SpecDescriptor>, commits: seq<seq<string>>, minCommits: nat) returns (report: CalibrationReport)
    ensures forall e :: e in report.edges <==> Proposed(specs, commits, minCommits, e)
    ensures forall e :: e in report.edges <==>
              && ComesBefore(e.src, e.dst) && e.coCommits == CoCount(specs, commits, e.src, e.dst)
              && e.coCommits > 0 && e.coCommits >= minCommits
    ensures IsAscending(CoEdgeBefore, report.edges) && report.droppedCycleEdges == []
    ensures forall i, j :: 0 <= i < j < |report.edges| ==>
              ListedBefore(report.edges[i], report.edges[j])
    ensures Acyclic(EdgesOf(report.edges))
    ensures ActivityCounted(specs, commits, report.specActivity)
    ensures report.commitsAnalysed == |commits| && report.commitsWithSpecActivity == ActiveCount(specs, commits)
  {
    hide CoEdgeBefore, StrictOrder, Acyclic, Greedy, IsAscending, StringLess, ComesBefore;
    var activity, co, active := CountCommits(specs, commits);
    var proposed := Propose(co, minCommits);
    forall e ensures e in proposed <==> Proposed(specs, commits, minCommits, e) {
      assert PairCount(co, e.src, e.dst) == if StringLess(e.src, e.dst) then CoCount(specs, commits, e.src, e.dst) else 0;
    }
    AlphabeticalIsAcyclic(EdgesOf(proposed));
    GreedyKeepsAcyclic(proposed);
    var kept, dropped := GreedyFilter(proposed);
    report := CalibrationReport(|commits|, active, activity, kept, dropped);
    forall e: CoEdge ensures StringLess(e.src, e.dst) <==> ComesBefore(e.src, e.dst) {
      StringLessByPosition(e.src, e.dst);
    }
    forall i, j | 0 <= i < j < |kept| ensures ListedBefore(kept[i], kept[j]) {
      InOrder(kept, i, j);
    }
  }

  /** Two listed edges never share a pair. */
  lemma OneEdgePerPair(specs: seq<SpecDescriptor>, commits: seq<seq<string>>, minCommits: nat, edges: seq<CoEdge>, i: nat, j: nat)
    requires forall e :: e in edges <==> Proposed(specs, commits, minCommits, e)
    requires IsAscending(CoEdgeBefore, edges) && i < j < |edges|
    ensures edges[i].src != edges[j].src || edges[i].dst != edges[j].dst
  {
    assert edges[i] in edges && edges[j] in edges && CoEdgeBefore(edges[i], edges[j]);
    CoEdgeOrder();
  }
}
