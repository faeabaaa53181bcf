/**
 What the comments of the co-failure enrichment promise and its code does not do: leaving skipped outcomes
 out of the association's shares, and discounting the score of two flaky tests. For each, exactly when it
 makes no difference; and what the flakiness score divides by.
 */
module FlakyPromises {
  import opened Harness
  import opened Options
  import opened Ordering
  import opened Beliefs
  import opened Flaky

  // ---- how often a test passed or was skipped ----

  predicate Has(run: TestRun, t: string, x: Outcome) {
    t in run.outcomes && run.outcomes[t] == x
  }

  ghost function PassRuns(runs: seq<TestRun>, t: string): nat {
    if runs == [] then 0
    else PassRuns(runs[..|runs| - 1], t) + if Has(runs[|runs| - 1], t, Pass) then 1 else 0
  }

  ghost function SkipRuns(runs: seq<TestRun>, t: string): nat {
    if runs == [] then 0
    else SkipRuns(runs[..|runs| - 1], t) + if Has(runs[|runs| - 1], t, Skip) then 1 else 0
  }

  /** The runs that skip both tests. */
  ghost function SkipBoth(runs: seq<TestRun>, a: string, b: string): nat {
    if runs == [] then 0
    else
      var run := runs[|runs| - 1];
      SkipBoth(runs[..|runs| - 1], a, b) + if Has(run, a, Skip) && Has(run, b, Skip) then 1 else 0
  }

  /** The runs that skip neither. */
  ghost function SkipNeither(runs: seq<TestRun>, a: string, b: string): nat {
    if runs == [] then 0
    else
      var run := runs[|runs| - 1];
      SkipNeither(runs[..|runs| - 1], a, b) + if Has(run, a, Skip) || Has(run, b, Skip) then 0 else 1
  }

  ghost predicate NeverSkipped(runs: seq<TestRun>, t: string) {
    forall i :: 0 <= i < |runs| ==> !Has(runs[i], t, Skip)
  }

  /** A test is seen as often as it fails, passes and is skipped. */
  lemma {:induction false} SeenIsOneOfThree(runs: seq<TestRun>, t: string)
    ensures SeenRuns(runs, t) == FailRuns(runs, t) + PassRuns(runs, t) + SkipRuns(runs, t)
    ensures SkipRuns(runs, t) == 0 <==> NeverSkipped(runs, t)
  {
    if runs != [] {
      var front, last := runs[..|runs| - 1], runs[|runs| - 1];
      SeenIsOneOfThree(front, t);
      assert t in Fails(last) <==> Has(last, t, Fail);
      assert NeverSkipped(runs, t) <==> NeverSkipped(front, t) && !Has(last, t, Skip);
    }
  }

  // ---- the score ----

  /** Failures over all appearances, before rounding; nothing is written for a test never seen. */
  ghost function WrittenShare(runs: seq<TestRun>, t: string): Option<real> {
    if SeenRuns(runs, t) == 0 then None else Some(FailRuns(runs, t) as real / SeenRuns(runs, t) as real)
  }

  /** Failures over all runs. */
  ghost function ShareOfRuns(runs: seq<TestRun>, t: string): real
    requires runs != []
  {
    FailRuns(runs, t) as real / |runs| as real
  }

  /** Failures over passes and failures only. */
  ghost function ShareOfJudged(runs: seq<TestRun>, t: string): Option<real> {
    var judged := FailRuns(runs, t) + PassRuns(runs, t);
    if judged == 0 then None else Some(FailRuns(runs, t) as real / judged as real)
  }

  /** What the score of a node is a rounding of; a test that is only skipped scores zero. */
  lemma ScoreIsShare(nodes: seq<HarnessNode>, i: nat, runs: seq<TestRun>, o: Settings)
    requires i < |nodes| && |runs| >= o.minRuns
    ensures var share := WrittenShare(runs, nodes[i].path);
      && ScoredNodes(nodes, runs, o)[i].flakiness == (if share.Some? then Some(o.round4(share.value)) else nodes[i].flakiness)
      && (SeenRuns(runs, nodes[i].path) > 0 && FailRuns(runs, nodes[i].path) == 0 ==> share == Some(0.0))
  {
  }

  /** Dividing by all runs gives the same exactly for tests that appear in every run, and those seen that never fail. */
  lemma ScoreOverAllRuns(runs: seq<TestRun>, t: string)
    requires runs != []
    ensures WrittenShare(runs, t) == Some(ShareOfRuns(runs, t))
            <==> SeenRuns(runs, t) == |runs| || (SeenRuns(runs, t) > 0 && FailRuns(runs, t) == 0)
  {
    SeenIsOneOfThree(runs, t);
    SeenIsAtMostRuns(runs, t);
    var seen := SeenRuns(runs, t);
    if seen > 0 { SharesAgree(FailRuns(runs, t), seen - FailRuns(runs, t), |runs| - seen); }
  }

  lemma {:induction false} SeenIsAtMostRuns(runs: seq<TestRun>, t: string)
    ensures SeenRuns(runs, t) <= |runs|
  {
    if runs != [] { SeenIsAtMostRuns(runs[..|runs| - 1], t); }
  }

  /** Leaving skips out of the score gives the same exactly for tests never skipped, and those that pass and never fail. */
  lemma ScoreWithoutSkips(runs: seq<TestRun>, t: string)
    ensures WrittenShare(runs, t) == ShareOfJudged(runs, t)
            <==> NeverSkipped(runs, t) || (FailRuns(runs, t) == 0 && PassRuns(runs, t) > 0)
  {
    hide NeverSkipped;
    SeenIsOneOfThree(runs, t);
    if FailRuns(runs, t) + PassRuns(runs, t) > 0 {
      SharesAgree(FailRuns(runs, t), PassRuns(runs, t), SkipRuns(runs, t));
    }
  }

  lemma SharesAgree(fails: nat, others: nat, more: nat)
    requires fails + others > 0
    ensures fails as real / (fails + others + more) as real == fails as real / (fails + others) as real
            <==> more == 0 || fails == 0
  {
    var f, x, y := fails as real, (fails + others) as real, (fails + others + more) as real;
    assert y == x + more as real;
    Quotient(f, x);
    Quotient(f, y);
    if f / y == f / x {
      assert f / x * y == f / x * x + f / x * more as real;
      if more > 0 { ZeroFactor(f / x, more as real); }
    }
    if fails == 0 {
      UniqueQuotient(0.0, x, 0.0);
      UniqueQuotient(0.0, y, 0.0);
    }
  }

  // ---- the association ----

  lemma {:induction false} SkipsAddUp(runs: seq<TestRun>, a: string, b: string)
    ensures SkipNeither(runs, a, b) + SkipRuns(runs, a) + SkipRuns(runs, b) == |runs| + SkipBoth(runs, a, b)
  {
    if runs != [] { SkipsAddUp(runs[..|runs| - 1], a, b); }
  }

  /** A run in which both tests fail skips neither. */
  lemma {:induction false} JointNotSkipped(nodes: seq<HarnessNode>, runs: seq<TestRun>, a: string, b: string)
    ensures Joint(nodes, runs, a, b) <= SkipNeither(runs, a, b)
    ensures SkipNeither(runs, a, b) + SkipRuns(runs, a) <= |runs| && SkipNeither(runs, a, b) + SkipRuns(runs, b) <= |runs|
  {
    if runs != [] {
      JointNotSkipped(nodes, runs[..|runs| - 1], a, b);
      var g := Genuine(nodes, runs[|runs| - 1]);
      assert a in g ==> Has(runs[|runs| - 1], a, Fail);
      assert b in g ==> Has(runs[|runs| - 1], b, Fail);
    }
  }

  /** The association with each share taken over the runs that skip neither of the tests it is about. */
  function PromisedAssociation(joint: nat, failsA: nat, failsB: nat, runsA: nat, runsB: nat, runsBoth: nat): real
    requires failsA > 0 && failsB > 0 && runsA > 0 && runsB > 0 && runsBoth > 0
  {
    PositiveShares(failsA as real, failsB as real, runsA as real, runsB as real);
    joint as real / runsBoth as real / ((failsA as real / runsA as real) * (failsB as real / runsB as real))
  }

  lemma PositiveShares(a: real, b: real, m: real, n: real)
    requires a > 0.0 && b > 0.0 && m > 0.0 && n > 0.0
    ensures (a / m) * (b / n) != 0.0
  {
    Quotient(a, m);
    Quotient(b, n);
    Multiply(a / m, b / n);
  }

  lemma PromisedTimes(j: real, a: real, b: real, m: real, n: real, k: real, r: real)
    requires j > 0.0 && a > 0.0 && b > 0.0 && m > 0.0 && n > 0.0 && k > 0.0
    requires (a / m) * (b / n) != 0.0 && r == j / k / ((a / m) * (b / n))
    ensures r * (a * b) * k == j * (m * n)
  {
    var p, q, s := a / m, b / n, j / k;
    Quotient(a, m);
    Quotient(b, n);
    Quotient(j, k);
    Multiply(p, q);
    Quotient(s, p * q);
    assert r * (p * q) == s;
    TimesOut(r, p, q, s, m, n, k, a, b, j);
  }

  lemma TimesOut(r: real, p: real, q: real, s: real, m: real, n: real, k: real, a: real, b: real, j: real)
    requires p * m == a && q * n == b && s * k == j && r * (p * q) == s
    ensures r * (a * b) * k == j * (m * n)
  {
    assert a * b == p * q * (m * n);
    assert r * (a * b) == r * (p * q) * (m * n);
    assert s * (m * n) * k == s * k * (m * n);
  }

  /**
   The association of a pair that failed together is the promised one if and only if the tests are skipped
   together exactly as often as independent skips would be.
   */
  lemma AssociationAsPromised(nodes: seq<HarnessNode>, runs: seq<TestRun>, a: string, b: string)
    requires Joint(nodes, runs, a, b) > 0
    ensures var n, j := |runs|, Joint(nodes, runs, a, b);
      var sa, sb, both := SkipRuns(runs, a), SkipRuns(runs, b), SkipNeither(runs, a, b);
      && n > 0 && FailRuns(runs, a) > 0 && FailRuns(runs, b) > 0 && n - sa > 0 && n - sb > 0 && both > 0
      && Chance(FailRuns(runs, a), FailRuns(runs, b), n) != 0.0
      && (Association(j, FailRuns(runs, a), FailRuns(runs, b), n)
          == PromisedAssociation(j, FailRuns(runs, a), FailRuns(runs, b), n - sa, n - sb, both)
          <==> sa * sb == n * SkipBoth(runs, a, b))
  {
    hide Joint, FailRuns, SkipRuns, SkipBoth, SkipNeither, Association, PromisedAssociation, Chance;
    var n, j, fa, fb := |runs|, Joint(nodes, runs, a, b), FailRuns(runs, a), FailRuns(runs, b);
    var sa, sb, sab, both := SkipRuns(runs, a), SkipRuns(runs, b), SkipBoth(runs, a, b), SkipNeither(runs, a, b);
    JointIsAtMostFails(nodes, runs, a, b);
    JointNotSkipped(nodes, runs, a, b);
    SkipsAddUp(runs, a, b);
    ChanceIsPositive(fa, fb, n);
    AssociationsAgree(j, fa, fb, n, n - sa, n - sb, both);
    RunsAndSkips(n, sa, sb, sab, both);
  }

  lemma ChanceIsPositive(failsA: nat, failsB: nat, nRuns: nat)
    requires failsA > 0 && failsB > 0 && nRuns > 0
    ensures Chance(failsA, failsB, nRuns) != 0.0
  {
    PositiveShares(failsA as real, failsB as real, nRuns as real, nRuns as real);
  }

  lemma RunsAndSkips(n: nat, sa: nat, sb: nat, sab: nat, both: nat)
    requires both + sa + sb == n + sab
    ensures (n - sa) * (n - sb) == n * both <==> sa * sb == n * sab
  {
    assert (n - sa) * (n - sb) == n * n - n * sa - n * sb + sa * sb;
    assert n * both == n * n + n * sab - n * sa - n * sb;
  }

  lemma AssociationsAgree(joint: nat, failsA: nat, failsB: nat, n: nat, runsA: nat, runsB: nat, both: nat)
    requires joint > 0 && failsA > 0 && failsB > 0 && n > 0 && runsA > 0 && runsB > 0 && both > 0
    requires Chance(failsA, failsB, n) != 0.0
    ensures Association(joint, failsA, failsB, n) == PromisedAssociation(joint, failsA, failsB, runsA, runsB, both)
            <==> runsA * runsB == n * both
  {
    var j, a, b, r := joint as real, failsA as real, failsB as real, n as real;
    var m, k, t := runsA as real, runsB as real, both as real;
    var x := Association(joint, failsA, failsB, n);
    var y := PromisedAssociation(joint, failsA, failsB, runsA, runsB, both);
    PositiveShares(a, b, r, r);
    PositiveShares(a, b, m, k);
    PromisedTimes(j, a, b, r, r, r, x);
    PromisedTimes(j, a, b, m, k, t, y);
    Products(runsA, runsB, n, both);
    hide Association, PromisedAssociation;
    Multiply(a, b);
    SameAssociation(x, y, a * b, j, r, m * k, t);
  }

  lemma Products(x: nat, y: nat, u: nat, v: nat)
    ensures x * y == u * v <==> x as real * y as real == u as real * v as real
  {
    assert (x * y) as real == x as real * y as real && (u * v) as real == u as real * v as real;
  }

  lemma SameAssociation(x: real, y: real, c: real, j: real, r: real, p: real, t: real)
    requires c > 0.0 && j > 0.0 && r > 0.0 && t > 0.0
    requires x * c * r == j * (r * r) && y * c * t == j * p
    ensures x == y <==> p == r * t
  {
    assert (x * c - j * r) * r == 0.0;
    assert x * c == j * r by { ZeroFactor(x * c - j * r, r); }
    if x == y {
      assert j * r * t == j * p;
      assert j * (r * t - p) == 0.0;
      ZeroFactor(r * t - p, j);
    }
    if p == r * t {
      assert (y * c - j * r) * t == 0.0;
      ZeroFactor(y * c - j * r, t);
      assert (x - y) * c == 0.0;
      ZeroFactor(x - y, c);
    }
  }

  lemma ZeroFactor(d: real, c: real)
    requires c > 0.0 && (d * c == 0.0 || c * d == 0.0)
    ensures d == 0.0
  {
    if d > 0.0 { Multiply(d, c); }
    if d < 0.0 { Multiply(-d, c); }
  }

  // ---- the discount ----

  /** The score of a pair, times one minus each test's flakiness when both are above the threshold. */
  function Discounted(x: real, flakeA: real, flakeB: real, threshold: real): real {
    if flakeA > threshold && flakeB > threshold then x * (1.0 - flakeA) * (1.0 - flakeB) else x
  }

  /** The flakiness of the tests decides the mark of an edge and nothing else. */
  lemma FlakinessOnlyMarks(a: string, b: string, joint: nat, failsA: nat, failsB: nat, nRuns: nat,
                           ids: map<string, string>, flakes: map<string, real>, others: map<string, real>, o: Settings)
    requires nRuns > 0
    ensures var e, e' := EdgeFor(a, b, joint, failsA, failsB, nRuns, ids, flakes, o),
                         EdgeFor(a, b, joint, failsA, failsB, nRuns, ids, others, o);
      && (e.Some? <==> e'.Some?)
      && (e.Some? ==> e'.value.(flakinessDampened := e.value.flakinessDampened) == e.value)
      && (e.Some? ==> Ppmi(joint, failsA, failsB, nRuns, o.log2).Some?
                      && e.value.ppmi == o.round3(Ppmi(joint, failsA, failsB, nRuns, o.log2).value))
  {
    hide Ppmi, StringLess;
  }

  /**
   The score of an edge, before rounding, is the discounted one if and only if the pair is not marked; for
   flakiness that is no share of runs, or a negative threshold, also if the factors cancel.
   */
  lemma DiscountAsPromised(x: real, flakeA: real, flakeB: real, threshold: real)
    requires x > 0.0
    ensures var marked := flakeA > threshold && flakeB > threshold;
      && (x == Discounted(x, flakeA, flakeB, threshold) <==> !marked || (1.0 - flakeA) * (1.0 - flakeB) == 1.0)
      && (threshold >= 0.0 && flakeA <= 1.0 && flakeB <= 1.0 ==>
            (x == Discounted(x, flakeA, flakeB, threshold) <==> !marked))
  {
    var f := (1.0 - flakeA) * (1.0 - flakeB);
    assert x * (1.0 - flakeA) * (1.0 - flakeB) == x * f;
    if x * f == x {
      assert x * (f - 1.0) == 0.0;
      ZeroFactor(f - 1.0, x);
    }
    if threshold >= 0.0 && threshold < flakeA <= 1.0 && threshold < flakeB <= 1.0 {
      BelowOne(flakeA, flakeB);
    }
  }

  lemma BelowOne(a: real, b: real)
    requires 0.0 < a <= 1.0 && 0.0 < b <= 1.0
    ensures (1.0 - a) * (1.0 - b) < 1.0
  {
    Product(1.0 - a, b);
    assert (1.0 - a) * (1.0 - b) == (1.0 - a) - (1.0 - a) * b;
  }

  // ---- runs that show it ----

  const FAILED: TestRun := TestRun(map["a" := Fail, "b" := Fail], [])
  const PASSED: TestRun := TestRun(map["a" := Pass, "b" := Pass], [])
  const SKIPPED: TestRun := TestRun(map["a" := Skip, "b" := Skip], [])

  lemma TwoRuns(nodes: seq<HarnessNode>, last: TestRun)
    requires last == SKIPPED || last == PASSED
    ensures forall t :: t in {"a", "b"} ==>
      && FailRuns([FAILED, last], t) == 1 && SeenRuns([FAILED, last], t) == 2
      && PassRuns([FAILED, last], t) == (if last == PASSED then 1 else 0)
      && SkipRuns([FAILED, last], t) == (if last == PASSED then 0 else 1)
    ensures Joint(nodes, [FAILED, last], "a", "b") == 1
    ensures SkipBoth([FAILED, last], "a", "b") == (if last == PASSED then 0 else 1)
    ensures SkipNeither([FAILED, last], "a", "b") == (if last == PASSED then 2 else 1)
  {
    var runs := [FAILED, last];
    assert runs[..1] == [FAILED] && [FAILED][..0] == [];
    assert FAILED.outcomes["a"] == Fail && FAILED.outcomes["b"] == Fail;
    assert PASSED.outcomes["a"] == Pass && PASSED.outcomes["b"] == Pass;
    assert SKIPPED.outcomes["a"] == Skip && SKIPPED.outcomes["b"] == Skip;
    assert Fails(FAILED) == {"a", "b"} && Fails(last) == {};
    assert Genuine(nodes, FAILED) == {"a", "b"} && Genuine(nodes, last) == {};
    forall t | t in {"a", "b"}
      ensures FailRuns(runs, t) == 1 && SeenRuns(runs, t) == 2
      ensures PassRuns(runs, t) == (if last == PASSED then 1 else 0)
      ensures SkipRuns(runs, t) == (if last == PASSED then 0 else 1)
    {
      assert FailRuns([FAILED], t) == 1 && SeenRuns([FAILED], t) == 1;
      assert PassRuns([FAILED], t) == 0 && SkipRuns([FAILED], t) == 0;
    }
    assert Joint(nodes, [FAILED], "a", "b") == 1;
    assert SkipBoth([FAILED], "a", "b") == 0 && SkipNeither([FAILED], "a", "b") == 1;
  }

  /** One failure and one skip of both tests: twice the association that was promised. */
  lemma SkipsCount(nodes: seq<HarnessNode>)
    ensures Chance(1, 1, 2) != 0.0
    ensures var runs := [FAILED, SKIPPED];
      && Joint(nodes, runs, "a", "b") == FailRuns(runs, "a") == FailRuns(runs, "b") == 1
      && |runs| - SkipRuns(runs, "a") == |runs| - SkipRuns(runs, "b") == SkipNeither(runs, "a", "b") == 1
    ensures Association(1, 1, 1, 2) == 2.0 && PromisedAssociation(1, 1, 1, 1, 1, 1) == 1.0
  {
    hide SeenRuns, FailRuns, PassRuns, SkipRuns, Joint, SkipNeither;
    TwoRuns(nodes, SKIPPED);
    assert "a" in {"a", "b"} && "b" in {"a", "b"};
  }

  const ELSEWHERE: TestRun := TestRun(map[], [])

  /** One failure and one run without the test: the score is one, not a half. */
  lemma AbsenceIsNotCounted()
    ensures WrittenShare([FAILED, ELSEWHERE], "a") == Some(1.0) && ShareOfRuns([FAILED, ELSEWHERE], "a") == 0.5
  {
    var runs := [FAILED, ELSEWHERE];
    assert runs[..1] == [FAILED] && [FAILED][..0] == [];
    assert FAILED.outcomes["a"] == Fail && "a" !in ELSEWHERE.outcomes;
    assert FailRuns([FAILED], "a") == 1 && SeenRuns([FAILED], "a") == 1;
    assert FailRuns(runs, "a") == 1 && SeenRuns(runs, "a") == 1;
  }

  /** One failure and one pass of both tests: both are far above the default threshold, and nothing is taken off. */
  lemma FlakyPairKeepsScore(nodes: seq<HarnessNode>, ids: map<string, string>, flakes: map<string, real>, o: Settings)
    requires IsLog(o.log2) && o.minCoFail <= 1 && o.threshold == 0.01
    requires "a" in ids && "b" in ids && "a" in flakes && "b" in flakes
    requires WrittenShare([FAILED, PASSED], "a") == Some(flakes["a"]) && WrittenShare([FAILED, PASSED], "b") == Some(flakes["b"])
    ensures var runs := [FAILED, PASSED];
      var e := EdgeFor("a", "b", Joint(nodes, runs, "a", "b"), FailRuns(runs, "a"), FailRuns(runs, "b"), 2, ids, flakes, o);
      && Ppmi(1, 1, 1, 2, o.log2).Some? && e.Some? && e.value.flakinessDampened
      && (var x := Ppmi(1, 1, 1, 2, o.log2).value;
          e.value.ppmi == o.round3(x) && Discounted(x, flakes["a"], flakes["b"], o.threshold) == x / 4.0 < x)
  {
    hide Joint, FailRuns, SeenRuns, PassRuns, SkipRuns, Ppmi, IsLog, StringLess;
    TwoRuns(nodes, PASSED);
    assert "a" in {"a", "b"} && "b" in {"a", "b"};
    assert flakes["a"] == 0.5 && flakes["b"] == 0.5;
    GateByCounts(1, 1, 1, 2, o.log2);
    PpmiIsPositive(1, 1, 1, 2, o.log2);
  }

  lemma PpmiIsPositive(joint: nat, failsA: nat, failsB: nat, nRuns: nat, log2: real -> real)
    requires nRuns > 0
    ensures Ppmi(joint, failsA, failsB, nRuns, log2).Some? ==> Ppmi(joint, failsA, failsB, nRuns, log2).value > 0.0
  {
  }

  // ---- which failures count towards a pair ----

  /** The first node of the test's path, if there is one, has coverage. */
  predicate Covered(nodes: seq<HarnessNode>, t: string) {
    forall i :: 0 <= i < |nodes| && nodes[i].path == t && (forall j :: 0 <= j < i ==> nodes[j].path != t) ==>
                  nodes[i].coverage.Some?
  }

  /** The runs in which both tests fail; with `silent`, only those that do not tell which files changed. */
  ghost function BothFail(runs: seq<TestRun>, a: string, b: string, silent: bool): nat {
    if runs == [] then 0
    else
      var run := runs[|runs| - 1];
      BothFail(runs[..|runs| - 1], a, b, silent)
      + if Has(run, a, Fail) && Has(run, b, Fail) && (silent ==> run.changed == []) then 1 else 0
  }

  lemma {:induction false} CoveredSurvives(nodes: seq<HarnessNode>, t: string)
    ensures Covered(nodes, t) <==> (FirstNode(nodes, t).Some? ==> FirstNode(nodes, t).value.coverage.Some?)
  {
    if nodes != [] {
      if nodes[0].path != t {
        CoveredSurvives(nodes[1..], t);
        CoveredTail(nodes, t);
      }
    }
  }

  lemma CoveredTail(nodes: seq<HarnessNode>, t: string)
    requires nodes != [] && nodes[0].path != t
    ensures Covered(nodes, t) <==> Covered(nodes[1..], t)
  {
    var rest := nodes[1..];
    if Covered(nodes, t) {
      forall i | 0 <= i < |rest| && rest[i].path == t && (forall j :: 0 <= j < i ==> rest[j].path != t)
        ensures rest[i].coverage.Some?
      {
        forall j | 0 <= j < i + 1 ensures nodes[j].path != t {
          if j > 0 { assert rest[j - 1].path != t; }
        }
        assert nodes[i + 1] == rest[i];
      }
    }
    if Covered(rest, t) {
      forall i | 0 <= i < |nodes| && nodes[i].path == t && (forall j :: 0 <= j < i ==> nodes[j].path != t)
        ensures nodes[i].coverage.Some?
      {
        assert nodes[i] == rest[i - 1];
        forall j | 0 <= j < i - 1 ensures rest[j].path != t { assert nodes[j + 1] == rest[j]; }
      }
    }
  }

  /**
   A run that names its changed files takes the failure of a test whose node has no coverage for a flake. So two
   covered tests are counted in every run in which both fail, and any other two only in the runs that name nothing.
   */
  lemma {:induction false} JointByCoverage(nodes: seq<HarnessNode>, runs: seq<TestRun>, a: string, b: string)
    ensures Joint(nodes, runs, a, b) == BothFail(runs, a, b, !(Covered(nodes, a) && Covered(nodes, b)))
  {
    hide Covered, FirstNode;
    CoveredSurvives(nodes, a);
    CoveredSurvives(nodes, b);
    if runs != [] {
      var run := runs[|runs| - 1];
      JointByCoverage(nodes, runs[..|runs| - 1], a, b);
      assert forall t :: t in Fails(run) <==> Has(run, t, Fail);
    }
  }

  /** So the count an edge carries. */
  lemma EdgeByCoverage(c: Call, e: CofailEdge, a: string, b: string)
    requires Between(c, e, a, b)
    ensures e.jointFailures == BothFail(c.runs, a, b, !(Covered(c.before, a) && Covered(c.before, b)))
  {
    hide Joint, BothFail, Covered, IdMap;
    JointByCoverage(c.before, c.runs, a, b);
  }

  // ---- what an edge says ----

  /** The last node of the path that has a score. */
  predicate LastScored(nodes: seq<HarnessNode>, t: string, i: nat) {
    && i < |nodes| && nodes[i].path == t && nodes[i].flakiness.Some?
    && forall j :: i < j < |nodes| && nodes[j].path == t ==> nodes[j].flakiness.None?
  }

  /** The test's score is above the threshold; a test without a score counts as zero. */
  ghost predicate Exceeds(nodes: seq<HarnessNode>, t: string, threshold: real) {
    && (forall i: nat :: LastScored(nodes, t, i) ==> nodes[i].flakiness.value > threshold)
    && ((forall j :: 0 <= j < |nodes| && nodes[j].path == t ==> nodes[j].flakiness.None?) ==> 0.0 > threshold)
  }

  /** What the score map holds for a test: the last scored node's value, if there is one. */
  lemma {:induction false} FlakeIsLast(nodes: seq<HarnessNode>, t: string) returns (i: nat)
    ensures t in FlakeMap(nodes) ==> LastScored(nodes, t, i) && FlakeMap(nodes)[t] == nodes[i].flakiness.value
    ensures t !in FlakeMap(nodes) ==> forall j :: 0 <= j < |nodes| && nodes[j].path == t ==> nodes[j].flakiness.None?
  {
    i := 0;
    if nodes != [] {
      var front, n := nodes[..|nodes| - 1], nodes[|nodes| - 1];
      i := FlakeIsLast(front, t);
      if n.path == t && n.flakiness.Some? { i := |nodes| - 1; }
    }
  }

  lemma FlakeExceeds(nodes: seq<HarnessNode>, t: string, threshold: real)
    ensures Flake(FlakeMap(nodes), t) > threshold <==> Exceeds(nodes, t, threshold)
  {
    hide FlakeMap;
    var i := FlakeIsLast(nodes, t);
    if t in FlakeMap(nodes) {
      assert forall j: nat :: LastScored(nodes, t, j) ==> j == i;
      assert LastScored(nodes, t, i);
    }
  }

  /** The edge of a pair runs from the smaller id to the larger one, and is marked if and only if both tests' scores are above the threshold. */
  lemma EdgeSays(c: Call, e: CofailEdge, a: string, b: string)
    requires c.runs != [] && PairEdge(c, a, b) == Some(e)
    ensures e.from == e.to || ComesBefore(e.from, e.to)
    ensures e.flakinessDampened <==> Exceeds(c.after, a, c.o.threshold) && Exceeds(c.after, b, c.o.threshold)
  {
    hide Joint, FailRuns, IdMap, FlakeMap, Exceeds, StringLess, ComesBefore, Ppmi;
    FlakeExceeds(c.after, a, c.o.threshold);
    FlakeExceeds(c.after, b, c.o.threshold);
    StringLessByPosition(e.from, e.to);
    StringLessLaws(e.from, e.to, e.from);
  }

  predicate LastAt(nodes: seq<HarnessNode>, t: string, i: nat) {
    i < |nodes| && nodes[i].path == t && forall j :: i < j < |nodes| ==> nodes[j].path != t
  }

  /** A path stands for the id of the last node that has it. */
  lemma {:induction false} IdIsLast(nodes: seq<HarnessNode>, t: string) returns (i: nat)
    ensures t in IdMap(nodes) <==> exists n :: n in nodes && n.path == t
    ensures t in IdMap(nodes) ==> LastAt(nodes, t, i) && IdMap(nodes)[t] == nodes[i].id
  {
    i := 0;
    if nodes != [] {
      var front, n := nodes[..|nodes| - 1], nodes[|nodes| - 1];
      i := IdIsLast(front, t);
      assert nodes == front + [n];
      if n.path == t { i := |nodes| - 1; }
    }
  }

  /** An edge joins the ids of the two tests' nodes, each with its own path. */
  lemma EdgeJoins(c: Call, e: CofailEdge, a: string, b: string) returns (i: nat, j: nat)
    requires Between(c, e, a, b)
    ensures LastAt(c.after, a, i) && LastAt(c.after, b, j)
    ensures (e.from, e.fromPath, e.to, e.toPath) == (c.after[i].id, a, c.after[j].id, b)
         || (e.from, e.fromPath, e.to, e.toPath) == (c.after[j].id, b, c.after[i].id, a)
  {
    hide IdMap, Joint;
    i := IdIsLast(c.after, a);
    j := IdIsLast(c.after, b);
  }

  /** Edges are kept in the order of their smaller ids, and of their larger ones among those. */
  lemma OrderedByEnds(x: CofailEdge, y: CofailEdge)
    ensures EdgeBefore(x, y) <==> ComesBefore(x.from, y.from) || (x.from == y.from && ComesBefore(x.to, y.to))
  {
    hide StringLess, ComesBefore;
    StringLessByPosition(x.from, y.from);
    StringLessByPosition(x.to, y.to);
  }

  /** Its score is the rounded logarithm of joint failures times runs over the product of the two failure counts. */
  lemma EdgeScores(c: Call, e: CofailEdge, a: string, b: string) returns (x: real)
    requires c.runs != [] && PairEdge(c, a, b) == Some(e) && Joint(c.before, c.runs, a, b) > 0
    ensures x * (FailRuns(c.runs, a) as real * FailRuns(c.runs, b) as real)
            == Joint(c.before, c.runs, a, b) as real * |c.runs| as real
    ensures FailRuns(c.runs, a) > 0 && FailRuns(c.runs, b) > 0 && e.ppmi == c.o.round3(c.o.log2(x)) && c.o.log2(x) > 0.0
  {
    hide Joint, FailRuns, IdMap, FlakeMap, StringLess, Association, Chance;
    var joint, failsA, failsB := Joint(c.before, c.runs, a, b), FailRuns(c.runs, a), FailRuns(c.runs, b);
    JointIsAtMostFails(c.before, c.runs, a, b);
    AssociationByCounts(joint, failsA, failsB, |c.runs|);
    x := Association(joint, failsA, failsB, |c.runs|);
  }

  lemma AssociationByCounts(joint: nat, failsA: nat, failsB: nat, nRuns: nat)
    requires nRuns > 0 && failsA > 0 && failsB > 0
    ensures Chance(failsA, failsB, nRuns) != 0.0
    ensures Association(joint, failsA, failsB, nRuns) * (failsA as real * failsB as real) == joint as real * nRuns as real
  {
    var n, a, b, j := nRuns as real, failsA as real, failsB as real, joint as real;
    SharesArePositive(a, b, n);
    RatioTimes(Association(joint, failsA, failsB, nRuns), Chance(failsA, failsB, nRuns), a / n, b / n, j / n, n, a, b, j);
  }

  /** Seen at least once, with enough runs, and failing more often than the threshold's share of that. */
  ghost predicate IsAbove(n: HarnessNode, runs: seq<TestRun>, o: Settings) {
    && |runs| >= o.minRuns && SeenRuns(runs, n.path) > 0
    && FailRuns(runs, n.path) as real > o.threshold * SeenRuns(runs, n.path) as real
  }

  ghost function Above(nodes: seq<HarnessNode>, runs: seq<TestRun>, o: Settings): set<nat> {
    set i: nat | i < |nodes| && IsAbove(nodes[i], runs, o)
  }

  /** These are the nodes the report counts as flagged. */
  lemma {:induction false} FlaggedAreAbove(nodes: seq<HarnessNode>, runs: seq<TestRun>, o: Settings)
    ensures FlaggedNodes(nodes, runs, o) == |Above(nodes, runs, o)|
    decreases |nodes|
  {
    hide Flagged, IsAbove;
    if nodes != [] {
      var k := |nodes| - 1;
      FlaggedAreAbove(nodes[..k], runs, o);
      FlaggedShare(nodes[k], runs, o);
      assert Above(nodes, runs, o) == Above(nodes[..k], runs, o) + if IsAbove(nodes[k], runs, o) then {k} else {};
    }
  }

  ghost function TooShort(nodes: seq<HarnessNode>, runs: seq<TestRun>, o: Settings): set<nat> {
    set i: nat | i < |nodes| && SeenRuns(runs, nodes[i].path) > 0 && |runs| < o.minRuns
  }

  /** And these are the nodes it counts as having too short a history. */
  lemma {:induction false} ShortAreTooShort(nodes: seq<HarnessNode>, runs: seq<TestRun>, o: Settings)
    ensures ShortNodes(nodes, runs, o) == |TooShort(nodes, runs, o)|
    decreases |nodes|
  {
    hide SeenRuns;
    if nodes != [] {
      var k := |nodes| - 1;
      ShortAreTooShort(nodes[..k], runs, o);
      assert TooShort(nodes, runs, o)
          == TooShort(nodes[..k], runs, o) + if SeenRuns(runs, nodes[k].path) > 0 && |runs| < o.minRuns then {k} else {};
    }
  }

  lemma FlaggedShare(n: HarnessNode, runs: seq<TestRun>, o: Settings)
    ensures Flagged(n, SeenRuns(runs, n.path), FailRuns(runs, n.path), o, |runs|) <==> IsAbove(n, runs, o)
  {
    if SeenRuns(runs, n.path) > 0 {
      var s, f := SeenRuns(runs, n.path) as real, FailRuns(runs, n.path) as real;
      var q := f / s;
      assert q * s == f;
      if q > o.threshold { Multiply(q - o.threshold, s); } else { Product(o.threshold - q, s); }
    }
  }
}
