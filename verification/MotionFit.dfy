/** Fitting a spec's transition matrices from the history of its test and mutation outcomes. */
module MotionFit {
  import opened Beliefs
  import opened Options
  import Calibration

  datatype Status = Unk | Sat | Vio {
    function Index(): (i: nat)
      ensures i < 3
    {
      match this
      case Unk => 0
      case Sat => 1
      case Vio => 2
    }
  }

  datatype WriteClass = Good | Bad

  datatype Obs = Obs(cls: WriteClass, state: Status)

  datatype FitInput = FitInput(id: string, kind: string, outcome: string)

  datatype SpecFit =
    | Fitted(motion: Motion, quality: real, nEvents: nat, killRate: Option<real>, classesObserved: nat)
    | InsufficientHistory(nEvents: nat, minRequired: nat)

  // ---- the prototype's matrices ----

  const T_GOOD: Matrix := Matrix(Row(0.10, 0.80, 0.10), Row(0.02, 0.92, 0.06), Row(0.05, 0.75, 0.20))
  const T_BAD: Matrix := Matrix(Row(0.10, 0.10, 0.80), Row(0.05, 0.30, 0.65), Row(0.02, 0.08, 0.90))
  const T_LEAK: Matrix := Matrix(Row(0.90, 0.05, 0.05), Row(0.02, 0.93, 0.05), Row(0.02, 0.03, 0.95))

  const PROTOTYPE: Motion := Motion(T_GOOD, T_BAD, T_LEAK, 0.7)

  lemma PrototypeIsProper()
    ensures ProperMotion(PROTOTYPE)
  {
  }

  // ---- reading the history ----

  function Classify(kind: string, outcome: string): Option<Obs> {
    if kind == "mutation_result" && outcome == "caught" then Some(Obs(Good, Sat))
    else if kind == "mutation_result" && (outcome == "missed" || outcome == "timeout") then Some(Obs(Bad, Vio))
    else if kind == "test_outcome" && outcome == "pass" then Some(Obs(Good, Sat))
    else if kind == "test_outcome" && outcome == "fail" then Some(Obs(Bad, Vio))
    else None
  }

  /** The observations of one spec, in the order of the events. */
  ghost function Observed(events: seq<FitInput>, id: string): seq<Obs> {
    if events == [] then []
    else
      var e := events[|events| - 1];
      var o := Classify(e.kind, e.outcome);
      Observed(events[..|events| - 1], id) + if e.id == id && o.Some? then [o.value] else []
  }

  /** Good writes are seen satisfied and bad ones violated: no other combination is ever recorded. */
  predicate Matched(o: Obs) {
    o == Obs(Good, Sat) || o == Obs(Bad, Vio)
  }

  lemma {:induction false} ObservedIsMatched(events: seq<FitInput>, id: string)
    ensures forall o :: o in Observed(events, id) ==> Matched(o)
  {
    if events != [] {
      ObservedIsMatched(events[..|events| - 1], id);
    }
  }

  /** How often a spec has exactly this outcome of this kind. */
  ghost function Occurrences(events: seq<FitInput>, id: string, kind: string, outcome: string): nat {
    if events == [] then 0
    else
      Occurrences(events[..|events| - 1], id, kind, outcome)
      + if events[|events| - 1] == FitInput(id, kind, outcome) then 1 else 0
  }

  ghost function GoodOutcomes(events: seq<FitInput>, id: string): nat {
    Occurrences(events, id, "mutation_result", "caught") + Occurrences(events, id, "test_outcome", "pass")
  }

  ghost function BadOutcomes(events: seq<FitInput>, id: string): nat {
    Occurrences(events, id, "mutation_result", "missed") + Occurrences(events, id, "mutation_result", "timeout")
    + Occurrences(events, id, "test_outcome", "fail")
  }

  /** Caught mutants and passes are the successes, missed or timed-out mutants and failures the rest; nothing else is observed. */
  lemma {:induction false} ObservedByOutcome(events: seq<FitInput>, id: string)
    ensures Successes(Observed(events, id)) == GoodOutcomes(events, id)
    ensures |Observed(events, id)| == GoodOutcomes(events, id) + BadOutcomes(events, id)
  {
    if events != [] {
      var n := |events| - 1;
      ObservedByOutcome(events[..n], id);
      LastObserved(events, id);
      LastOutcome(events, id);
    }
  }

  lemma LastObserved(events: seq<FitInput>, id: string)
    requires events != []
    ensures var e, before := events[|events| - 1], Observed(events[..|events| - 1], id);
            var o := Classify(e.kind, e.outcome);
            && |Observed(events, id)| == |before| + (if e.id == id && o.Some? then 1 else 0)
            && Successes(Observed(events, id))
               == Successes(before) + if e.id == id && o == Some(Obs(Good, Sat)) then 1 else 0
  {
    hide Classify;
    var e, before := events[|events| - 1], Observed(events[..|events| - 1], id);
    var o := Classify(e.kind, e.outcome);
    assert before + [] == before;
    if o.Some? { assert (before + [o.value])[..|before|] == before; }
  }

  lemma LastOutcome(events: seq<FitInput>, id: string)
    requires events != []
    ensures var e, before := events[|events| - 1], events[..|events| - 1];
            var good := (e.kind == "mutation_result" && e.outcome == "caught") || (e.kind == "test_outcome" && e.outcome == "pass");
            var bad := (e.kind == "mutation_result" && (e.outcome == "missed" || e.outcome == "timeout"))
                       || (e.kind == "test_outcome" && e.outcome == "fail");
            && !(good && bad)
            && GoodOutcomes(events, id) == GoodOutcomes(before, id) + (if e.id == id && good then 1 else 0)
            && BadOutcomes(events, id) == BadOutcomes(before, id) + (if e.id == id && bad then 1 else 0)
  {
    KindsDiffer();
  }

  lemma KindsDiffer()
    ensures "mutation_result" != "test_outcome" && "caught" != "missed" && "caught" != "timeout" && "missed" != "timeout"
    ensures "pass" != "fail"
  {
    assert "mutation_result"[0] == 'm' && "test_outcome"[0] == 't';
    assert "caught"[0] == 'c' && "missed"[0] == 'm' && "timeout"[0] == 't' && "pass"[0] == 'p' && "fail"[0] == 'f';
  }

  // ---- counting transitions ----

  ghost function Moves(obs: seq<Obs>, c: WriteClass, i: nat, j: nat): nat {
    if |obs| < 2 then 0
    else
      var prev, curr := obs[|obs| - 2], obs[|obs| - 1];
      Moves(obs[..|obs| - 1], c, i, j)
      + if curr.cls == c && prev.state.Index() == i && curr.state.Index() == j then 1 else 0
  }

  ghost function MovesOf(obs: seq<Obs>, c: WriteClass): nat {
    if |obs| < 2 then 0
    else MovesOf(obs[..|obs| - 1], c) + if obs[|obs| - 1].cls == c then 1 else 0
  }

  /** Every observation but the first is the end of exactly one move, of one class or the other. */
  lemma {:induction false} MovesAddUp(obs: seq<Obs>)
    ensures MovesOf(obs, Good) + MovesOf(obs, Bad) == if obs == [] then 0 else |obs| - 1
  {
    if |obs| >= 2 {
      MovesAddUp(obs[..|obs| - 1]);
    }
  }

  ghost function RowMoves(obs: seq<Obs>, c: WriteClass, i: nat): nat {
    Moves(obs, c, i, 0) + Moves(obs, c, i, 1) + Moves(obs, c, i, 2)
  }

  lemma {:induction false} RowsAddUp(obs: seq<Obs>, c: WriteClass)
    ensures RowMoves(obs, c, 0) + RowMoves(obs, c, 1) + RowMoves(obs, c, 2) == MovesOf(obs, c)
  {
    if |obs| >= 2 {
      RowsAddUp(obs[..|obs| - 1], c);
    }
  }

  class ClassCounts {
    const m: array2<nat>
    var total: nat

    ghost predicate Valid()
      reads this, m
    {
      m.Length0 == 3 && m.Length1 == 3
    }

    /** The counts are those of the moves of one class in a history. */
    ghost predicate Counts(obs: seq<Obs>, c: WriteClass)
      requires Valid()
      reads this, m
    {
      && total == MovesOf(obs, c)
      && forall i, j :: 0 <= i < 3 && 0 <= j < 3 ==> m[i, j] == Moves(obs, c, i, j)
    }

    constructor ()
      ensures Valid() && fresh(m) && total == 0
      ensures forall i, j :: 0 <= i < 3 && 0 <= j < 3 ==> m[i, j] == 0
    {
      m := new nat[3, 3]((_, _) => 0);
      total := 0;
    }

    method Bump(from: Status, to: Status)
      requires Valid()
      modifies this, m
      ensures Valid() && total == old(total) + 1
      ensures forall i, j :: 0 <= i < 3 && 0 <= j < 3 ==>
                m[i, j] == old(m[i, j]) + if i == from.Index() && j == to.Index() then 1 else 0
    {
      m[from.Index(), to.Index()] := m[from.Index(), to.Index()] + 1;
      total := total + 1;
    }

    /** Laplace smoothing, row by row; nothing without any move. */
    method ToMatrix() returns (r: Option<Matrix>)
      requires Valid()
      ensures r == if total == 0 then None else
                     Some(Matrix(Smoothed(m[0, 0], m[0, 1], m[0, 2]),
                                 Smoothed(m[1, 0], m[1, 1], m[1, 2]),
                                 Smoothed(m[2, 0], m[2, 1], m[2, 2])))
    {
      hide Smoothed;
      if total == 0 {
        return None;
      }
      var rows: seq<Row> := [];
      for i := 0 to 3
        invariant |rows| == i
        invariant forall k :: 0 <= k < i ==> rows[k] == Smoothed(m[k, 0], m[k, 1], m[k, 2])
      {
        rows := rows + [Smoothed(m[i, 0], m[i, 1], m[i, 2])];
      }
      r := Some(Matrix(rows[0], rows[1], rows[2]));
    }
  }

  function Smoothed(a: nat, b: nat, c: nat): Row {
    var denom := (a + b + c + 3) as real;
    Row((a as real + 1.0) / denom, (b as real + 1.0) / denom, (c as real + 1.0) / denom)
  }

  lemma SmoothedIsSimplex(a: nat, b: nat, c: nat)
    ensures Simplex(Smoothed(a, b, c)) && Positive(Smoothed(a, b, c))
  {
    var v := Row(a as real + 1.0, b as real + 1.0, c as real + 1.0);
    assert (a + b + c + 3) as real == Total(v);
    OverTotal(v);
  }

  // ---- what a fit is ----

  ghost function FittedMatrix(obs: seq<Obs>, c: WriteClass, fallback: Matrix): Matrix {
    if MovesOf(obs, c) == 0 then fallback
    else
      Matrix(Smoothed(Moves(obs, c, 0, 0), Moves(obs, c, 0, 1), Moves(obs, c, 0, 2)),
             Smoothed(Moves(obs, c, 1, 0), Moves(obs, c, 1, 1), Moves(obs, c, 1, 2)),
             Smoothed(Moves(obs, c, 2, 0), Moves(obs, c, 2, 1), Moves(obs, c, 2, 2)))
  }

  /** One more than each count, in proportion. */
  ghost predicate Laplace(r: Row, a: nat, b: nat, c: nat) {
    var t := (a + b + c + 3) as real;
    r.unk * t == a as real + 1.0 && r.sat * t == b as real + 1.0 && r.vio * t == c as real + 1.0
  }

  lemma SmoothedByCounts(a: nat, b: nat, c: nat)
    ensures Laplace(Smoothed(a, b, c), a, b, c)
  {
    var t := (a + b + c + 3) as real;
    Quotient(a as real + 1.0, t);
    Quotient(b as real + 1.0, t);
    Quotient(c as real + 1.0, t);
  }

  /** Each row of a fitted matrix has the smoothed shares of the moves out of its status, and a class without a move keeps the prototype's matrix. */
  lemma FittedByCounts(obs: seq<Obs>, c: WriteClass, fallback: Matrix)
    ensures var m := FittedMatrix(obs, c, fallback);
            if MovesOf(obs, c) == 0 then m == fallback
            else
              && Laplace(m.unk, Moves(obs, c, 0, 0), Moves(obs, c, 0, 1), Moves(obs, c, 0, 2))
              && Laplace(m.sat, Moves(obs, c, 1, 0), Moves(obs, c, 1, 1), Moves(obs, c, 1, 2))
              && Laplace(m.vio, Moves(obs, c, 2, 0), Moves(obs, c, 2, 1), Moves(obs, c, 2, 2))
  {
    hide Smoothed, Moves, MovesOf, Laplace;
    SmoothedByCounts(Moves(obs, c, 0, 0), Moves(obs, c, 0, 1), Moves(obs, c, 0, 2));
    SmoothedByCounts(Moves(obs, c, 1, 0), Moves(obs, c, 1, 1), Moves(obs, c, 1, 2));
    SmoothedByCounts(Moves(obs, c, 2, 0), Moves(obs, c, 2, 1), Moves(obs, c, 2, 2));
  }

  ghost function Successes(obs: seq<Obs>): nat {
    if obs == [] then 0
    else Successes(obs[..|obs| - 1]) + if obs[|obs| - 1] == Obs(Good, Sat) then 1 else 0
  }

  ghost function FitOf(obs: seq<Obs>, minEvents: nat): SpecFit {
    if |obs| < minEvents then InsufficientHistory(|obs|, minEvents)
    else
      var rate := if obs == [] then None else Some(Successes(obs) as real / |obs| as real);
      Fitted(Motion(FittedMatrix(obs, Good, T_GOOD), FittedMatrix(obs, Bad, T_BAD), T_LEAK, 0.7),
             Calibration.Clamp(if rate.None? then 1.0 else rate.value, 0.3, 1.0),
             |obs|, rate,
             (if MovesOf(obs, Good) > 0 then 1 else 0) + if MovesOf(obs, Bad) > 0 then 1 else 0)
  }

  method FitSpec(obs: seq<Obs>, minEvents: nat) returns (fit: SpecFit)
    requires forall o :: o in obs ==> Matched(o)
    ensures fit == FitOf(obs, minEvents)
  {
    hide Moves, MovesOf, Smoothed, Matched;
    if |obs| < minEvents {
      return InsufficientHistory(|obs|, minEvents);
    }
    var good, bad := CountMoves(obs);
    var tGood, tBad, classes := T_GOOD, T_BAD, 0;
    var g := good.ToMatrix();
    if g.Some? { classes := classes + 1; tGood := g.value; }
    var b := bad.ToMatrix();
    if b.Some? { classes := classes + 1; tBad := b.value; }
    var caught, missed := CountOutcomes(obs);
    var rate := if caught + missed > 0 then Some(caught as real / (caught + missed) as real) else None;
    var quality := Calibration.Clamp(if rate.Some? then rate.value else 1.0, 0.3, 1.0);
    fit := Fitted(Motion(tGood, tBad, T_LEAK, PROTOTYPE.assumedGood), quality, |obs|, rate, classes);
  }

  method CountMoves(obs: seq<Obs>) returns (good: ClassCounts, bad: ClassCounts)
    ensures good.Valid() && bad.Valid() && good.Counts(obs, Good) && bad.Counts(obs, Bad)
  {
    good := new ClassCounts();
    bad := new ClassCounts();
    if obs == [] {
      return;
    }
    hide Moves, MovesOf;
    NoMoves(obs[..1]);
    for k := 1 to |obs|
      invariant fresh(good) && fresh(good.m) && fresh(bad) && fresh(bad.m) && good != bad && good.m != bad.m
      invariant good.Valid() && bad.Valid() && good.Counts(obs[..k], Good) && bad.Counts(obs[..k], Bad)
    {
      var prev, curr := obs[k - 1], obs[k];
      OneMoreMove(obs, k);
      if curr.cls == Good {
        good.Bump(prev.state, curr.state);
      } else {
        bad.Bump(prev.state, curr.state);
      }
    }
    assert obs[..|obs|] == obs;
  }

  lemma NoMoves(obs: seq<Obs>)
    requires |obs| < 2
    ensures forall c :: MovesOf(obs, c) == 0
    ensures forall c, i, j :: Moves(obs, c, i, j) == 0
  {
  }

  lemma OneMoreMove(obs: seq<Obs>, k: nat)
    requires 1 <= k < |obs|
    ensures forall c :: MovesOf(obs[..k + 1], c) == MovesOf(obs[..k], c) + if obs[k].cls == c then 1 else 0
    ensures forall c, i, j ::
              Moves(obs[..k + 1], c, i, j)
              == Moves(obs[..k], c, i, j)
                 + if obs[k].cls == c && obs[k - 1].state.Index() == i && obs[k].state.Index() == j then 1 else 0
  {
    assert obs[..k + 1][..k] == obs[..k];
  }

  method CountOutcomes(obs: seq<Obs>) returns (caught: nat, missed: nat)
    requires forall o :: o in obs ==> Matched(o)
    ensures caught == Successes(obs) && caught + missed == |obs|
  {
    caught, missed := 0, 0;
    for k := 0 to |obs|
      invariant caught == Successes(obs[..k]) && caught + missed == k
    {
      assert obs[..k + 1][..k] == obs[..k];
      assert Matched(obs[k]);
      match obs[k]
      case Obs(Good, Sat) => caught := caught + 1;
      case Obs(Bad, Vio) => missed := missed + 1;
      case _ =>
    }
    assert obs[..|obs|] == obs;
  }

  /** The number of events, the rate of good ones and the quality it gives, by the recorded outcomes; too few events give no fit. */
  ghost predicate RateOf(fit: SpecFit, events: seq<FitInput>, id: string, minEvents: nat) {
    var good, all := GoodOutcomes(events, id), GoodOutcomes(events, id) + BadOutcomes(events, id);
    if all < minEvents then fit == InsufficientHistory(all, minEvents)
    else
      && fit.Fitted? && fit.nEvents == all
      && fit.killRate == (if all == 0 then None else Some(good as real / all as real))
      && fit.quality == if all == 0 then 1.0 else if good as real / all as real < 0.3 then 0.3 else good as real / all as real
  }

  lemma FitByOutcome(events: seq<FitInput>, id: string, minEvents: nat)
    ensures RateOf(FitOf(Observed(events, id), minEvents), events, id, minEvents)
  {
    hide Observed, GoodOutcomes, BadOutcomes, FittedMatrix, Successes;
    ObservedByOutcome(events, id);
    var good, all := GoodOutcomes(events, id), GoodOutcomes(events, id) + BadOutcomes(events, id);
    if all > 0 {
      Quotient((all - good) as real, all as real);
      UniqueQuotient((all - good) as real, all as real, 1.0 - good as real / all as real);
    }
  }

  /** Buckets the events by declared spec, then fits each bucket on its own. */
  method Fit(ids: seq<string>, events: seq<FitInput>, minEvents: nat) returns (report: map<string, SpecFit>)
    ensures forall id :: id in report <==> id in ids
    ensures forall id :: id in report ==> report[id] == FitOf(Observed(events, id), minEvents)
    ensures forall id :: id in report ==> RateOf(report[id], events, id, minEvents)
  {
    hide FitOf, Classify, GoodOutcomes, BadOutcomes;
    var buckets: map<string, seq<Obs>> := map[];
    for i := 0 to |ids|
      invariant forall id :: id in buckets <==> id in ids[..i]
      invariant forall id :: id in buckets ==> buckets[id] == []
    {
      buckets := buckets[ids[i] := []];
    }
    assert ids[..|ids|] == ids;
    for i := 0 to |events|
      invariant forall id :: id in buckets <==> id in ids
      invariant forall id :: id in buckets ==> buckets[id] == Observed(events[..i], id)
    {
      assert events[..i + 1][..i] == events[..i];
      var e := events[i];
      if e.id in buckets {
        var o := Classify(e.kind, e.outcome);
        if o.Some? {
          buckets := buckets[e.id := buckets[e.id] + [o.value]];
        }
      }
    }
    assert events[..|events|] == events;
    report := map[];
    var todo := buckets.Keys;
    while todo != {}
      invariant todo <= buckets.Keys
      invariant forall id :: id in report <==> id in buckets && id !in todo
      invariant forall id :: id in report ==> report[id] == FitOf(buckets[id], minEvents)
      decreases todo
    {
      var id :| id in todo;
      ObservedIsMatched(events, id);
      var fit := FitSpec(buckets[id], minEvents);
      report := report[id := fit];
      todo := todo - {id};
    }
    forall id | id in report ensures RateOf(FitOf(Observed(events, id), minEvents), events, id, minEvents) {
      FitByOutcome(events, id, minEvents);
    }
  }

  // ---- what every fit is like ----

  lemma FittedMatrixIsStochastic(obs: seq<Obs>, c: WriteClass, fallback: Matrix)
    requires Stochastic(fallback)
    ensures Stochastic(FittedMatrix(obs, c, fallback))
  {
    hide Smoothed, Moves, MovesOf, Simplex;
    SmoothedIsSimplex(Moves(obs, c, 0, 0), Moves(obs, c, 0, 1), Moves(obs, c, 0, 2));
    SmoothedIsSimplex(Moves(obs, c, 1, 0), Moves(obs, c, 1, 1), Moves(obs, c, 1, 2));
    SmoothedIsSimplex(Moves(obs, c, 2, 0), Moves(obs, c, 2, 1), Moves(obs, c, 2, 2));
  }

  /** A fit is a motion the filters accept, its quality is in range, and every event but the first is counted once. */
  lemma FitIsSound(obs: seq<Obs>, minEvents: nat)
    requires FitOf(obs, minEvents).Fitted?
    ensures var f := FitOf(obs, minEvents);
            && ProperMotion(f.motion)
            && Calibration.ProperQuality(f.quality)
            && f.nEvents == |obs| >= minEvents
            && MovesOf(obs, Good) + MovesOf(obs, Bad) == (if obs == [] then 0 else f.nEvents - 1)
            && (f.classesObserved == 0 <==> |obs| < 2)
  {
    hide FittedMatrix, Stochastic;
    PrototypeIsProper();
    PrototypeParts();
    FittedMatrixIsStochastic(obs, Good, T_GOOD);
    FittedMatrixIsStochastic(obs, Bad, T_BAD);
    MovesAddUp(obs);
  }

  lemma PrototypeParts()
    ensures Stochastic(T_GOOD) && Stochastic(T_BAD) && Stochastic(T_LEAK)
  {
  }

  lemma {:induction false} OnlyMatchedMoves(obs: seq<Obs>, c: WriteClass, i: nat, j: nat)
    requires forall o :: o in obs ==> Matched(o)
    requires i == 0 || j != if c == Good then 1 else 2
    ensures Moves(obs, c, i, j) == 0
  {
    if |obs| >= 2 {
      assert Matched(obs[|obs| - 2]) && Matched(obs[|obs| - 1]);
      OnlyMatchedMoves(obs[..|obs| - 1], c, i, j);
    }
  }

  /**
   What a history can teach is narrow: good writes are only ever seen leading to satisfied and bad ones to
   violated, and nothing is ever seen leaving the unknown status. A fitted good matrix therefore starts from
   unknown evenly, and from the other two favours satisfied over the rest, which share equally.
   */
  lemma GoodMatrixShape(obs: seq<Obs>)
    requires (forall o :: o in obs ==> Matched(o)) && MovesOf(obs, Good) > 0
    ensures var m := FittedMatrix(obs, Good, T_GOOD);
            && m.unk == UNIFORM
            && m.sat.unk == m.sat.vio <= m.sat.sat
            && m.vio.unk == m.vio.vio <= m.vio.sat
  {
    hide Moves, MovesOf, Matched;
    OnlyMatchedMoves(obs, Good, 0, 0);
    OnlyMatchedMoves(obs, Good, 0, 1);
    OnlyMatchedMoves(obs, Good, 0, 2);
    OnlyMatchedMoves(obs, Good, 1, 0);
    OnlyMatchedMoves(obs, Good, 1, 2);
    OnlyMatchedMoves(obs, Good, 2, 0);
    OnlyMatchedMoves(obs, Good, 2, 2);
    SmoothedPeak(0);
    SmoothedPeak(Moves(obs, Good, 1, 1));
    SmoothedPeak(Moves(obs, Good, 2, 1));
  }

  lemma SmoothedPeak(n: nat)
    ensures var r := Smoothed(0, n, 0); r.unk == r.vio <= r.sat
    ensures Smoothed(0, 0, 0) == UNIFORM
  {
    var t := (n + 3) as real;
    Quotient(n as real, t);
    AddShare(n as real, t);
  }

  lemma AddShare(x: real, t: real)
    requires x >= 0.0 && t > 0.0
    ensures (0.0 + 1.0) / t <= (x + 1.0) / t
  {
    Quotient(x, t);
    UniqueQuotient(x + 1.0, t, x / t + 1.0 / t);
  }

  /** Events of other specs, or without evidence, do not change a spec's fit. */
  lemma {:induction false} OthersDoNotMatter(events: seq<FitInput>, more: seq<FitInput>, id: string)
    requires forall e :: e in more ==> e.id != id || Classify(e.kind, e.outcome).None?
    ensures Observed(events + more, id) == Observed(events, id)
    decreases |more|
  {
    hide Classify;
    if more == [] {
      assert events + more == events;
    } else {
      var n := |more| - 1;
      assert more[n] in more;
      OthersDoNotMatter(events, more[..n], id);
      assert (events + more)[..|events + more| - 1] == events + more[..n];
    }
  }
}
