/** The per-spec forward filter: one belief row per spec, advanced by file edits and test outcomes. */
module Hmm {
  import opened Beliefs
  import opened Specs

  /** The parts of a filter that its steps only read. */
  datatype Setup = Setup(idx: map<string, nat>, support: seq<seq<string>>, motion: Motion)

  datatype Reply = Ok | UnknownSpec(id: string)

  type Sensor = (string, string) -> Row

  /** An id stands for the last descriptor that carries it. */
  function IndexOf(specs: seq<SpecDescriptor>): map<string, nat> {
    if specs == [] then map[]
    else
      var n := |specs| - 1;
      IndexOf(specs[..n])[specs[n].id := n]
  }

  lemma {:induction false} IndexIsLast(specs: seq<SpecDescriptor>, id: string)
    ensures id in IndexOf(specs) <==> exists k :: 0 <= k < |specs| && specs[k].id == id
    ensures id in IndexOf(specs) ==>
              var i := IndexOf(specs)[id];
              i < |specs| && specs[i].id == id && forall k :: i < k < |specs| ==> specs[k].id != id
  {
    if specs != [] {
      var n := |specs| - 1;
      IndexIsLast(specs[..n], id);
      assert forall k :: 0 <= k < n ==> specs[..n][k] == specs[k];
    }
  }

  function SetupOf(specs: seq<SpecDescriptor>, motion: Motion): Setup {
    Setup(IndexOf(specs), seq(|specs|, i requires 0 <= i < |specs| => specs[i].support), motion)
  }

  lemma SetupIsProper(specs: seq<SpecDescriptor>, motion: Motion)
    requires ProperMotion(motion)
    ensures ProperSetup(SetupOf(specs, motion))
  {
    hide ProperMotion, IndexOf;
    forall id | id in IndexOf(specs) ensures IndexOf(specs)[id] < |specs| {
      IndexIsLast(specs, id);
    }
  }

  predicate Touched(support: seq<string>, files: seq<string>) {
    exists p :: p in support && p in files
  }

  predicate ProperSetup(h: Setup) {
    ProperMotion(h.motion) && forall id :: id in h.idx ==> h.idx[id] < |h.support|
  }

  // ---- the three operations as functions on the rows ----

  function Transition(h: Setup, i: nat, files: seq<string>): Matrix
    requires i < |h.support|
  {
    if Touched(h.support[i], files) then Mixture(h.motion) else h.motion.leak
  }

  function Predicted(h: Setup, b: seq<Row>, files: seq<string>): (r: seq<Row>)
    requires |b| == |h.support|
  {
    seq(|b|, i requires 0 <= i < |b| => Advance(b[i], Transition(h, i, files)))
  }

  // ---- what an edit does to one row ----

  /** `q` is the row `r` times the matrix: each status gathers what comes to it from the three before. */
  ghost predicate Moved(r: Row, m: Matrix, q: Row) {
    && q.unk == r.unk * m.unk.unk + r.sat * m.sat.unk + r.vio * m.vio.unk
    && q.sat == r.unk * m.unk.sat + r.sat * m.sat.sat + r.vio * m.vio.sat
    && q.vio == r.unk * m.unk.vio + r.sat * m.sat.vio + r.vio * m.vio.vio
  }

  /** Between a good write and a bad one, in the proportion the motion assumes. */
  ghost predicate MovedByWrite(r: Row, m: Motion, q: Row) {
    forall g, b :: Moved(r, m.good, g) && Moved(r, m.bad, b) ==>
      && q.unk == m.assumedGood * g.unk + (1.0 - m.assumedGood) * b.unk
      && q.sat == m.assumedGood * g.sat + (1.0 - m.assumedGood) * b.sat
      && q.vio == m.assumedGood * g.vio + (1.0 - m.assumedGood) * b.vio
  }

  /** A row with an edited support file moves as after a write; any other row only leaks. */
  ghost predicate MovedByEdit(support: seq<string>, files: seq<string>, r: Row, m: Motion, q: Row) {
    && ((exists p :: p in support && p in files) ==> MovedByWrite(r, m, q))
    && ((forall p :: p in support ==> p !in files) ==> Moved(r, m.leak, q))
  }

  lemma TimesMoves(r: Row, m: Matrix)
    ensures Moved(r, m, Times(r, m))
  {
  }

  // between two numbers, the product of a row and a column, and the columns of a matrix
  function Between(a: real, x: real, y: real): real {
    a * x + (1.0 - a) * y
  }

  function Dot(r: Row, c: Row): real {
    r.unk * c.unk + r.sat * c.sat + r.vio * c.vio
  }

  function Columns(m: Matrix): Matrix {
    Matrix(Row(m.unk.unk, m.sat.unk, m.vio.unk), Row(m.unk.sat, m.sat.sat, m.vio.sat), Row(m.unk.vio, m.sat.vio, m.vio.vio))
  }

  function RowBetween(a: real, r: Row, s: Row): Row {
    Row(Between(a, r.unk, s.unk), Between(a, r.sat, s.sat), Between(a, r.vio, s.vio))
  }

  lemma WeightedIsBetween(a: real, r: Row, s: Row)
    ensures Weighted(a, r, 1.0 - a, s) == RowBetween(a, r, s)
  {
  }

  lemma MixtureByColumns(m: Motion)
    ensures var a := m.assumedGood; var x, g, b := Columns(Mixture(m)), Columns(m.good), Columns(m.bad);
            && x.unk == RowBetween(a, g.unk, b.unk) && x.sat == RowBetween(a, g.sat, b.sat)
            && x.vio == RowBetween(a, g.vio, b.vio)
  {
    hide Weighted, Between;
    WeightedIsBetween(m.assumedGood, m.good.unk, m.bad.unk);
    WeightedIsBetween(m.assumedGood, m.good.sat, m.bad.sat);
    WeightedIsBetween(m.assumedGood, m.good.vio, m.bad.vio);
  }

  lemma BlendedTerm(x: real, a: real, g: real, b: real)
    ensures x * (a * g + (1.0 - a) * b) == a * (x * g) + (1.0 - a) * (x * b)
  {
  }

  lemma Distribute(a: real, x: real, y: real, z: real)
    ensures a * x + a * y + a * z == a * (x + y + z)
  {
  }

  lemma DotBetween(r: Row, a: real, g: Row, b: Row)
    ensures Dot(r, RowBetween(a, g, b)) == Between(a, Dot(r, g), Dot(r, b))
  {
    BlendedTerm(r.unk, a, g.unk, b.unk);
    BlendedTerm(r.sat, a, g.sat, b.sat);
    BlendedTerm(r.vio, a, g.vio, b.vio);
    Distribute(a, r.unk * g.unk, r.sat * g.sat, r.vio * g.vio);
    Distribute(1.0 - a, r.unk * b.unk, r.sat * b.sat, r.vio * b.vio);
  }

  lemma MovedByDots(r: Row, m: Matrix, q: Row)
    ensures Moved(r, m, q) <==> q == Row(Dot(r, Columns(m).unk), Dot(r, Columns(m).sat), Dot(r, Columns(m).vio))
  {
  }

  lemma WriteByDots(r: Row, m: Motion, q: Row)
    requires forall g, b :: Moved(r, m.good, g) && Moved(r, m.bad, b) ==> q == RowBetween(m.assumedGood, g, b)
    ensures MovedByWrite(r, m, q)
  {
    hide Moved;
  }

  lemma MixtureIsBetween(r: Row, m: Motion, q: Row)
    requires Moved(r, Mixture(m), q)
    ensures MovedByWrite(r, m, q)
  {
    hide Mixture, Dot, Between, Columns, Moved, MovedByWrite;
    var x, y, z := Columns(Mixture(m)), Columns(m.good), Columns(m.bad);
    MixtureByColumns(m);
    MovedByDots(r, Mixture(m), q);
    DotBetween(r, m.assumedGood, y.unk, z.unk);
    DotBetween(r, m.assumedGood, y.sat, z.sat);
    DotBetween(r, m.assumedGood, y.vio, z.vio);
    forall g, b | Moved(r, m.good, g) && Moved(r, m.bad, b) ensures q == RowBetween(m.assumedGood, g, b) {
      MovedByDots(r, m.good, g);
      MovedByDots(r, m.bad, b);
    }
    WriteByDots(r, m, q);
  }

  lemma PredictedMoves(h: Setup, b: seq<Row>, files: seq<string>, i: nat)
    requires ProperSetup(h) && |b| == |h.support| && i < |b| && Simplex(b[i])
    ensures MovedByEdit(h.support[i], files, b[i], h.motion, Predicted(h, b, files)[i])
  {
    hide Moved, MovedByWrite, Times, Mixture, Advance, Stochastic, Simplex;
    MixtureIsStochastic(h.motion);
    TimesMoves(b[i], Mixture(h.motion));
    MixtureIsBetween(b[i], h.motion, Times(b[i], Mixture(h.motion)));
    TimesMoves(b[i], h.motion.leak);
    AdvanceKeepsSimplex(b[i], Mixture(h.motion));
    AdvanceKeepsSimplex(b[i], h.motion.leak);
  }

  /** When all writes are assumed good only the good matrix matters, and when none are only the bad one. */
  lemma WriteExtremes(r: Row, m: Motion, q: Row)
    requires MovedByWrite(r, m, q)
    ensures m.assumedGood == 1.0 ==> Moved(r, m.good, q)
    ensures m.assumedGood == 0.0 ==> Moved(r, m.bad, q)
  {
    hide Times;
    TimesMoves(r, m.good);
    TimesMoves(r, m.bad);
    assert Moved(r, m.good, Times(r, m.good)) && Moved(r, m.bad, Times(r, m.bad));
  }

  function Updated(h: Setup, b: seq<Row>, id: string, lik: Row): (r: seq<Row>)
    requires |b| == |h.support| && ProperSetup(h)
    requires id in h.idx ==> NonNegative(b[h.idx[id]]) && Positive(lik)
  {
    if id in h.idx then b[h.idx[id] := Posterior(b[h.idx[id]], lik)] else b
  }

  function Seeded(h: Setup, b: seq<Row>, id: string, v: Row): (r: seq<Row>)
    requires |b| == |h.support| && ProperSetup(h)
  {
    if id in h.idx then b[h.idx[id] := Normalise(v)] else b
  }

  // ---- the filter object ----

  class PerSpecHMM {
    const specs: seq<SpecDescriptor>
    const idx: map<string, nat>
    const support: seq<seq<string>>
    const motion: Motion
    const belief: array<Row>

    function TheSetup(): Setup {
      Setup(idx, support, motion)
    }

    predicate Knows(id: string) {
      id in idx
    }

    ghost predicate Valid()
      reads belief
    {
      && |specs| == belief.Length
      && TheSetup() == SetupOf(specs, motion) && ProperSetup(TheSetup())
      && forall i :: 0 <= i < belief.Length ==> Simplex(belief[i])
    }

    constructor (specs: seq<SpecDescriptor>, motion: Motion)
      requires ProperMotion(motion)
      ensures Valid() && fresh(belief)
      ensures this.specs == specs && this.motion == motion
      ensures belief[..] == seq(|specs|, _ => UNIFORM)
    {
      hide ProperMotion;
      var index: map<string, nat>, files: seq<seq<string>> := map[], [];
      for i := 0 to |specs|
        invariant index == IndexOf(specs[..i])
        invariant |files| == i && forall k :: 0 <= k < i ==> files[k] == specs[k].support
      {
        assert specs[..i + 1][..i] == specs[..i];
        index := index[specs[i].id := i];
        files := files + [specs[i].support];
      }
      assert specs[..|specs|] == specs;
      SetupIsProper(specs, motion);
      this.specs, this.idx, this.support, this.motion := specs, index, files, motion;
      belief := new Row[|specs|](_ => UNIFORM);
    }

    method Marginal(id: string) returns (r: Reply, row: Row)
      requires Valid()
      ensures r.Ok? <==> Knows(id)
      ensures r.Ok? ==> row == belief[idx[id]] && Simplex(row)
    {
      row := UNIFORM;
      if id !in idx {
        return UnknownSpec(id), row;
      }
      r, row := Ok, belief[idx[id]];
    }

    /** Overwrites one row, whatever is given; an id that is not a spec is ignored. */
    method SetBelief(id: string, v: Row)
      requires Valid()
      modifies belief
      ensures belief[..] == Seeded(TheSetup(), old(belief[..]), id, v)
      ensures Valid() <==> (Knows(id) ==> Seedable(v))
    {
      if id !in idx {
        return;
      }
      NormaliseMakesSimplex(v);
      belief[idx[id]] := Normalise(v);
    }

    method Predict(files: seq<string>)
      requires Valid()
      modifies belief
      ensures Valid() && belief[..] == Predicted(TheSetup(), old(belief[..]), files)
      ensures forall i :: 0 <= i < |specs| ==> MovedByEdit(specs[i].support, files, old(belief[..])[i], motion, belief[..][i])
    {
      hide Advance, Mixture, Stochastic, Simplex, MovedByEdit;
      ghost var was := belief[..];
      var mix := Mixture(motion);
      MixtureIsStochastic(motion);
      for i := 0 to |specs|
        invariant forall k :: i <= k < belief.Length ==> belief[k] == was[k]
        invariant forall k :: 0 <= k < i ==> belief[k] == Advance(was[k], Transition(TheSetup(), k, files))
        invariant forall k :: 0 <= k < belief.Length ==> Simplex(belief[k])
      {
        var m := if Touched(support[i], files) then mix else motion.leak;
        AdvanceKeepsSimplex(belief[i], m);
        belief[i] := Advance(belief[i], m);
      }
      forall i | 0 <= i < |specs| ensures MovedByEdit(specs[i].support, files, was[i], motion, belief[..][i]) {
        PredictedMoves(TheSetup(), was, files, i);
      }
    }

    method UpdateTest(id: string, outcome: string, sensor: Sensor) returns (r: Reply)
      requires Valid() && Positive(sensor(id, outcome))
      modifies belief
      ensures Valid()
      ensures r.Ok? <==> Knows(id)
      ensures belief[..] == Updated(TheSetup(), old(belief[..]), id, sensor(id, outcome))
    {
      hide Posterior;
      if id !in idx {
        return UnknownSpec(id);
      }
      PosteriorIsBayes(belief[idx[id]], sensor(id, outcome));
      belief[idx[id]] := Posterior(belief[idx[id]], sensor(id, outcome));
      r := Ok;
    }
  }

  // ---- whole runs ----

  datatype Step = Files(paths: seq<string>) | Test(id: string, outcome: string) | Seed(id: string, v: Row)

  ghost predicate ProperSteps(steps: seq<Step>, sensor: Sensor) {
    forall s :: s in steps ==> (s.Test? ==> Positive(sensor(s.id, s.outcome))) && (s.Seed? ==> Seedable(s.v))
  }

  predicate AllSimplex(b: seq<Row>) {
    forall i :: 0 <= i < |b| ==> Simplex(b[i])
  }

  ghost predicate Ready(h: Setup, b: seq<Row>) {
    ProperSetup(h) && |b| == |h.support| && AllSimplex(b)
  }

  function After(h: Setup, b: seq<Row>, s: Step, sensor: Sensor): (r: seq<Row>)
    requires Ready(h, b) && ProperSteps([s], sensor)
    ensures |r| == |b|
  {
    assert s in [s];
    match s
    case Files(paths) => Predicted(h, b, paths)
    case Test(id, outcome) => Updated(h, b, id, sensor(id, outcome))
    case Seed(id, v) => Seeded(h, b, id, v)
  }

  /** Each step keeps every row a probability distribution. */
  lemma StepKeepsSimplex(h: Setup, b: seq<Row>, s: Step, sensor: Sensor)
    requires Ready(h, b) && ProperSteps([s], sensor)
    ensures Ready(h, After(h, b, s, sensor))
  {
    hide Advance, Posterior, Mixture, Stochastic, Simplex, Normalise;
    assert s in [s];
    match s
    case Files(paths) =>
      MixtureIsStochastic(h.motion);
      forall i | 0 <= i < |b| ensures Simplex(Predicted(h, b, paths)[i]) {
        AdvanceKeepsSimplex(b[i], Transition(h, i, paths));
      }
    case Test(id, outcome) =>
      if id in h.idx { PosteriorKeepsSimplex(b[h.idx[id]], sensor(id, outcome)); }
    case Seed(id, v) =>
      NormaliseMakesSimplex(v);
  }

  lemma PosteriorKeepsSimplex(prior: Row, lik: Row)
    requires Simplex(prior) && Positive(lik)
    ensures NonNegative(prior) && Simplex(Posterior(prior, lik))
  {
    hide Posterior;
    PosteriorIsBayes(prior, lik);
  }

  ghost function Run(h: Setup, b: seq<Row>, steps: seq<Step>, sensor: Sensor): (r: seq<Row>)
    requires Ready(h, b) && ProperSteps(steps, sensor)
    ensures Ready(h, r)
    decreases |steps|
  {
    if steps == [] then b
    else
      assert steps[0] in steps && forall s :: s in steps[1..] ==> s in steps;
      StepKeepsSimplex(h, b, steps[0], sensor);
      Run(h, After(h, b, steps[0], sensor), steps[1..], sensor)
  }

  /** Every belief a run can reach is a distribution, with every status still possible after a test of its spec. */
  lemma {:induction false} ReachableBeliefs(h: Setup, b: seq<Row>, steps: seq<Step>, sensor: Sensor, id: string, outcome: string)
    requires Ready(h, b) && ProperSteps(steps, sensor)
    requires id in h.idx && Positive(sensor(id, outcome))
    ensures AllSimplex(Run(h, b, steps, sensor))
    ensures var r := Run(h, b, steps, sensor);
            Positive(Updated(h, r, id, sensor(id, outcome))[h.idx[id]])
  {
    hide Run, Posterior;
    var r := Run(h, b, steps, sensor);
    PosteriorIsBayes(r[h.idx[id]], sensor(id, outcome));
  }

  lemma {:induction false} RunAppend(h: Setup, b: seq<Row>, first: seq<Step>, second: seq<Step>, sensor: Sensor)
    requires Ready(h, b) && ProperSteps(first, sensor) && ProperSteps(second, sensor)
    ensures ProperSteps(first + second, sensor)
    ensures Run(h, b, first + second, sensor) == Run(h, Run(h, b, first, sensor), second, sensor)
    decreases |first|
  {
    hide After, Ready;
    if first == [] {
      assert first + second == second;
    } else {
      assert first[0] in first && forall s :: s in first[1..] ==> s in first;
      assert (first + second)[1..] == first[1..] + second;
      StepKeepsSimplex(h, b, first[0], sensor);
      RunAppend(h, After(h, b, first[0], sensor), first[1..], second, sensor);
    }
  }

  // ---- specs are independent of one another ----

  /** What a step does to the row of one spec, told by that row alone. */
  function RowAfter(h: Setup, i: nat, row: Row, s: Step, sensor: Sensor): Row
    requires ProperSetup(h) && i < |h.support| && Simplex(row) && ProperSteps([s], sensor)
  {
    assert s in [s];
    match s
    case Files(paths) => Advance(row, Transition(h, i, paths))
    case Test(id, outcome) => if id in h.idx && h.idx[id] == i then Posterior(row, sensor(id, outcome)) else row
    case Seed(id, v) => if id in h.idx && h.idx[id] == i then Normalise(v) else row
  }

  lemma RowStep(h: Setup, b: seq<Row>, i: nat, s: Step, sensor: Sensor)
    requires Ready(h, b) && ProperSteps([s], sensor) && i < |b|
    ensures After(h, b, s, sensor)[i] == RowAfter(h, i, b[i], s, sensor)
    ensures Simplex(RowAfter(h, i, b[i], s, sensor))
  {
    hide Advance, Posterior, Normalise, Simplex, Transition;
    StepKeepsSimplex(h, b, s, sensor);
    assert s in [s];
  }

  ghost function RowRun(h: Setup, i: nat, row: Row, steps: seq<Step>, sensor: Sensor): Row
    requires ProperSetup(h) && i < |h.support| && Simplex(row) && ProperSteps(steps, sensor)
    decreases |steps|
  {
    if steps == [] then row
    else
      assert steps[0] in steps && forall s :: s in steps[1..] ==> s in steps;
      RowAfterKeepsSimplex(h, i, row, steps[0], sensor);
      RowRun(h, i, RowAfter(h, i, row, steps[0], sensor), steps[1..], sensor)
  }

  lemma RowAfterKeepsSimplex(h: Setup, i: nat, row: Row, s: Step, sensor: Sensor)
    requires ProperSetup(h) && i < |h.support| && Simplex(row) && ProperSteps([s], sensor)
    ensures Simplex(RowAfter(h, i, row, s, sensor))
  {
    var b := seq(|h.support|, _ => row);
    RowStep(h, b, i, s, sensor);
  }

  /** A run over all specs is, spec by spec, a run of that spec alone: no belief depends on another. */
  lemma {:induction false} SpecsAreIndependent(h: Setup, b: seq<Row>, i: nat, steps: seq<Step>, sensor: Sensor)
    requires Ready(h, b) && ProperSteps(steps, sensor) && i < |b|
    ensures Run(h, b, steps, sensor)[i] == RowRun(h, i, b[i], steps, sensor)
    decreases |steps|
  {
    hide After, RowAfter, Simplex;
    if steps != [] {
      assert steps[0] in steps && forall s :: s in steps[1..] ==> s in steps;
      StepKeepsSimplex(h, b, steps[0], sensor);
      RowStep(h, b, i, steps[0], sensor);
      SpecsAreIndependent(h, After(h, b, steps[0], sensor), i, steps[1..], sensor);
    }
  }

  /** Test outcomes of different specs may be taken in either order. */
  lemma TestsCommute(h: Setup, b: seq<Row>, s: Step, t: Step, sensor: Sensor)
    requires Ready(h, b) && ProperSteps([s, t], sensor) && s.Test? && t.Test?
    requires s.id in h.idx && t.id in h.idx && h.idx[s.id] != h.idx[t.id]
    ensures ProperSteps([s], sensor) && ProperSteps([t], sensor)
    ensures Ready(h, After(h, b, s, sensor)) && Ready(h, After(h, b, t, sensor))
    ensures After(h, After(h, b, s, sensor), t, sensor) == After(h, After(h, b, t, sensor), s, sensor)
  {
    hide Posterior, Simplex;
    assert s in [s, t] && t in [s, t];
    StepKeepsSimplex(h, b, s, sensor);
    StepKeepsSimplex(h, b, t, sensor);
  }
}
