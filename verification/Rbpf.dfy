/** The particle filter over a cluster of specs, with the per-spec filter behind it. */
module Rbpf {
  import opened Beliefs
  import opened Hmm
  import opened Specs
  import opened Particles

  /** The numbers a run draws: throws of a three-sided die, and reals from zero up to one. */
  datatype Randomness = Randomness(die: nat -> nat, unit: nat -> real)

  ghost predicate ProperRandomness(r: Randomness) {
    forall k: nat :: r.die(k) < 3 && 0.0 <= r.unit(k) < 1.0
  }

  function Entries(r: Row): (p: seq<real>)
    ensures |p| == 3
  {
    [r.unk, r.sat, r.vio]
  }

  function RowAt(m: Matrix, s: nat): Row {
    if s == 0 then m.unk else if s == 1 then m.sat else m.vio
  }

  function At(r: Row, s: nat): real {
    if s == 0 then r.unk else if s == 1 then r.sat else r.vio
  }

  lemma EntriesOfSimplex(r: Row)
    requires Simplex(r)
    ensures Distribution(Entries(r))
  {
    SumAppend([], r.unk);
    SumAppend([r.unk], r.sat);
    SumAppend([r.unk, r.sat], r.vio);
    assert [] + [r.unk] == [r.unk] && [r.unk] + [r.sat] == [r.unk, r.sat];
    assert [r.unk, r.sat] + [r.vio] == Entries(r);
  }

  lemma SumAppend(w: seq<real>, x: real)
    ensures SeqSum(w + [x]) == SeqSum(w) + x
  {
    assert (w + [x])[..|w|] == w;
  }

  /** One draw of a status, by where `u` falls among the three probabilities. */
  ghost predicate DrawnFrom(r: Row, u: real, t: nat) {
    if u <= r.unk then t == 0 else if u <= r.unk + r.sat then t == 1 else t == 2
  }

  lemma UpToThree(r: Row)
    ensures UpTo(Entries(r), 1) == r.unk && UpTo(Entries(r), 2) == r.unk + r.sat
    ensures UpTo(Entries(r), 3) == Total(r)
  {
    var e := Entries(r);
    SumAppend([], r.unk);
    SumAppend([r.unk], r.sat);
    SumAppend([r.unk, r.sat], r.vio);
    assert e[..1] == [r.unk] == [] + [r.unk];
    assert e[..2] == [r.unk, r.sat] == [r.unk] + [r.sat];
    assert e[..3] == e == [r.unk, r.sat] + [r.vio];
  }

  lemma PickIsDraw(r: Row, u: real, t: nat)
    requires IsPick(Entries(r), u, t)
    ensures DrawnFrom(r, u, t)
  {
    hide UpTo;
    UpToThree(r);
    assert t > 0 ==> UpTo(Entries(r), 1) < u;
    assert t > 1 ==> UpTo(Entries(r), 2) < u;
  }

  /** The row of a matrix that a particle in state `s` moves by. */
  ghost predicate IsRowOf(m: Matrix, s: nat, r: Row) {
    (s == 0 ==> r == m.unk) && (s == 1 ==> r == m.sat) && (s == 2 ==> r == m.vio)
  }

  /**
   A particle in state `s` is drawn into state `t`: by the leak if no support file is edited, and otherwise
   by the mixture of the two writes.
   */
  ghost predicate DrawnByEdit(support: seq<string>, files: seq<string>, m: Motion, s: nat, u: real, t: nat) {
    && ((forall p :: p in support ==> p !in files) ==> forall r :: IsRowOf(m.leak, s, r) ==> DrawnFrom(r, u, t))
    && ((exists p :: p in support && p in files) ==>
          forall g, b :: IsRowOf(m.good, s, g) && IsRowOf(m.bad, s, b) ==> DrawnFrom(RowBetween(m.assumedGood, g, b), u, t))
  }

  lemma TransitionDraws(h: Setup, i: nat, files: seq<string>, s: nat, u: real, t: nat)
    requires i < |h.support| && s < 3 && IsPick(Entries(RowAt(Transition(h, i, files), s)), u, t)
    ensures DrawnByEdit(h.support[i], files, h.motion, s, u, t)
  {
    hide IsPick, Entries, DrawnFrom, Weighted, RowBetween;
    var m := h.motion;
    PickIsDraw(RowAt(Transition(h, i, files), s), u, t);
    WeightedIsBetween(m.assumedGood, m.good.unk, m.bad.unk);
    WeightedIsBetween(m.assumedGood, m.good.sat, m.bad.sat);
    WeightedIsBetween(m.assumedGood, m.good.vio, m.bad.vio);
  }

  function Pointwise(r: Row, s: Row): Row {
    Row(r.unk * s.unk, r.sat * s.sat, r.vio * s.vio)
  }

  // ---- the marginal the particles stand for ----

  /** The weight of the particles in state `s`. */
  function Mass(col: seq<nat>, w: seq<real>, s: nat): real
    requires |col| == |w|
  {
    if col == [] then 0.0
    else
      var n := |col| - 1;
      Mass(col[..n], w[..n], s) + if col[n] == s then w[n] else 0.0
  }

  predicate States(col: seq<nat>) {
    forall i :: 0 <= i < |col| ==> col[i] < 3
  }

  function Masses(col: seq<nat>, w: seq<real>): Row
    requires |col| == |w|
  {
    Row(Mass(col, w, 0), Mass(col, w, 1), Mass(col, w, 2))
  }

  lemma {:induction false} MassesAddUp(col: seq<nat>, w: seq<real>)
    requires |col| == |w| && States(col) && AllNonNegative(w)
    ensures Total(Masses(col, w)) == SeqSum(w) && NonNegative(Masses(col, w))
  {
    if col != [] {
      var n := |col| - 1;
      MassesAddUp(col[..n], w[..n]);
      OneMoreMass(col, w);
      assert SeqSum(w) == SeqSum(w[..n]) + w[n];
    }
  }

  lemma OneMoreMass(col: seq<nat>, w: seq<real>)
    requires |col| == |w| && States(col) && col != [] && w[|col| - 1] >= 0.0
    requires NonNegative(Masses(col[..|col| - 1], w[..|col| - 1]))
    ensures NonNegative(Masses(col, w))
    ensures Total(Masses(col, w)) == Total(Masses(col[..|col| - 1], w[..|col| - 1])) + w[|col| - 1]
  {
    var n := |col| - 1;
    OneMass(col, w, 0);
    OneMass(col, w, 1);
    OneMass(col, w, 2);
    hide Mass;
  }

  lemma OneMass(col: seq<nat>, w: seq<real>, s: nat)
    requires |col| == |w| && col != []
    ensures Mass(col, w, s)
            == Mass(col[..|col| - 1], w[..|col| - 1], s) + if col[|col| - 1] == s then w[|col| - 1] else 0.0
  {
  }

  lemma {:induction false} MassDivided(col: seq<nat>, w: seq<real>, t: real, s: nat)
    requires |col| == |w| && t > 0.0
    ensures Mass(col, DivideBy(w, t), s) == Mass(col, w, s) / t
  {
    if col == [] {
      UniqueQuotient(0.0, t, 0.0);
    } else {
      var n := |col| - 1;
      MassDivided(col[..n], w[..n], t, s);
      assert DivideBy(w, t)[..n] == DivideBy(w[..n], t);
      AddQuotients(Mass(col[..n], w[..n], s), w[n], t);
    }
  }

  lemma MassesDivided(col: seq<nat>, w: seq<real>, t: real)
    requires |col| == |w| && t > 0.0
    ensures Masses(col, DivideBy(w, t)) == Over(Masses(col, w), t)
  {
    MassDivided(col, w, t, 0);
    MassDivided(col, w, t, 1);
    MassDivided(col, w, t, 2);
  }

  function Boosted(x: real, lik: Row, s: nat): real {
    x * At(lik, s)
  }

  /** Each weight times the likelihood of its particle's state. */
  function Reweighted(col: seq<nat>, w: seq<real>, lik: Row): (r: seq<real>)
    requires |col| == |w|
    ensures |r| == |w|
  {
    seq(|w|, i requires 0 <= i < |w| => Boosted(w[i], lik, col[i]))
  }

  lemma ReweightedIsPositive(col: seq<nat>, w: seq<real>, lik: Row)
    requires |col| == |w| && AllPositive(w) && Positive(lik)
    ensures AllPositive(Reweighted(col, w, lik))
  {
    forall i | 0 <= i < |w| ensures Boosted(w[i], lik, col[i]) > 0.0 {
      Multiply(w[i], At(lik, col[i]));
    }
  }

  lemma ReweightedFront(col: seq<nat>, w: seq<real>, lik: Row)
    requires |col| == |w| && col != []
    ensures Reweighted(col, w, lik)[..|col| - 1] == Reweighted(col[..|col| - 1], w[..|col| - 1], lik)
  {
    hide Boosted;
  }

  lemma {:induction false} MassReweighted(col: seq<nat>, w: seq<real>, lik: Row, s: nat)
    requires |col| == |w|
    ensures Mass(col, Reweighted(col, w, lik), s) == Mass(col, w, s) * At(lik, s)
  {
    if col != [] {
      var n := |col| - 1;
      MassReweighted(col[..n], w[..n], lik, s);
      ReweightedFront(col, w, lik);
      AddProducts(Mass(col[..n], w[..n], s), if col[n] == s then w[n] else 0.0, At(lik, s));
    }
  }

  lemma AddProducts(x: real, y: real, c: real)
    ensures (x + y) * c == x * c + y * c
  {
  }

  /** The marginal of one cluster spec: normalised weights, counted by state, normalised again. */
  function MarginalOf(col: seq<nat>, w: seq<real>): Row
    requires |col| == |w| && AllPositive(w)
  {
    var counts := Masses(col, NormalisedWeights(w));
    if Total(counts) > EPS then Over(counts, Total(counts)) else UNIFORM
  }

  /** Both normalisations do no more than divide by the sum of the weights. */
  lemma MarginalByMass(col: seq<nat>, w: seq<real>)
    requires |col| == |w| && AllPositive(w) && States(col) && w != []
    ensures SeqSum(w) > 0.0 && MarginalOf(col, w) == Over(Masses(col, w), SeqSum(w))
    ensures Simplex(MarginalOf(col, w))
  {
    hide Masses, NormalisedWeights, Over, Total;
    WeightsAreNormalised(w);
    MassesAddUp(col, NormalisedWeights(w));
    MassesDivided(col, w, SeqSum(w));
    OverOne(Masses(col, NormalisedWeights(w)));
  }

  lemma MarginalIsSimplex(col: seq<nat>, w: seq<real>)
    requires |col| == |w| && AllPositive(w) && States(col)
    ensures Simplex(MarginalOf(col, w))
  {
    hide Masses;
    if w == [] {
      MassesAddUp(col, NormalisedWeights(w));
    } else {
      MarginalByMass(col, w);
    }
  }

  /** Reweighting is exact Bayes on the marginal the particles stand for. */
  lemma ReweightingIsBayes(col: seq<nat>, w: seq<real>, lik: Row)
    requires |col| == |w| && AllPositive(w) && States(col) && w != [] && Positive(lik)
    ensures AllPositive(Reweighted(col, w, lik))
    ensures var p := MarginalOf(col, w);
            var e := Pointwise(p, lik);
            Total(e) > 0.0 && MarginalOf(col, Reweighted(col, w, lik)) == Over(e, Total(e))
  {
    hide Masses, MarginalOf, Over, Reweighted, AllPositive, Pointwise;
    var v := Reweighted(col, w, lik);
    ReweightedIsPositive(col, w, lik);
    MarginalByMass(col, w);
    MarginalByMass(col, v);
    MassesReweighted(col, w, lik);
    PositiveIsNonNegative(v);
    MassesAddUp(col, v);
    BayesByMass(Masses(col, w), SeqSum(w), lik, Masses(col, v), SeqSum(v));
  }

  lemma PositiveIsNonNegative(w: seq<real>)
    requires AllPositive(w)
    ensures AllNonNegative(w)
  {
  }

  lemma MassesReweighted(col: seq<nat>, w: seq<real>, lik: Row)
    requires |col| == |w|
    ensures Masses(col, Reweighted(col, w, lik)) == Pointwise(Masses(col, w), lik)
  {
    hide Mass, Reweighted;
    MassReweighted(col, w, lik, 0);
    MassReweighted(col, w, lik, 1);
    MassReweighted(col, w, lik, 2);
  }

  lemma BayesByMass(m: Row, s: real, lik: Row, v: Row, t: real)
    requires s > 0.0 && t > 0.0 && Total(v) == t && v == Pointwise(m, lik)
    ensures var e := Pointwise(Over(m, s), lik); Total(e) > 0.0 && Over(v, t) == Over(e, Total(e))
  {
    ScaledEntry(m.unk, s, lik.unk);
    ScaledEntry(m.sat, s, lik.sat);
    ScaledEntry(m.vio, s, lik.vio);
    SameShares(Pointwise(Over(m, s), lik), v, s);
  }

  lemma ScaledEntry(x: real, s: real, l: real)
    requires s > 0.0
    ensures x / s * l * s == x * l
  {
    var q := x / s;
    assert q * s == x;
    assert q * l * s == q * s * l;
  }

  lemma SameShares(e: Row, v: Row, s: real)
    requires s > 0.0 && Total(v) > 0.0 && v == Row(e.unk * s, e.sat * s, e.vio * s)
    ensures Total(e) > 0.0 && Over(v, Total(v)) == Over(e, Total(e))
  {
    Gather(e.unk, e.sat, e.vio, s, v.unk, v.sat, v.vio);
    PositiveFactor(Total(e), s, Total(v));
    assert Total(v) == Total(e) * s;
    var t := Total(e);
    CommonDivisor(e.unk, t, s, v.unk, Total(v));
    CommonDivisor(e.sat, t, s, v.sat, Total(v));
    CommonDivisor(e.vio, t, s, v.vio, Total(v));
  }

  lemma PositiveFactor(x: real, s: real, y: real)
    requires s > 0.0 && y > 0.0 && x * s == y
    ensures x > 0.0
  {
    if x < 0.0 { ProductSign(-x, s, -y); }
  }

  lemma CommonDivisor(x: real, t: real, s: real, y: real, u: real)
    requires t > 0.0 && s > 0.0 && u > 0.0 && y == x * s && u == t * s
    ensures y / u == x / t
  {
    var q := x / t;
    assert q * t == x;
    assert q * (t * s) == q * t * s;
    UniqueQuotient(y, u, q);
  }

  // ---- the filter object ----

  /** Which draw moves particle `k` at cluster place `p`: the places take `n` draws each, in turn. */
  function DrawFor(start: nat, k: nat, p: nat, n: nat): nat {
    start + p * n + k
  }

  class RBPF {
    const hmm: PerSpecHMM
    /** The rows of the cluster's specs, and where in the cluster an id is tracked. */
    const cluster: seq<nat>
    const position: map<string, nat>
    const n: nat
    const essFraction: real
    const rng: Randomness
    var particles: array2<nat>
    var weights: seq<real>
    var drawn: nat

    ghost predicate Valid()
      reads this, particles, hmm.belief
    {
      && hmm.Valid() && ProperRandomness(rng)
      && (forall p :: 0 <= p < |cluster| ==> cluster[p] < hmm.belief.Length)
      && (forall id :: id in position ==>
            position[id] < |cluster| && id in hmm.idx && cluster[position[id]] == hmm.idx[id])
      && particles.Length0 == n && particles.Length1 == |cluster|
      && (forall m, p :: 0 <= m < n && 0 <= p < |cluster| ==> particles[m, p] < 3)
      && |weights| == n && AllPositive(weights)
    }

    constructor (specs: seq<SpecDescriptor>, motion: Motion, ids: seq<string>, n: nat, essFraction: real, rng: Randomness)
      requires ProperMotion(motion) && ProperRandomness(rng)
      ensures Valid() && fresh(hmm) && fresh(hmm.belief) && fresh(particles)
      ensures hmm.specs == specs && hmm.motion == motion && this.n == n && this.rng == rng
      ensures this.essFraction == essFraction
      ensures forall id :: id in position <==> id in ids && hmm.Knows(id)
      ensures forall m :: 0 <= m < n ==> weights[m] == 1.0 / n as real
      ensures forall m, p :: 0 <= m < n && 0 <= p < |cluster| ==> particles[m, p] == rng.die(Throw(m, p, |cluster|))
      ensures drawn == n * |cluster|
    {
      hide ProperMotion, SetupOf, Throw;
      var inner := new PerSpecHMM(specs, motion);
      var rows, at := Resolve(inner, ids);
      var cells := Scatter(n, |rows|, rng);
      this.hmm, this.cluster, this.position := inner, rows, at;
      this.n, this.essFraction, this.rng, this.drawn := n, essFraction, rng, n * |rows|;
      this.particles := cells;
      this.weights := Even(n);
    }

    /** Moves every particle at one cluster place by a draw from the row of its present state. */
    method MoveColumn(p: nat, m: Matrix)
      requires Valid() && p < |cluster| && Stochastic(m)
      modifies particles, this`drawn
      ensures Valid() && drawn == old(drawn) + n
      ensures forall k, q :: 0 <= k < n && 0 <= q < |cluster| && q != p ==> particles[k, q] == old(particles[k, q])
      ensures forall k :: 0 <= k < n ==>
                IsPick(Entries(RowAt(m, old(particles[k, p]))), rng.unit(old(drawn) + k), particles[k, p])
    {
      hide Simplex, IsPick, Entries, AllPositive, PerSpecHMM.Valid;
      ghost var start := drawn;
      for k := 0 to n
        invariant drawn == start + k && hmm.Valid()
        invariant forall i, q :: 0 <= i < n && 0 <= q < |cluster| ==> particles[i, q] < 3
        invariant forall i, q :: 0 <= i < n && 0 <= q < |cluster| && (q != p || k <= i) ==> particles[i, q] == old(particles[i, q])
        invariant forall i :: 0 <= i < k ==>
                    IsPick(Entries(RowAt(m, old(particles[i, p]))), rng.unit(start + i), particles[i, p])
      {
        var row := RowAt(m, particles[k, p]);
        EntriesOfSimplex(row);
        var state := SampleCategorical(Entries(row), rng.unit(drawn));
        drawn := drawn + 1;
        particles[k, p] := state;
      }
    }

    /** Moves the filter behind and, place by place, the particles; each move uses the next draw. */
    method Predict(files: seq<string>)
      requires Valid()
      modifies particles, hmm.belief, this`drawn
      ensures Valid() && drawn == old(drawn) + |cluster| * n
      ensures hmm.belief[..] == Predicted(hmm.TheSetup(), old(hmm.belief[..]), files)
      ensures forall i :: 0 <= i < hmm.belief.Length ==>
                MovedByEdit(hmm.support[i], files, old(hmm.belief[i]), hmm.motion, hmm.belief[i])
      ensures forall k, p :: 0 <= k < n && 0 <= p < |cluster| ==>
                DrawnByEdit(hmm.support[cluster[p]], files, hmm.motion, old(particles[k, p]),
                            rng.unit(DrawFor(old(drawn), k, p, n)), particles[k, p])
    {
      hide Predicted, IsPick, Entries, AllPositive, Mixture, Stochastic, PerSpecHMM.Valid, Touched, MovedByEdit, DrawnByEdit;
      HmmFacts();
      hmm.Predict(files);
      HmmFacts();
      ghost var b := hmm.belief[..];
      ghost var start := drawn;
      var mix := Mixture(hmm.motion);
      MixtureIsStochastic(hmm.motion);
      for p := 0 to |cluster|
        invariant Valid() && hmm.belief[..] == b && drawn == start + p * n
        invariant forall k, q :: 0 <= k < n && p <= q < |cluster| ==> particles[k, q] == old(particles[k, q])
        invariant forall k, q :: 0 <= k < n && 0 <= q < p ==>
                    IsPick(Entries(RowAt(Transition(hmm.TheSetup(), cluster[q], files), old(particles[k, q]))),
                           rng.unit(DrawFor(start, k, q, n)), particles[k, q])
      {
        var m := if Touched(hmm.support[cluster[p]], files) then mix else hmm.motion.leak;
        MoveColumn(p, m);
        assert (p + 1) * n == p * n + n;
      }
      forall k, p | 0 <= k < n && 0 <= p < |cluster|
        ensures DrawnByEdit(hmm.support[cluster[p]], files, hmm.motion, old(particles[k, p]),
                            rng.unit(DrawFor(old(drawn), k, p, n)), particles[k, p])
      {
        TransitionDraws(hmm.TheSetup(), cluster[p], files, old(particles[k, p]), rng.unit(DrawFor(start, k, p, n)), particles[k, p]);
      }
    }

    /** Draws a new population of copies and forgets the weights. */
    method Resample() returns (ghost picks: seq<nat>)
      requires Valid() && n > 0
      modifies this`particles, this`weights, this`drawn
      ensures Valid() && fresh(particles) && drawn == old(drawn) + n
      ensures weights == Even(n)
      ensures |picks| == n && Picked(NormalisedWeights(old(weights)), rng, old(drawn), picks)
      ensures Copies(particles, old(particles), picks)
    {
      hide IsPick, AllPositive, NormalisedWeights, PerSpecHMM.Valid, UpTo, Even, Copies, Picked;
      WeightsAreNormalised(weights);
      var copy;
      copy, picks := DrawCopies(particles, NormalisedWeights(weights), rng, drawn);
      particles, weights, drawn := copy, Even(n), drawn + n;
    }

    /** The weights after an outcome for `id`: changed only if the cluster tracks it. */
    ghost function WeightsAfter(id: string, lik: Row): (w: seq<real>)
      requires Valid()
      reads this, particles, hmm.belief
      ensures |w| == n
    {
      if id in position then Reweighted(Column(particles, position[id]), weights, lik) else weights
    }

    method Reweight(pos: nat, lik: Row)
      requires Valid() && pos < |cluster| && Positive(lik)
      modifies this`weights
      ensures Valid() && weights == Reweighted(Column(particles, pos), old(weights), lik)
    {
      hide Boosted, PerSpecHMM.Valid, AllPositive;
      ghost var was := weights;
      ghost var col := Column(particles, pos);
      for k := 0 to n
        invariant |weights| == n && hmm.Valid() && unchanged(this`particles)
        invariant forall i :: 0 <= i < k ==> weights[i] == Boosted(was[i], lik, col[i])
        invariant forall i :: k <= i < n ==> weights[i] == was[i]
      {
        weights := weights[k := Boosted(weights[k], lik, particles[k, pos])];
      }
      assert weights == Reweighted(col, was, lik);
      ReweightedIsPositive(col, was, lik);
    }

    /** Reweights the cluster, updates the filter behind, and resamples when too few particles count. */
    method UpdateTest(id: string, outcome: string, sensor: Sensor) returns (r: Reply, ghost picks: seq<nat>)
      requires Valid() && Positive(sensor(id, outcome))
      modifies this`particles, this`weights, this`drawn, hmm.belief
      ensures Valid()
      ensures r.Ok? <==> hmm.Knows(id)
      ensures hmm.belief[..] == Updated(hmm.TheSetup(), old(hmm.belief[..]), id, sensor(id, outcome))
      ensures var w := old(WeightsAfter(id, sensor(id, outcome)));
              && AllPositive(w)
              && if r.Ok? && Ess(w) < essFraction * n as real then
                   && fresh(particles) && weights == Even(n)
                   && |picks| == n && Picked(NormalisedWeights(w), rng, old(drawn), picks)
                   && Copies(particles, old(particles), picks)
                 else
                   particles == old(particles) && weights == w && drawn == old(drawn)
    {
      hide Boosted, AllPositive, Ess, Even, Copies, Picked, Column, Reweighted, Updated, NormalisedWeights;
      picks := [];
      var lik := sensor(id, outcome);
      if id in position {
        Reweight(position[id], lik);
      }
      r := hmm.UpdateTest(id, outcome, sensor);
      if r.Ok? {
        if n == 0 { NoneToResample(weights); }
        if Ess(weights) < essFraction * n as real {
          picks := Resample();
        }
      }
    }

    /** A cluster spec is judged by the particles, any other by the filter behind. */
    method Marginal(id: string) returns (r: Reply, row: Row)
      requires Valid()
      ensures r.Ok? <==> hmm.Knows(id)
      ensures r.Ok? ==> Simplex(row)
      ensures id in position ==> row == MarginalOf(Column(particles, position[id]), weights)
      ensures r.Ok? && id !in position ==> row == hmm.belief[hmm.idx[id]]
    {
      hide NormalisedWeights, Simplex, AllPositive;
      if id in position {
        var pos := position[id];
        var w := NormalisedWeights(weights);
        ghost var col := Column(particles, pos);
        var unk, sat, vio := 0.0, 0.0, 0.0;
        for k := 0 to n
          invariant unk == Mass(col[..k], w[..k], 0) && sat == Mass(col[..k], w[..k], 1) && vio == Mass(col[..k], w[..k], 2)
        {
          OneMass(col[..k + 1], w[..k + 1], 0);
          OneMass(col[..k + 1], w[..k + 1], 1);
          OneMass(col[..k + 1], w[..k + 1], 2);
          assert col[..k + 1][..k] == col[..k] && w[..k + 1][..k] == w[..k];
          match particles[k, pos]
          case 0 => unk := unk + w[k];
          case 1 => sat := sat + w[k];
          case _ => vio := vio + w[k];
        }
        assert col[..n] == col && w[..n] == w;
        var counts := Row(unk, sat, vio);
        row := if Total(counts) > EPS then Over(counts, Total(counts)) else UNIFORM;
        MarginalIsSimplex(col, weights);
        r := Ok;
      } else {
        r, row := hmm.Marginal(id);
      }
    }

    /** Seeds the filter behind; for a cluster spec every particle is drawn afresh from the given marginal. */
    method SetBelief(id: string, v: Row)
      requires Valid() && Seedable(v)
      modifies particles, this`weights, this`drawn, hmm.belief
      ensures Valid()
      ensures hmm.belief[..] == Seeded(hmm.TheSetup(), old(hmm.belief[..]), id, v)
      ensures id !in position ==>
                weights == old(weights) && drawn == old(drawn)
                && forall k, p :: 0 <= k < n && 0 <= p < |cluster| ==> particles[k, p] == old(particles[k, p])
      ensures id in position ==>
                && weights == Even(n) && drawn == old(drawn) + n
                && (forall k :: 0 <= k < n ==>
                      IsPick(Entries(Normalise(v)), rng.unit(old(drawn) + k), particles[k, position[id]]))
                && forall k, p :: 0 <= k < n && 0 <= p < |cluster| && p != position[id] ==>
                     particles[k, p] == old(particles[k, p])
    {
      hide Seeded, IsPick, Entries, AllPositive, Normalise, Simplex, PerSpecHMM.Valid;
      hmm.SetBelief(id, v);
      if id in position {
        NormaliseMakesSimplex(v);
        MoveColumn(position[id], Matrix(Normalise(v), Normalise(v), Normalise(v)));
        weights := Even(n);
      }
    }

    lemma HmmFacts()
      requires hmm.Valid()
      ensures ProperMotion(hmm.motion) && |hmm.support| == hmm.belief.Length == |hmm.specs|
      ensures forall i :: 0 <= i < |hmm.specs| ==> hmm.support[i] == hmm.specs[i].support
      ensures forall id :: id in hmm.idx ==> hmm.idx[id] < hmm.belief.Length
    {
    }
  }

  /** The cluster's rows, leaving out ids that are not specs; a repeated id is tracked at its last place. */
  method Resolve(hmm: PerSpecHMM, ids: seq<string>) returns (rows: seq<nat>, at: map<string, nat>)
    requires hmm.Valid()
    ensures forall p :: 0 <= p < |rows| ==> rows[p] < hmm.belief.Length
    ensures forall id :: id in at <==> id in ids && hmm.Knows(id)
    ensures forall id :: id in at ==> at[id] < |rows| && id in hmm.idx && rows[at[id]] == hmm.idx[id]
  {
    rows, at := [], map[];
    for k := 0 to |ids|
      invariant forall p :: 0 <= p < |rows| ==> rows[p] < hmm.belief.Length
      invariant forall id :: id in at <==> id in ids[..k] && hmm.Knows(id)
      invariant forall id :: id in at ==> at[id] < |rows| && id in hmm.idx && rows[at[id]] == hmm.idx[id]
    {
      if ids[k] in hmm.idx {
        at := at[ids[k] := |rows|];
        rows := rows + [hmm.idx[ids[k]]];
      }
    }
    assert ids[..|ids|] == ids;
  }

  /** The number of the throw for place `p` of particle `m`. */
  function Throw(m: nat, p: nat, width: nat): nat {
    m * width + p
  }

  lemma ThrowNext(m: nat, width: nat)
    ensures Throw(0, 0, width) == 0 && Throw(m, width, width) == Throw(m + 1, 0, width)
  {
  }

  /** Throws the die once for each particle and cluster place, particle by particle. */
  method Scatter(n: nat, width: nat, rng: Randomness) returns (cells: array2<nat>)
    requires ProperRandomness(rng)
    ensures fresh(cells) && cells.Length0 == n && cells.Length1 == width
    ensures forall m, p :: 0 <= m < n && 0 <= p < width ==> cells[m, p] == rng.die(Throw(m, p, width)) < 3
  {
    cells := new nat[n, width]((_, _) => 0);
    var k := 0;
    ThrowNext(0, width);
    for m := 0 to n
      invariant k == Throw(m, 0, width)
      invariant forall i, p :: 0 <= i < m && 0 <= p < width ==> cells[i, p] == rng.die(Throw(i, p, width))
    {
      for p := 0 to width
        invariant k == Throw(m, p, width)
        invariant forall i, q :: 0 <= i < m && 0 <= q < width ==> cells[i, q] == rng.die(Throw(i, q, width))
        invariant forall q :: 0 <= q < p ==> cells[m, q] == rng.die(Throw(m, q, width))
      {
        cells[m, p] := rng.die(k);
        k := k + 1;
      }
      ThrowNext(m, width);
    }
  }

  /** What the particles say about one cluster place. */
  ghost function Column(cells: array2<nat>, p: nat): (r: seq<nat>)
    requires p < cells.Length1
    reads cells
    ensures |r| == cells.Length0
  {
    seq(cells.Length0, m requires 0 <= m < cells.Length0 reads cells => cells[m, p])
  }

  lemma NoneToResample(w: seq<real>)
    requires AllPositive(w) && w == []
    ensures Ess(w) > 0.0
  {
  }

  /** Each pick is the first place where the running sum of the weights reaches its own draw. */
  ghost predicate Picked(w: seq<real>, rng: Randomness, start: nat, picks: seq<nat>) {
    forall m :: 0 <= m < |picks| ==> IsPick(w, rng.unit(start + m), picks[m])
  }

  /** The first rows of `to` are the picked rows of `from`. */
  ghost predicate Copies(to: array2<nat>, from: array2<nat>, picks: seq<nat>)
    reads to, from
  {
    && to.Length1 == from.Length1 && |picks| <= to.Length0
    && forall i :: 0 <= i < |picks| ==>
         picks[i] < from.Length0 && forall p :: 0 <= p < from.Length1 ==> to[i, p] == from[picks[i], p]
  }

  method DrawCopies(from: array2<nat>, w: seq<real>, rng: Randomness, start: nat)
    returns (to: array2<nat>, ghost picks: seq<nat>)
    requires from.Length0 == |w| && Distribution(w) && w != [] && ProperRandomness(rng)
    requires forall m, p :: 0 <= m < from.Length0 && 0 <= p < from.Length1 ==> from[m, p] < 3
    ensures fresh(to) && to.Length0 == from.Length0 && to.Length1 == from.Length1
    ensures forall m, p :: 0 <= m < to.Length0 && 0 <= p < to.Length1 ==> to[m, p] < 3
    ensures |picks| == |w| && Picked(w, rng, start, picks) && Copies(to, from, picks)
  {
    hide IsPick, Distribution;
    var cdf := RunningSums(w);
    to := new nat[from.Length0, from.Length1]((_, _) => 0);
    picks := [];
    for m := 0 to from.Length0
      invariant |picks| == m && Picked(w, rng, start, picks) && Copies(to, from, picks)
      invariant forall i, p :: 0 <= i < to.Length0 && 0 <= p < to.Length1 ==> to[i, p] < 3
    {
      var idx := FirstReaching(w, cdf, rng.unit(start + m));
      PickInRange(w, rng.unit(start + m), idx);
      CopyRow(to, m, from, idx);
      picks := picks + [idx];
    }
  }

  lemma PickInRange(w: seq<real>, u: real, i: nat)
    requires IsPick(w, u, i)
    ensures i < |w|
  {
  }

  method CopyRow(to: array2<nat>, m: nat, from: array2<nat>, idx: nat)
    requires to != from && to.Length1 == from.Length1 && m < to.Length0 && idx < from.Length0
    modifies to
    ensures forall p :: 0 <= p < to.Length1 ==> to[m, p] == from[idx, p]
    ensures forall i, p :: 0 <= i < to.Length0 && 0 <= p < to.Length1 && i != m ==> to[i, p] == old(to[i, p])
  {
    for p := 0 to to.Length1
      invariant forall q :: 0 <= q < p ==> to[m, q] == from[idx, q]
      invariant forall i, q :: 0 <= i < to.Length0 && 0 <= q < to.Length1 && i != m ==> to[i, q] == old(to[i, q])
    {
      to[m, p] := from[idx, p];
    }
  }

  method RunningSums(w: seq<real>) returns (cdf: seq<real>)
    ensures |cdf| == |w| && forall k :: 0 <= k < |w| ==> cdf[k] == UpTo(w, k + 1)
  {
    hide UpTo;
    cdf := [];
    var running := 0.0;
    WholeSum(w);
    for k := 0 to |w|
      invariant |cdf| == k && running == UpTo(w, k)
      invariant forall i :: 0 <= i < k ==> cdf[i] == UpTo(w, i + 1)
    {
      OneMore(w, k);
      running := running + w[k];
      cdf := cdf + [running];
    }
  }

  /** The least place whose running sum reaches `u`; there always is one, so the last place is never a fallback. */
  method FirstReaching(w: seq<real>, cdf: seq<real>, u: real) returns (idx: nat)
    requires Distribution(w) && w != [] && u < 1.0
    requires |cdf| == |w| && forall k :: 0 <= k < |w| ==> cdf[k] == UpTo(w, k + 1)
    ensures IsPick(w, u, idx)
  {
    hide UpTo;
    WholeSum(w);
    idx := 0;
    while idx < |cdf| && cdf[idx] < u
      invariant idx <= |cdf|
      invariant forall k :: 0 < k <= idx ==> UpTo(w, k) < u
    {
      idx := idx + 1;
    }
    assert idx < |cdf|;
  }

  /** The same weight for everyone. */
  function Even(n: nat): (w: seq<real>)
    ensures |w| == n && AllPositive(w) && forall i :: 0 <= i < n ==> w[i] == 1.0 / n as real
  {
    if n == 0 then []
    else
      Quotient(1.0, n as real);
      seq(n, _ => 1.0 / n as real)
  }

  // ---- after resampling ----

  lemma {:induction false} SumOfEqual(w: seq<real>, a: real)
    requires forall i :: 0 <= i < |w| ==> w[i] == a
    ensures SeqSum(w) == |w| as real * a
  {
    if w != [] {
      var n := |w| - 1;
      SumOfEqual(w[..n], a);
      assert |w| as real * a == n as real * a + a;
    }
  }

  /** The weights set by a resampling make every particle count: the effective sample size is the whole number. */
  lemma EssAfterResampling(n: nat)
    requires 0 < n <= 1000000000000
    ensures Ess(Even(n)) == n as real
  {
    hide Ess, NormalisedWeights, Even, SeqSum;
    var w := Even(n);
    SumOfEqual(w, 1.0 / n as real);
    assert SeqSum(w) == 1.0;
    WeightsAreNormalised(w);
    DividedByOne(w);
    EssIsFull(w);
  }

  lemma DividedByOne(w: seq<real>)
    ensures DivideBy(w, 1.0) == w
  {
  }

  /** A state that no particle is in has no weight; a resampling does not bring it back. */
  lemma ExtinctStatesStayExtinct(to: array2<nat>, from: array2<nat>, picks: seq<nat>, p: nat, s: nat)
    requires Copies(to, from, picks) && |picks| == to.Length0 && p < from.Length1
    requires s !in Column(from, p)
    ensures s !in Column(to, p)
    ensures forall w :: |w| == to.Length0 ==> Mass(Column(to, p), w, s) == 0.0
  {
    forall i | 0 <= i < to.Length0 ensures Column(to, p)[i] != s {
      assert Column(from, p)[picks[i]] in Column(from, p);
      assert Column(to, p)[i] == Column(from, p)[picks[i]];
    }
    forall w | |w| == to.Length0 ensures Mass(Column(to, p), w, s) == 0.0 {
      NoMass(Column(to, p), w, s);
    }
  }

  lemma {:induction false} NoMass(col: seq<nat>, w: seq<real>, s: nat)
    requires |col| == |w| && s !in col
    ensures Mass(col, w, s) == 0.0
  {
    if col != [] {
      NoMass(col[..|col| - 1], w[..|w| - 1], s);
    }
  }

  // ---- whole runs ----

  /**
   Takes a run of steps. Whatever the random numbers, the filter behind ends up exactly where the plain
   per-spec filter does on the same steps, so every spec outside the cluster has the plain filter's marginal.
   */
  method Drive(f: RBPF, steps: seq<Step>, sensor: Sensor)
    requires f.Valid() && ProperSteps(steps, sensor)
    requires Ready(f.hmm.TheSetup(), f.hmm.belief[..])
    modifies f, f.particles, f.hmm.belief
    ensures f.Valid() && f.hmm.belief[..] == Run(f.hmm.TheSetup(), old(f.hmm.belief[..]), steps, sensor)
  {
    hide Run, Predicted, Updated, Seeded, IsPick, Entries, ProperSetup, RBPF.WeightsAfter, Ess, NormalisedWeights, Picked, Copies;
    ghost var h := f.hmm.TheSetup();
    ghost var b := f.hmm.belief[..];
    assert steps[..0] == [];
    EmptyRun(h, b, sensor);
    for i := 0 to |steps|
      invariant f.Valid() && (f.particles == old(f.particles) || fresh(f.particles))
      invariant ProperSteps(steps[..i], sensor) && f.hmm.belief[..] == Run(h, b, steps[..i], sensor)
    {
      OneMoreStep(h, b, steps, i, sensor);
      match steps[i]
      case Files(paths) => f.Predict(paths);
      case Test(id, outcome) => var _, _ := f.UpdateTest(id, outcome, sensor);
      case Seed(id, v) => f.SetBelief(id, v);
    }
    assert steps[..|steps|] == steps;
  }

  lemma EmptyRun(h: Setup, b: seq<Row>, sensor: Sensor)
    requires Ready(h, b)
    ensures ProperSteps([], sensor) && Run(h, b, [], sensor) == b
  {
  }

  lemma OneMoreStep(h: Setup, b: seq<Row>, steps: seq<Step>, i: nat, sensor: Sensor)
    requires Ready(h, b) && ProperSteps(steps, sensor) && i < |steps|
    ensures ProperSteps(steps[..i], sensor) && ProperSteps([steps[i]], sensor) && ProperSteps(steps[..i + 1], sensor)
    ensures Run(h, b, steps[..i + 1], sensor) == After(h, Run(h, b, steps[..i], sensor), steps[i], sensor)
  {
    hide After, Ready;
    assert steps[..i + 1] == steps[..i] + [steps[i]];
    RunAppend(h, b, steps[..i], [steps[i]], sensor);
    SingleRun(h, Run(h, b, steps[..i], sensor), steps[i], sensor);
  }

  lemma SingleRun(h: Setup, b: seq<Row>, s: Step, sensor: Sensor)
    requires Ready(h, b) && ProperSteps([s], sensor)
    ensures Run(h, b, [s], sensor) == After(h, b, s, sensor)
  {
    hide After, Ready;
    assert [s][1..] == [];
  }
}
