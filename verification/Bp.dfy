/** Damped belief propagation along the coupling edges, on top of the per-spec filter. */
module Bp {
  import opened Beliefs
  import opened Hmm
  import opened Specs
  import opened Graph

  /** An edge between two known specs, by row number. */
  datatype Link = Link(src: nat, dst: nat)

  // ---- the damping exponent ----

  /** Raising to a fixed exponent. */
  ghost predicate IsPower(pow: real -> real) {
    && pow(1.0) == 1.0
    && (forall x :: x > 0.0 ==> pow(x) > 0.0)
    && (forall x, y :: x > 0.0 && y > 0.0 ==> pow(x * y) == pow(x) * pow(y))
  }

  /** The exponent is not negative. */
  ghost predicate IsGrowing(pow: real -> real) {
    forall x, y :: 0.0 < x <= y ==> pow(x) <= pow(y)
  }

  lemma PowerOf(pow: real -> real, x: real)
    requires IsPower(pow) && x > 0.0
    ensures pow(x) > 0.0 && (x >= 1.0 && IsGrowing(pow) ==> pow(x) >= 1.0) && (x == 1.0 ==> pow(x) == 1.0)
  {
  }

  lemma PowerOfProduct(pow: real -> real, x: real, y: real, z: real)
    requires IsPower(pow) && x > 0.0 && y > 0.0 && z == x * y
    ensures pow(z) == pow(x) * pow(y)
  {
  }

  // ---- one message ----

  /** Neutral except where both ends are violated. */
  function PairFactor(kappa: real): Matrix {
    Matrix(Row(1.0, 1.0, 1.0), Row(1.0, 1.0, 1.0), Row(1.0, 1.0, kappa))
  }

  function Floored(r: Row): Row {
    Row(r.unk + EPS, r.sat + EPS, r.vio + EPS)
  }

  /** The source belief pushed through the pair factor, as a distribution. */
  function Message(src: Row, kappa: real): Row
    requires NonNegative(src) && kappa > 0.0
  {
    RawMessage(src, kappa);
    var raw := Times(Floored(src), PairFactor(kappa));
    Over(raw, Total(raw))
  }

  /** How much more the message favours a violation over any other status. */
  function Lift(src: Row, kappa: real): real
    requires NonNegative(src)
  {
    1.0 + (kappa - 1.0) * ((src.vio + EPS) / Total(Floored(src)))
  }

  lemma RawMessage(src: Row, kappa: real)
    requires NonNegative(src) && kappa > 0.0
    ensures var raw := Times(Floored(src), PairFactor(kappa));
            && raw.unk == raw.sat == Total(Floored(src))
            && raw.vio == Total(Floored(src)) + (kappa - 1.0) * (src.vio + EPS)
            && Positive(raw)
  {
    Multiply(src.vio + EPS, kappa);
  }

  lemma LiftIsPositive(src: Row, kappa: real)
    requires NonNegative(src) && kappa > 0.0
    ensures Lift(src, kappa) > 0.0
    ensures kappa >= 1.0 ==> Lift(src, kappa) >= 1.0
    ensures kappa == 1.0 ==> Lift(src, kappa) == 1.0
    ensures Lift(src, kappa) * Total(Floored(src)) == Total(Floored(src)) + (kappa - 1.0) * (src.vio + EPS)
  {
    var t, v := Total(Floored(src)), src.vio + EPS;
    var share := v / t;
    Quotient(v, t);
    Quotient(t - v, t);
    UniqueQuotient(t - v, t, 1.0 - share);
    if kappa >= 1.0 {
      Product(kappa - 1.0, share);
    } else {
      Multiply(share, kappa);
      assert 1.0 + (kappa - 1.0) * share == (1.0 - share) + share * kappa;
    }
    LiftTimes(kappa - 1.0, share, t, v);
  }

  lemma LiftTimes(k: real, share: real, t: real, v: real)
    requires share * t == v
    ensures (1.0 + k * share) * t == t + k * v
  {
    assert k * share * t == k * (share * t);
  }

  /** A message gives the two harmless statuses the same weight, and a violation that weight times the lift. */
  lemma MessageShape(src: Row, kappa: real)
    requires NonNegative(src) && kappa > 0.0
    ensures var m := Message(src, kappa);
            Simplex(m) && Positive(m) && m.unk == m.sat && m.vio == m.sat * Lift(src, kappa)
  {
    var raw := Times(Floored(src), PairFactor(kappa));
    RawMessage(src, kappa);
    LiftIsPositive(src, kappa);
    hide Lift, Times;
    OverTotal(raw);
    ScaledQuotient(raw.sat, Lift(src, kappa), raw.vio, Total(raw));
  }

  lemma ScaledQuotient(x: real, k: real, y: real, t: real)
    requires t > 0.0 && k * x == y
    ensures y / t == x / t * k
  {
    var q := x / t;
    assert q * t == x;
    assert q * k * t == k * (q * t);
    UniqueQuotient(y, t, q * k);
  }

  // ---- all messages into one row ----

  /** A problem: who sends to whom, what everyone believed before the sweep, and how hard it pushes. */
  datatype Sweep = Sweep(links: seq<Link>, b: seq<Row>, kappa: real, pow: real -> real)

  ghost predicate ProperSweep(w: Sweep) {
    && w.kappa > 0.0 && IsPower(w.pow) && AllSimplex(w.b)
    && forall l :: l in w.links ==> l.src < |w.b| && l.dst < |w.b|
  }

  predicate HasIncoming(links: seq<Link>, j: nat) {
    exists k :: 0 <= k < |links| && links[k].dst == j
  }

  function Front(w: Sweep): Sweep
    requires w.links != []
  {
    w.(links := w.links[..|w.links| - 1])
  }

  ghost function LinkLift(w: Sweep, l: Link): real
    requires ProperSweep(w) && l in w.links
  {
    w.pow(Lift(w.b[l.src], w.kappa))
  }

  /** The product of the damped lifts of the messages into row `j`. */
  ghost function Boost(w: Sweep, j: nat): real
    requires ProperSweep(w)
    decreases |w.links|
  {
    if w.links == [] then 1.0
    else
      var l := w.links[|w.links| - 1];
      Boost(Front(w), j) * if l.dst == j then LinkLift(w, l) else 1.0
  }

  /** The product of the damped weights that the messages into row `j` give to harmless statuses. */
  ghost function Common(w: Sweep, j: nat): real
    requires ProperSweep(w)
    decreases |w.links|
  {
    if w.links == [] then 1.0
    else
      var l := w.links[|w.links| - 1];
      Common(Front(w), j) * if l.dst == j then w.pow(Message(w.b[l.src], w.kappa).sat) else 1.0
  }

  lemma {:induction false} ProductsArePositive(w: Sweep, j: nat)
    requires ProperSweep(w)
    ensures Boost(w, j) > 0.0 && Common(w, j) > 0.0
    ensures w.kappa >= 1.0 && IsGrowing(w.pow) ==> Boost(w, j) >= 1.0
    ensures w.kappa == 1.0 ==> Boost(w, j) == 1.0
    decreases |w.links|
  {
    hide Lift, Message, Simplex, IsPower, IsGrowing, LinkLift, Boost, Common;
    if w.links == [] {
      EmptyProducts(w, j);
    } else {
      var l := w.links[|w.links| - 1];
      ProductsArePositive(Front(w), j);
      if l.dst == j {
        LinkFactors(w, l);
        ProductsTaken(w, j);
        PositiveProduct(Boost(Front(w), j), LinkLift(w, l), Boost(w, j));
        PositiveProduct(Common(Front(w), j), w.pow(Message(w.b[l.src], w.kappa).sat), Common(w, j));
        if w.kappa >= 1.0 && IsGrowing(w.pow) {
          AtLeastOnes(Boost(Front(w), j), LinkLift(w, l));
        }
      } else {
        ProductsSkipped(w, j);
      }
    }
  }

  lemma PositiveProduct(a: real, b: real, c: real)
    requires a > 0.0 && b > 0.0 && c == a * b
    ensures c > 0.0 && (a == 1.0 && b == 1.0 ==> c == 1.0)
  {
  }

  lemma EmptyProducts(w: Sweep, j: nat)
    requires ProperSweep(w) && w.links == []
    ensures Boost(w, j) == 1.0 && Common(w, j) == 1.0
  {
  }

  lemma ProductsSkipped(w: Sweep, j: nat)
    requires ProperSweep(w) && w.links != [] && w.links[|w.links| - 1].dst != j
    ensures Boost(w, j) == Boost(Front(w), j) && Common(w, j) == Common(Front(w), j)
  {
    hide Lift, Message, IsPower;
  }

  lemma LinkFactors(w: Sweep, l: Link)
    requires ProperSweep(w) && l in w.links
    ensures NonNegative(w.b[l.src]) && w.pow(Message(w.b[l.src], w.kappa).sat) > 0.0 && LinkLift(w, l) > 0.0
    ensures w.kappa >= 1.0 && IsGrowing(w.pow) ==> LinkLift(w, l) >= 1.0
    ensures w.kappa == 1.0 ==> LinkLift(w, l) == 1.0
  {
    hide Lift, Message, IsPower, IsGrowing;
    LiftIsPositive(w.b[l.src], w.kappa);
    MessageShape(w.b[l.src], w.kappa);
    PowerOf(w.pow, Lift(w.b[l.src], w.kappa));
    PowerOf(w.pow, Message(w.b[l.src], w.kappa).sat);
  }

  lemma SourceIsDistribution(w: Sweep, l: Link)
    requires ProperSweep(w) && l in w.links
    ensures Simplex(w.b[l.src]) && NonNegative(w.b[l.src])
  {
  }

  lemma AtLeastOnes(a: real, x: real)
    requires a >= 1.0 && x >= 1.0
    ensures a * x >= 1.0
  {
    Product(a - 1.0, x);
  }

  // ---- the sweep as a function ----

  /** A row with incoming links is updated as by an observation that favours violation `Boost` to one. */
  ghost function SweptRow(w: Sweep, j: nat): Row
    requires ProperSweep(w) && j < |w.b|
  {
    if HasIncoming(w.links, j) then
      ProductsArePositive(w, j);
      Posterior(w.b[j], Row(1.0, 1.0, Boost(w, j)))
    else w.b[j]
  }

  ghost function Swept(w: Sweep): (r: seq<Row>)
    requires ProperSweep(w)
    ensures |r| == |w.b|
  {
    seq(|w.b|, j requires 0 <= j < |w.b| => SweptRow(w, j))
  }

  lemma SweepKeepsSimplex(w: Sweep)
    requires ProperSweep(w)
    ensures AllSimplex(Swept(w)) && ProperSweep(w.(b := Swept(w)))
  {
    hide Posterior, Simplex, Boost;
    forall j | 0 <= j < |w.b| ensures Simplex(SweptRow(w, j)) {
      if HasIncoming(w.links, j) {
        ProductsArePositive(w, j);
        PosteriorKeepsSimplex(w.b[j], Row(1.0, 1.0, Boost(w, j)));
      }
    }
  }

  ghost function Sweeps(w: Sweep, n: nat): (r: seq<Row>)
    requires ProperSweep(w)
    ensures |r| == |w.b| && AllSimplex(r)
    decreases n
  {
    if n == 0 then w.b
    else
      SweepKeepsSimplex(w);
      Sweeps(w.(b := Swept(w)), n - 1)
  }

  // ---- the loop computes it ----

  /** The weights of row `j` after some of its messages. */
  function Weights(r: Row, common: real, boost: real): Row {
    Row((r.unk + EPS) * common, (r.sat + EPS) * common, (r.vio + EPS) * common * boost)
  }

  /** A row's weights with one more damped message on top. */
  function Taken(row: Row, m: Row, pow: real -> real): Row {
    Row(row.unk * pow(m.unk), row.sat * pow(m.sat), row.vio * pow(m.vio))
  }

  lemma MessageTaken(w: Sweep, j: nat)
    requires ProperSweep(w) && w.links != [] && j < |w.b| && w.links[|w.links| - 1].dst == j
    ensures NonNegative(w.b[w.links[|w.links| - 1].src])
    ensures Weights(w.b[j], Common(w, j), Boost(w, j))
            == Taken(Weights(w.b[j], Common(Front(w), j), Boost(Front(w), j)),
                     Message(w.b[w.links[|w.links| - 1].src], w.kappa), w.pow)
  {
    hide Common, Boost, Message, LinkLift, Weights, Taken, IsPower, IsGrowing, AllSimplex;
    var l := w.links[|w.links| - 1];
    ProductsTaken(w, j);
    MessagePower(w, l);
    WeightsTaken(w.b[j], Common(Front(w), j), Boost(Front(w), j), Common(w, j), Boost(w, j),
                 Message(w.b[l.src], w.kappa), LinkLift(w, l), w.pow);
  }

  lemma ProductsTaken(w: Sweep, j: nat)
    requires ProperSweep(w) && w.links != [] && w.links[|w.links| - 1].dst == j
    ensures var l := w.links[|w.links| - 1];
            && NonNegative(w.b[l.src])
            && Common(w, j) == Common(Front(w), j) * w.pow(Message(w.b[l.src], w.kappa).sat)
            && Boost(w, j) == Boost(Front(w), j) * LinkLift(w, l)
  {
    hide Lift, Message, IsPower, IsGrowing;
    SourceIsDistribution(w, w.links[|w.links| - 1]);
  }

  lemma MessagePower(w: Sweep, l: Link)
    requires ProperSweep(w) && l in w.links
    ensures var m := Message(w.b[l.src], w.kappa);
            m.unk == m.sat && w.pow(m.vio) == w.pow(m.sat) * LinkLift(w, l)
  {
    hide Simplex, Lift, Message, IsPower, IsGrowing;
    SourceIsDistribution(w, l);
    MessageShape(w.b[l.src], w.kappa);
    LiftIsPositive(w.b[l.src], w.kappa);
    var m := Message(w.b[l.src], w.kappa);
    PowerOfProduct(w.pow, m.sat, Lift(w.b[l.src], w.kappa), m.vio);
  }

  lemma WeightsTaken(r: Row, c0: real, b0: real, c1: real, b1: real, m: Row, l: real, pow: real -> real)
    requires c1 == c0 * pow(m.sat) && b1 == b0 * l && m.unk == m.sat && pow(m.vio) == pow(m.sat) * l
    ensures Weights(r, c1, b1) == Taken(Weights(r, c0, b0), m, pow)
  {
    var c := pow(m.sat);
    assert (r.vio + EPS) * c0 * b0 * (c * l) == (r.vio + EPS) * (c0 * c) * (b0 * l);
  }

  lemma WeightsAreEvidence(r: Row, common: real, boost: real)
    requires NonNegative(r) && common > 0.0 && boost > 0.0
    ensures var e := Evidence(r, Row(1.0, 1.0, boost)); var x := Weights(r, common, boost);
            Positive(x) && Positive(e) && Total(x) > 0.0 && Total(e) > 0.0 && Over(x, Total(x)) == Over(e, Total(e))
  {
    var e := Evidence(r, Row(1.0, 1.0, boost));
    var x := Weights(r, common, boost);
    EvidenceIsPositive(r, Row(1.0, 1.0, boost));
    ScaledWeight(e, x, common);
  }

  lemma ScaledWeight(e: Row, x: Row, c: real)
    requires Positive(e) && c > 0.0 && x == Row(e.unk * c, e.sat * c, e.vio * c)
    ensures Positive(x) && Over(x, Total(x)) == Over(e, Total(e))
  {
    Multiply(e.unk, c);
    Multiply(e.sat, c);
    Multiply(e.vio, c);
    Gather(e.unk, e.sat, e.vio, c, x.unk, x.sat, x.vio);
    assert Total(e) * c == Total(x);
    hide Total;
    CommonFactor(e.unk, Total(e), c);
    CommonFactor(e.sat, Total(e), c);
    CommonFactor(e.vio, Total(e), c);
  }

  lemma CommonFactor(x: real, t: real, c: real)
    requires t > 0.0 && c > 0.0
    ensures t * c != 0.0 && x * c / (t * c) == x / t
  {
    Multiply(t, c);
    var q := x / t;
    assert q * t == x;
    assert q * (t * c) == q * t * c;
    UniqueQuotient(x * c, t * c, q);
  }

  function Upto(w: Sweep, k: nat): Sweep
    requires k <= |w.links|
  {
    w.(links := w.links[..k])
  }

  /** The weights of row `j` after the first `k` links. */
  ghost function WeightsAt(w: Sweep, k: nat, j: nat): Row
    requires ProperSweep(w) && k <= |w.links| && j < |w.b|
  {
    Weights(w.b[j], Common(Upto(w, k), j), Boost(Upto(w, k), j))
  }

  lemma NoMessages(w: Sweep, j: nat)
    requires ProperSweep(w) && j < |w.b|
    ensures WeightsAt(w, 0, j) == Floored(w.b[j]) && !HasIncoming(w.links[..0], j)
  {
  }

  lemma OneMoreMessage(w: Sweep, k: nat, j: nat)
    requires ProperSweep(w) && k < |w.links| && j < |w.b|
    ensures NonNegative(w.b[w.links[k].src])
    ensures WeightsAt(w, k + 1, j)
            == if w.links[k].dst == j then Taken(WeightsAt(w, k, j), Message(w.b[w.links[k].src], w.kappa), w.pow)
               else WeightsAt(w, k, j)
    ensures HasIncoming(w.links[..k + 1], j) <==> HasIncoming(w.links[..k], j) || w.links[k].dst == j
  {
    hide Weights, Taken, Message, LinkLift, Simplex, IsPower, IsGrowing;
    SourceIsDistribution(w, w.links[k]);
    var x := Upto(w, k + 1);
    assert Front(x) == Upto(w, k) by { assert x.links[..k] == w.links[..k]; }
    OneMoreIncoming(w.links, k, j);
    if w.links[k].dst == j {
      MessageTaken(x, j);
    } else {
      assert Common(x, j) == Common(Front(x), j) && Boost(x, j) == Boost(Front(x), j);
    }
  }

  lemma OneMoreIncoming(links: seq<Link>, k: nat, j: nat)
    requires k < |links|
    ensures HasIncoming(links[..k + 1], j) <==> HasIncoming(links[..k], j) || links[k].dst == j
  {
    if HasIncoming(links[..k], j) {
      var i :| 0 <= i < k && links[..k][i].dst == j;
      assert links[..k + 1][i].dst == j;
    }
    if links[k].dst == j {
      assert links[..k + 1][k].dst == j;
    }
    if HasIncoming(links[..k + 1], j) {
      var i :| 0 <= i <= k && links[..k + 1][i].dst == j;
      assert i < k ==> links[..k][i].dst == j;
    }
  }

  lemma NothingIncoming(w: Sweep)
    requires ProperSweep(w) && w.links == []
    ensures Swept(w) == w.b
  {
  }

  lemma WeightsRescaled(w: Sweep, j: nat)
    requires ProperSweep(w) && j < |w.b| && HasIncoming(w.links, j)
    ensures Positive(WeightsAt(w, |w.links|, j)) && Rescaled(WeightsAt(w, |w.links|, j)) == SweptRow(w, j)
  {
    hide Boost, Common, Weights, Posterior, Rescaled;
    assert Upto(w, |w.links|) == w by { assert w.links[..|w.links|] == w.links; }
    ProductsArePositive(w, j);
    var lik := Row(1.0, 1.0, Boost(w, j));
    EvidenceIsPositive(w.b[j], lik);
    PosteriorIsBayes(w.b[j], lik);
    WeightsAreEvidence(w.b[j], Common(w, j), Boost(w, j));
    RescaledIsNormalised(Weights(w.b[j], Common(w, j), Boost(w, j)));
  }

  /** The link of an edge between known specs: it leaves the row of the source and enters that of the destination. */
  predicate Joins(l: Link, e: Edge, idx: map<string, nat>) {
    e.src in idx && e.dst in idx && l.src == idx[e.src] && l.dst == idx[e.dst]
  }

  /** Only edges between known specs have links; if all edges are such, the links are theirs one by one. */
  ghost predicate Follow(links: seq<Link>, coupling: seq<Edge>, idx: map<string, nat>) {
    && (forall l :: l in links <==> exists e :: e in coupling && Joins(l, e, idx))
    && ((forall e :: e in coupling ==> e.src in idx && e.dst in idx) ==>
          |links| == |coupling| && forall i :: 0 <= i < |coupling| ==> Joins(links[i], coupling[i], idx))
  }

  lemma FollowMore(links: seq<Link>, coupling: seq<Edge>, e: Edge, more: seq<Link>, idx: map<string, nat>)
    requires Follow(links, coupling, idx)
    requires e.src in idx && e.dst in idx ==> |more| == 1 && Joins(more[0], e, idx)
    requires e.src !in idx || e.dst !in idx ==> more == []
    ensures Follow(links + more, coupling + [e], idx)
  {
    var all := coupling + [e];
    assert e in all && forall x :: x in coupling ==> x in all;
    forall l ensures l in links + more <==> exists x :: x in all && Joins(l, x, idx) {
      if l in more { assert more == [more[0]] && Joins(l, e, idx); }
      if x :| x in all && Joins(l, x, idx) {
        assert x in coupling || (x == e && l == more[0]);
      }
    }
  }

  lemma {:induction false} ResolvedFollows(coupling: seq<Edge>, idx: map<string, nat>)
    ensures Follow(Resolved(coupling, idx), coupling, idx)
  {
    if coupling != [] {
      hide Follow;
      var n := |coupling| - 1;
      var front, e := coupling[..n], coupling[n];
      ResolvedFollows(front, idx);
      FollowMore(Resolved(front, idx), front, e, if e.src in idx && e.dst in idx then [Link(idx[e.src], idx[e.dst])] else [], idx);
      assert front + [e] == coupling;
    }
  }

  class FactorGraphBP {
    const hmm: PerSpecHMM
    const links: seq<Link>
    const kappa: real
    const pow: real -> real
    const nIter: nat

    ghost predicate Valid()
      reads hmm.belief
    {
      && hmm.Valid() && kappa > 0.0 && IsPower(pow)
      && forall l :: l in links ==> l.src < hmm.belief.Length && l.dst < hmm.belief.Length
    }

    ghost function TheSweep(): Sweep
      reads hmm.belief
    {
      Sweep(links, hmm.belief[..], kappa, pow)
    }

    /** Keeps the edges whose two ends are known specs, in order. */
    constructor (specs: seq<SpecDescriptor>, motion: Motion, coupling: seq<Edge>, kappa: real, pow: real -> real, nIter: nat)
      requires ProperMotion(motion) && kappa > 0.0 && IsPower(pow)
      ensures Valid() && fresh(hmm) && fresh(hmm.belief)
      ensures this.kappa == kappa && this.pow == pow && this.nIter == nIter
      ensures hmm.specs == specs && hmm.motion == motion && links == Resolved(coupling, hmm.idx)
      ensures Follow(links, coupling, hmm.idx)
      ensures hmm.belief[..] == seq(|specs|, _ => UNIFORM)
    {
      hide Follow;
      var inner := new PerSpecHMM(specs, motion);
      var kept := [];
      for k := 0 to |coupling|
        invariant kept == Resolved(coupling[..k], inner.idx)
        invariant forall l :: l in kept ==> l.src < inner.belief.Length && l.dst < inner.belief.Length
      {
        assert coupling[..k + 1][..k] == coupling[..k];
        var e := coupling[k];
        if e.src in inner.idx && e.dst in inner.idx {
          kept := kept + [Link(inner.idx[e.src], inner.idx[e.dst])];
        }
      }
      assert coupling[..|coupling|] == coupling;
      ResolvedFollows(coupling, inner.idx);
      this.hmm, this.links, this.kappa, this.pow, this.nIter := inner, kept, kappa, pow, nIter;
    }

    /** One sweep: every message is computed from the beliefs before the sweep. */
    method BpStep()
      requires Valid()
      modifies hmm.belief
      ensures Valid() && hmm.belief[..] == Swept(old(TheSweep()))
    {
      hide Taken, WeightsAt, Message, Rescaled, Simplex, IsPower, IsGrowing, SweptRow, HasIncoming;
      ghost var w := TheSweep();
      var before := hmm.belief[..];
      var n := hmm.belief.Length;
      SweepKeepsSimplex(w);
      if links == [] {
        NothingIncoming(w);
        return;
      }
      var weights := new Row[n](i requires 0 <= i < n => Floored(before[i]));
      var touched := new bool[n](_ => false);
      forall j | 0 <= j < n ensures weights[j] == WeightsAt(w, 0, j) && !HasIncoming(links[..0], j) {
        NoMessages(w, j);
      }
      for k := 0 to |links|
        invariant fresh(weights) && fresh(touched) && hmm.belief[..] == before
        invariant forall j :: 0 <= j < n ==> weights[j] == WeightsAt(w, k, j)
        invariant forall j :: 0 <= j < n ==> (touched[j] <==> HasIncoming(links[..k], j))
      {
        var l := links[k];
        SourceIsDistribution(w, l);
        forall j | 0 <= j < n
          ensures WeightsAt(w, k + 1, j)
                  == if l.dst == j then Taken(WeightsAt(w, k, j), Message(w.b[l.src], kappa), pow) else WeightsAt(w, k, j)
          ensures HasIncoming(links[..k + 1], j) <==> HasIncoming(links[..k], j) || l.dst == j
        {
          OneMoreMessage(w, k, j);
        }
        var m := Message(before[l.src], kappa);
        weights[l.dst] := Taken(weights[l.dst], m, pow);
        touched[l.dst] := true;
      }
      assert links[..|links|] == links;
      for i := 0 to n
        invariant fresh(weights) && fresh(touched)
        invariant forall j :: 0 <= j < n ==> weights[j] == WeightsAt(w, |links|, j)
        invariant forall j :: 0 <= j < n ==> (touched[j] <==> HasIncoming(links, j))
        invariant forall j :: 0 <= j < i ==> hmm.belief[j] == SweptRow(w, j)
        invariant forall j :: i <= j < n ==> hmm.belief[j] == before[j]
      {
        if touched[i] {
          WeightsRescaled(w, i);
          hmm.belief[i] := Rescaled(weights[i]);
        } else {
          Untouched(w, i);
        }
      }
      assert hmm.belief[..] == Swept(w);
    }

    method RunBp()
      requires Valid()
      modifies hmm.belief
      ensures Valid() && hmm.belief[..] == Sweeps(old(TheSweep()), nIter)
    {
      hide Swept, Simplex, IsPower, IsGrowing;
      ghost var w := TheSweep();
      for k := 0 to nIter
        invariant Valid()
        invariant Sweeps(TheSweep(), nIter - k) == Sweeps(w, nIter)
      {
        SweepKeepsSimplex(TheSweep());
        BpStep();
      }
    }

    method Predict(files: seq<string>)
      requires Valid()
      modifies hmm.belief
      ensures Valid()
      ensures var h := hmm.TheSetup(); var b := Predicted(h, old(hmm.belief[..]), files);
              AllSimplex(b) && hmm.belief[..] == Sweeps(Sweep(links, b, kappa, pow), nIter)
    {
      hide Sweeps, Predicted, IsPower, IsGrowing;
      hmm.Predict(files);
      RunBp();
    }

    /** A test of an unknown spec is refused before any message is sent. */
    method UpdateTest(id: string, outcome: string, sensor: Sensor) returns (r: Reply)
      requires Valid() && Positive(sensor(id, outcome))
      modifies hmm.belief
      ensures Valid()
      ensures r.Ok? <==> hmm.Knows(id)
      ensures var h := hmm.TheSetup(); var b := Updated(h, old(hmm.belief[..]), id, sensor(id, outcome));
              AllSimplex(b) && hmm.belief[..] == if r.Ok? then Sweeps(Sweep(links, b, kappa, pow), nIter) else old(hmm.belief[..])
    {
      hide Sweeps, Posterior, IsPower, IsGrowing;
      r := hmm.UpdateTest(id, outcome, sensor);
      if r.Ok? {
        RunBp();
      }
    }
  }

  ghost function Resolved(coupling: seq<Edge>, idx: map<string, nat>): seq<Link> {
    if coupling == [] then []
    else
      var e := coupling[|coupling| - 1];
      Resolved(coupling[..|coupling| - 1], idx)
      + if e.src in idx && e.dst in idx then [Link(idx[e.src], idx[e.dst])] else []
  }

  lemma Untouched(w: Sweep, j: nat)
    requires ProperSweep(w) && j < |w.b| && !HasIncoming(w.links, j)
    ensures SweptRow(w, j) == w.b[j]
  {
  }

  // ---- what a sweep does to the beliefs ----

  /** Without links the sweep changes nothing: the filter is the plain per-spec filter. */
  lemma {:induction false} NoLinksNoEffect(w: Sweep, n: nat)
    requires ProperSweep(w) && w.links == []
    ensures Sweeps(w, n) == w.b
    decreases n
  {
    if n > 0 {
      NothingIncoming(w);
      NoLinksNoEffect(w, n - 1);
    }
  }

  /** A message never tilts the balance between unknown and satisfied. */
  lemma SweepKeepsHarmlessRatio(w: Sweep, j: nat)
    requires ProperSweep(w) && j < |w.b| && HasIncoming(w.links, j)
    ensures var q := SweptRow(w, j); q.unk * (w.b[j].sat + EPS) == q.sat * (w.b[j].unk + EPS)
  {
    hide Boost, Posterior;
    ProductsArePositive(w, j);
    PosteriorOdds(w.b[j], Row(1.0, 1.0, Boost(w, j)));
  }

  /** Coupling that pulls towards violation never lowers a violation, beyond the effect of the floor. */
  lemma ViolationIsNotLowered(w: Sweep, j: nat)
    requires ProperSweep(w) && w.kappa >= 1.0 && IsGrowing(w.pow) && j < |w.b|
    ensures HasIncoming(w.links, j) ==> SweptRow(w, j).vio * (1.0 + 3.0 * EPS) >= w.b[j].vio + EPS
    ensures !HasIncoming(w.links, j) ==> SweptRow(w, j) == w.b[j]
  {
    hide Boost, Posterior;
    if HasIncoming(w.links, j) {
      ProductsArePositive(w, j);
      FlatEvidence(w.b[j], 1.0);
      ViolationGains(w.b[j], Row(1.0, 1.0, 1.0), Row(1.0, 1.0, Boost(w, j)));
    }
  }

  // ---- a violation rises with every sweep, however the messages are centred ----

  /** Raising to a fixed positive exponent. */
  ghost predicate IsStrictPower(pow: real -> real) {
    IsPower(pow) && forall x, y :: 0.0 < x < y ==> pow(x) < pow(y)
  }

  lemma StrictIsGrowing(pow: real -> real)
    requires IsStrictPower(pow)
    ensures IsPower(pow) && IsGrowing(pow)
  {
    forall x, y | 0.0 < x <= y ensures pow(x) <= pow(y) {
      assert x < y ==> pow(x) < pow(y);
    }
  }

  lemma StrictLift(w: Sweep, l: Link)
    requires ProperSweep(w) && w.kappa > 1.0 && IsStrictPower(w.pow) && l in w.links
    ensures LinkLift(w, l) > 1.0
  {
    hide IsPower, IsGrowing;
    var src := w.b[l.src];
    SourceIsDistribution(w, l);
    var t, v := Total(Floored(src)), src.vio + EPS;
    Quotient(v, t);
    Multiply(w.kappa - 1.0, v / t);
    PowerAboveOne(w.pow, Lift(src, w.kappa));
  }

  lemma PowerAboveOne(pow: real -> real, x: real)
    requires IsStrictPower(pow) && x > 1.0
    ensures pow(x) > 1.0
  {
    assert pow(1.0) == 1.0 && pow(1.0) < pow(x);
  }

  lemma {:induction false} BoostAboveOne(w: Sweep, j: nat)
    requires ProperSweep(w) && w.kappa > 1.0 && IsStrictPower(w.pow) && HasIncoming(w.links, j)
    ensures Boost(w, j) > 1.0
    decreases |w.links|
  {
    hide Lift, LinkLift, Boost, IsStrictPower, IsPower, IsGrowing;
    var l := w.links[|w.links| - 1];
    StrictIsGrowing(w.pow);
    BoostStep(w, j);
    ProductsArePositive(Front(w), j);
    if l.dst == j {
      StrictLift(w, l);
      AboveOnes(Boost(Front(w), j), LinkLift(w, l));
    } else {
      OneMoreIncoming(w.links, |w.links| - 1, j);
      assert w.links[..|w.links|] == w.links;
      BoostAboveOne(Front(w), j);
    }
  }

  lemma AboveOnes(a: real, x: real)
    requires a >= 1.0 && x > 1.0
    ensures a * x > 1.0
  {
    Product(a - 1.0, x);
  }

  lemma {:induction false} BoostAtMostOne(w: Sweep, j: nat)
    requires ProperSweep(w) && w.kappa <= 1.0 && IsGrowing(w.pow)
    ensures 0.0 < Boost(w, j) <= 1.0
    decreases |w.links|
  {
    hide Lift, LinkLift, Boost, IsGrowing, IsPower;
    ProductsArePositive(w, j);
    if w.links == [] {
      EmptyProducts(w, j);
    } else {
      var l := w.links[|w.links| - 1];
      BoostStep(w, j);
      BoostAtMostOne(Front(w), j);
      if l.dst == j {
        WeakLift(w, l);
        Product(Boost(Front(w), j), 1.0 - LinkLift(w, l));
      }
    }
  }

  lemma WeakLift(w: Sweep, l: Link)
    requires ProperSweep(w) && w.kappa <= 1.0 && IsGrowing(w.pow) && l in w.links
    ensures 0.0 < LinkLift(w, l) <= 1.0
  {
    hide IsPower, IsGrowing;
    var src := w.b[l.src];
    SourceIsDistribution(w, l);
    LiftIsPositive(src, w.kappa);
    var t, v := Total(Floored(src)), src.vio + EPS;
    Quotient(v, t);
    Product(1.0 - w.kappa, v / t);
    PowerBelowOne(w.pow, Lift(src, w.kappa));
  }

  lemma PowerBelowOne(pow: real -> real, x: real)
    requires IsPower(pow) && IsGrowing(pow) && 0.0 < x <= 1.0
    ensures 0.0 < pow(x) <= 1.0
  {
    assert pow(x) <= pow(1.0);
  }

  /** Coupling that does not pull towards violation never raises one, net of the floor. */
  lemma ViolationIsNotRaised(w: Sweep, j: nat)
    requires ProperSweep(w) && w.kappa <= 1.0 && IsGrowing(w.pow) && j < |w.b| && HasIncoming(w.links, j)
    ensures SweptRow(w, j).vio * (1.0 + 3.0 * EPS) <= w.b[j].vio + EPS
  {
    hide Boost, Posterior, IsPower, IsGrowing;
    BoostAtMostOne(w, j);
    FlatEvidence(w.b[j], 1.0);
    ViolationGains(w.b[j], Row(1.0, 1.0, Boost(w, j)), Row(1.0, 1.0, 1.0));
  }

  lemma StrongCouplingRaises(w: Sweep, j: nat)
    requires ProperSweep(w) && w.kappa > 1.0 && IsStrictPower(w.pow) && j < |w.b| && HasIncoming(w.links, j)
    ensures SweptRow(w, j).vio * (1.0 + 3.0 * EPS) > w.b[j].vio + EPS
  {
    hide Boost, Posterior, IsStrictPower, IsPower;
    ProductsArePositive(w, j);
    BoostAboveOne(w, j);
    var lik := Row(1.0, 1.0, Boost(w, j));
    PosteriorOdds(w.b[j], lik);
    PosteriorIsBayes(w.b[j], lik);
    var q, p := SweptRow(w, j), w.b[j];
    ShareRises(q.unk, q.sat, q.vio, p.unk + EPS, p.sat + EPS, p.vio + EPS, Boost(w, j));
  }

  /** A sweep raises the violation of a row it reaches, net of the floor, if and only if the coupling pulls towards it. */
  lemma ViolationRises(w: Sweep, j: nat)
    requires ProperSweep(w) && IsStrictPower(w.pow) && j < |w.b| && HasIncoming(w.links, j)
    ensures SweptRow(w, j).vio * (1.0 + 3.0 * EPS) > w.b[j].vio + EPS <==> w.kappa > 1.0
    ensures w.kappa > 1.0 && w.b[j].vio <= 1.0 / 3.0 ==> SweptRow(w, j).vio > w.b[j].vio
  {
    hide SweptRow, IsStrictPower, IsPower;
    if w.kappa > 1.0 {
      StrongCouplingRaises(w, j);
    } else {
      StrictIsGrowing(w.pow);
      ViolationIsNotRaised(w, j);
    }
  }

  lemma ShareRises(x: real, y: real, z: real, u: real, s: real, v: real, boost: real)
    requires x > 0.0 && y > 0.0 && z > 0.0 && x + y + z == 1.0 && u > 0.0 && s > 0.0 && v > 0.0 && boost > 1.0
    requires x * (v * boost) == z * (u * 1.0) && y * (v * boost) == z * (s * 1.0)
    ensures z * (u + s + v) > v
  {
    assert (1.0 - z) * (v * boost) == z * (u + s);
    var d := v * (boost - 1.0);
    Multiply(v, boost - 1.0);
    Multiply(1.0 - z, d);
    assert v * boost == v + d;
    assert z * (u + s) == (1.0 - z) * (v + d);
    assert (1.0 - z) * (v + d) == v - z * v + (1.0 - z) * d;
  }

  lemma {:induction false} SweepsLast(w: Sweep, n: nat)
    requires ProperSweep(w)
    ensures ProperSweep(w.(b := Sweeps(w, n))) && Sweeps(w, n + 1) == Swept(w.(b := Sweeps(w, n)))
    decreases n
  {
    hide Swept;
    SweepKeepsSimplex(w);
    if n > 0 {
      var next := w.(b := Swept(w));
      SweepsLast(next, n - 1);
      assert next.(b := Sweeps(next, n - 1)) == w.(b := Sweeps(w, n));
    } else {
      assert w.(b := Sweeps(w, 0)) == w;
    }
  }

  /** Sweep after sweep, without any new evidence: violations keep rising if and only if the coupling pulls towards them. */
  lemma ViolationDrifts(w: Sweep, n: nat, j: nat)
    requires ProperSweep(w) && IsStrictPower(w.pow) && j < |w.b| && HasIncoming(w.links, j)
    ensures Sweeps(w, n + 1)[j].vio * (1.0 + 3.0 * EPS) > Sweeps(w, n)[j].vio + EPS <==> w.kappa > 1.0
  {
    hide Sweeps, SweptRow, IsStrictPower, IsPower;
    SweepsLast(w, n);
    ViolationRises(w.(b := Sweeps(w, n)), j);
  }

  const DEFAULT_KAPPA: real := 1.4

  /** Two specs nothing is known of, the first coupled to the second. */
  function UniformPair(pow: real -> real): Sweep {
    Sweep([Link(0, 1)], [UNIFORM, UNIFORM], DEFAULT_KAPPA, pow)
  }

  /** With the default coupling and any positive damping, the second one's violation rises from a third at once and goes on rising. */
  lemma UniformPairDrifts(pow: real -> real, n: nat)
    requires IsStrictPower(pow)
    ensures ProperSweep(UniformPair(pow)) && Swept(UniformPair(pow))[0] == UNIFORM
    ensures Swept(UniformPair(pow))[1].vio > 1.0 / 3.0
    ensures Sweeps(UniformPair(pow), n + 1)[1].vio * (1.0 + 3.0 * EPS) > Sweeps(UniformPair(pow), n)[1].vio + EPS
  {
    hide Sweeps, Boost, Posterior, IsStrictPower;
    var w := UniformPair(pow);
    StrictIsGrowing(pow);
    assert w.links[0].dst == 1 && HasIncoming(w.links, 1);
    assert !HasIncoming(w.links, 0);
    ViolationRises(w, 1);
    ViolationDrifts(w, n, 1);
  }

  /** Undamped, to 17/47. */
  lemma UniformPairUndamped()
    ensures IsStrictPower(Undamped) && ProperSweep(UniformPair(Undamped)) && Swept(UniformPair(Undamped))[1].vio == 17.0 / 47.0
  {
    hide Posterior, Lift, IsPower, IsStrictPower, Boost, LinkLift;
    UndampedIsPower();
    UndampedIsStrict();
    var w := UniformPair(Undamped);
    assert w.links[0].dst == 1 && HasIncoming(w.links, 1);
    UniformBoost(w);
    UniformPosterior();
  }

  /** The exponent one. */
  function Undamped(x: real): real {
    x
  }

  lemma UniformBoost(w: Sweep)
    requires ProperSweep(w) && w == UniformPair(Undamped)
    ensures Boost(w, 1) == 17.0 / 15.0
  {
    hide Boost, Lift, IsPower;
    assert Front(w).links == [];
    EmptyProducts(Front(w), 1);
    BoostStep(w, 1);
    UniformLift(UNIFORM);
  }

  lemma UniformPosterior()
    ensures NonNegative(UNIFORM) && Posterior(UNIFORM, Row(1.0, 1.0, 17.0 / 15.0)).vio == 17.0 / 47.0
  {
    hide Posterior;
    var lik := Row(1.0, 1.0, 17.0 / 15.0);
    PosteriorOdds(UNIFORM, lik);
    PosteriorIsBayes(UNIFORM, lik);
  }

  lemma UndampedIsPower()
    ensures IsPower(Undamped)
  {
    UndampedMultiplies(Undamped);
  }

  lemma UndampedMultiplies(pow: real -> real)
    requires pow == Undamped
    ensures forall x, y :: x > 0.0 && y > 0.0 ==> pow(x * y) == pow(x) * pow(y)
  {
    forall x: real, y: real | x > 0.0 && y > 0.0 ensures pow(x * y) == pow(x) * pow(y) {
      SameProduct(pow(x), pow(y), x, y);
    }
  }

  lemma SameProduct(a: real, b: real, x: real, y: real)
    requires a == x && b == y
    ensures a * b == x * y
  {
  }

  lemma UndampedIsStrict()
    ensures IsStrictPower(Undamped)
  {
    hide IsPower;
    UndampedIsPower();
  }

  lemma UniformLift(r: Row)
    requires r == UNIFORM
    ensures NonNegative(r) && Lift(r, DEFAULT_KAPPA) == 17.0 / 15.0
  {
    var t := Total(Floored(r));
    UniqueQuotient(r.vio + EPS, t, 1.0 / 3.0);
  }

  function Scale(m: Row, c: real): Row {
    Row(m.unk * c, m.sat * c, m.vio * c)
  }

  /** The weights of row `j` after the first `k` links, each message first multiplied by a number of its own. */
  ghost function RecentredAt(w: Sweep, cs: seq<real>, k: nat, j: nat): Row
    requires ProperSweep(w) && |cs| == |w.links| && k <= |w.links| && j < |w.b|
  {
    if k == 0 then Floored(w.b[j])
    else
      var l := w.links[k - 1];
      SourceIsDistribution(w, l);
      var row := RecentredAt(w, cs, k - 1, j);
      if l.dst == j then Taken(row, Scale(Message(w.b[l.src], w.kappa), cs[k - 1]), w.pow) else row
  }

  lemma RecentredStep(w: Sweep, cs: seq<real>, k: nat, j: nat)
    requires ProperSweep(w) && |cs| == |w.links| && k < |w.links| && j < |w.b|
    ensures NonNegative(w.b[w.links[k].src])
    ensures RecentredAt(w, cs, k + 1, j)
            == if w.links[k].dst == j
               then Taken(RecentredAt(w, cs, k, j), Scale(Message(w.b[w.links[k].src], w.kappa), cs[k]), w.pow)
               else RecentredAt(w, cs, k, j)
  {
    hide Message, IsPower, Taken;
    SourceIsDistribution(w, w.links[k]);
  }

  lemma RecentredStart(w: Sweep, cs: seq<real>, j: nat)
    requires ProperSweep(w) && |cs| == |w.links| && j < |w.b|
    ensures RecentredAt(w, cs, 0, j) == Floored(w.b[j])
  {
  }

  lemma {:induction false} RecentredIsScaled(w: Sweep, cs: seq<real>, k: nat, j: nat) returns (c: real)
    requires ProperSweep(w) && |cs| == |w.links| && k <= |w.links| && j < |w.b|
    requires forall i :: 0 <= i < |cs| ==> cs[i] > 0.0
    ensures c > 0.0 && RecentredAt(w, cs, k, j) == Scale(WeightsAt(w, k, j), c)
    decreases k
  {
    hide *;
    if k == 0 {
      c := 1.0;
      NoMessages(w, j);
      ScaleByOne(Floored(w.b[j]));
      RecentredStart(w, cs, j);
    } else {
      c := RecentredIsScaled(w, cs, k - 1, j);
      c := ScaledStep(w, cs, k - 1, j, c);
    }
  }

  lemma ScaledStep(w: Sweep, cs: seq<real>, k: nat, j: nat, c: real) returns (d: real)
    requires ProperSweep(w) && |cs| == |w.links| && k < |w.links| && j < |w.b|
    requires cs[k] > 0.0 && c > 0.0 && RecentredAt(w, cs, k, j) == Scale(WeightsAt(w, k, j), c)
    ensures d > 0.0 && RecentredAt(w, cs, k + 1, j) == Scale(WeightsAt(w, k + 1, j), d)
  {
    hide WeightsAt, RecentredAt, Message, IsPower, IsGrowing, Simplex, Lift, LinkLift, Boost, Common, Taken;
    var l, a := w.links[k], cs[k];
    RecentredStep(w, cs, k, j);
    OneMoreMessage(w, k, j);
    d := c;
    if l.dst == j {
      MessageShape(w.b[l.src], w.kappa);
      PowerOf(w.pow, a);
      Multiply(c, w.pow(a));
      ScaledTaken(WeightsAt(w, k, j), Message(w.b[l.src], w.kappa), w.pow, c, a);
      d := c * w.pow(a);
    }
  }

  lemma ScaleByOne(m: Row)
    ensures Scale(m, 1.0) == m
  {
  }

  lemma ScaledTaken(row: Row, m: Row, pow: real -> real, c: real, a: real)
    requires IsPower(pow) && Positive(m) && a > 0.0
    ensures Taken(Scale(row, c), Scale(m, a), pow) == Scale(Taken(row, m, pow), c * pow(a))
  {
    hide IsPower;
    var n, x, y, d := Scale(m, a), Scale(row, c), Taken(row, m, pow), c * pow(a);
    ScaledEntry(row.unk, m.unk, pow, c, a, x.unk, n.unk, y.unk, d);
    ScaledEntry(row.sat, m.sat, pow, c, a, x.sat, n.sat, y.sat, d);
    ScaledEntry(row.vio, m.vio, pow, c, a, x.vio, n.vio, y.vio, d);
  }

  lemma ScaledEntry(x: real, m: real, pow: real -> real, c: real, a: real, xc: real, ma: real, xm: real, d: real)
    requires IsPower(pow) && m > 0.0 && a > 0.0 && xc == x * c && ma == m * a && xm == x * pow(m) && d == c * pow(a)
    ensures xc * pow(ma) == xm * d
  {
    hide IsPower;
    PowerOfProduct(pow, m, a, ma);
    SwapFactors(x, c, pow(m), pow(a), xc, pow(ma), xm, d);
  }

  lemma SwapFactors(x: real, c: real, p: real, q: real, xc: real, pq: real, xp: real, cq: real)
    requires xc == x * c && pq == p * q && xp == x * p && cq == c * q
    ensures xc * pq == xp * cq
  {
    assert xc * pq == x * c * (p * q);
    assert xp * cq == x * p * (c * q);
  }

  /** How the messages are centred makes no difference to a sweep: any positive factor on each of them cancels. */
  lemma CentringIsIdle(w: Sweep, cs: seq<real>, j: nat)
    requires ProperSweep(w) && |cs| == |w.links| && j < |w.b| && HasIncoming(w.links, j)
    requires forall i :: 0 <= i < |cs| ==> cs[i] > 0.0
    ensures var x := RecentredAt(w, cs, |w.links|, j); Positive(x) && Rescaled(x) == SweptRow(w, j)
  {
    hide WeightsAt, SweptRow, RecentredAt, IsPower, IsGrowing, Rescaled;
    var c := RecentredIsScaled(w, cs, |w.links|, j);
    WeightsRescaled(w, j);
    var x := WeightsAt(w, |w.links|, j);
    ScaledWeight(x, Scale(x, c), c);
    RescaledIsNormalised(x);
    RescaledIsNormalised(Scale(x, c));
  }

  /** With a neutral pair factor a sweep moves no entry by more than twice the floor. */
  lemma NeutralCouplingIsStill(w: Sweep, j: nat)
    requires ProperSweep(w) && w.kappa == 1.0 && j < |w.b|
    ensures var p, q := w.b[j], SweptRow(w, j);
            && -2.0 * EPS <= q.unk - p.unk <= 2.0 * EPS
            && -2.0 * EPS <= q.sat - p.sat <= 2.0 * EPS
            && -2.0 * EPS <= q.vio - p.vio <= 2.0 * EPS
  {
    hide Boost, Posterior;
    if HasIncoming(w.links, j) {
      ProductsArePositive(w, j);
      FlatEvidence(w.b[j], 1.0);
    }
  }

  // ---- the order of the edges ----

  function Without(w: Sweep, k: nat): Sweep
    requires k < |w.links|
  {
    w.(links := w.links[..k] + w.links[k + 1..])
  }

  ghost function Factor(w: Sweep, l: Link, j: nat): real
    requires ProperSweep(w) && l in w.links
  {
    if l.dst == j then LinkLift(w, l) else 1.0
  }

  lemma BoostStep(w: Sweep, j: nat)
    requires ProperSweep(w) && w.links != []
    ensures Boost(w, j) == Boost(Front(w), j) * Factor(w, w.links[|w.links| - 1], j)
  {
    hide LinkLift;
  }

  lemma {:induction false} TakeOut(w: Sweep, k: nat, j: nat)
    requires ProperSweep(w) && k < |w.links|
    ensures Boost(w, j) == Boost(Without(w, k), j) * Factor(w, w.links[k], j)
    decreases |w.links|
  {
    hide Boost, Factor, IsPower, IsGrowing;
    var n := |w.links| - 1;
    BoostStep(w, j);
    if k == n {
      assert Without(w, k) == Front(w);
    } else {
      TakeOut(Front(w), k, j);
      WithoutFront(w, k);
      BoostStep(Without(w, k), j);
      SameFactor(w, Front(w), w.links[k], j);
      SameFactor(w, Without(w, k), w.links[n], j);
      Rotate(Boost(Without(Front(w), k), j), Factor(w, w.links[k], j), Factor(w, w.links[n], j));
    }
  }

  lemma WithoutFront(w: Sweep, k: nat)
    requires k < |w.links| - 1
    ensures var x := Without(w, k);
            && x.links != [] && x.links[|x.links| - 1] == w.links[|w.links| - 1]
            && Front(x) == Without(Front(w), k)
    ensures w.links[k] in Front(w).links
  {
    var x := Without(w, k);
    assert Front(w).links[k] == w.links[k];
    assert Front(x).links == Without(Front(w), k).links;
  }

  lemma SameFactor(w: Sweep, x: Sweep, l: Link, j: nat)
    requires ProperSweep(w) && ProperSweep(x) && l in w.links && l in x.links
    requires w.(links := []) == x.(links := [])
    ensures Factor(w, l, j) == Factor(x, l, j)
  {
  }

  lemma Rotate(a: real, x: real, y: real)
    ensures a * x * y == a * y * x
  {
  }

  lemma {:induction false} BoostIgnoresOrder(w: Sweep, x: Sweep, j: nat)
    requires ProperSweep(w) && ProperSweep(x) && w.(links := []) == x.(links := [])
    requires multiset(w.links) == multiset(x.links)
    ensures Boost(w, j) == Boost(x, j)
    decreases |w.links|
  {
    hide Boost, Factor, IsPower, IsGrowing;
    assert |multiset(w.links)| == |multiset(x.links)|;
    if w.links == [] {
      assert w == x;
    } else {
      var n := |w.links| - 1;
      var k := Partner(w.links, x.links);
      TakeOut(w, n, j);
      TakeOut(x, k, j);
      BoostIgnoresOrder(Without(w, n), Without(x, k), j);
      SameFactor(w, x, w.links[n], j);
    }
  }

  lemma Find(l: Link, links: seq<Link>) returns (k: nat)
    requires l in multiset(links)
    ensures k < |links| && links[k] == l
  {
    k :| 0 <= k < |links| && links[k] == l;
  }

  /** The last link of one list, found in a reordering of it; both may be taken out. */
  lemma Partner(a: seq<Link>, b: seq<Link>) returns (k: nat)
    requires multiset(a) == multiset(b) && a != []
    ensures k < |b| && b[k] == a[|a| - 1]
    ensures multiset(a[..|a| - 1] + a[|a| - 1 + 1..]) == multiset(b[..k] + b[k + 1..])
  {
    k := Find(a[|a| - 1], b);
    RemoveOne(a, |a| - 1);
    RemoveOne(b, k);
  }

  lemma RemoveOne(s: seq<Link>, k: nat)
    requires k < |s|
    ensures multiset(s[..k] + s[k + 1..]) == multiset(s) - multiset{s[k]}
  {
    assert s == s[..k] + [s[k]] + s[k + 1..];
  }

  /** The result of a sweep does not depend on the order in which the coupling edges are listed. */
  lemma SweepIgnoresOrder(w: Sweep, x: Sweep)
    requires ProperSweep(w) && ProperSweep(x) && w.(links := []) == x.(links := [])
    requires multiset(w.links) == multiset(x.links)
    ensures Swept(w) == Swept(x)
  {
    hide Boost, Posterior, IsPower, IsGrowing;
    forall j | 0 <= j < |w.b| ensures SweptRow(w, j) == SweptRow(x, j) {
      BoostIgnoresOrder(w, x, j);
      SameIncoming(w.links, x.links, j);
    }
  }

  lemma SameIncoming(a: seq<Link>, b: seq<Link>, j: nat)
    requires multiset(a) == multiset(b)
    ensures HasIncoming(a, j) <==> HasIncoming(b, j)
  {
    if k :| 0 <= k < |a| && a[k].dst == j {
      assert a[k] in multiset(a);
      var i := Find(a[k], b);
    }
    if k :| 0 <= k < |b| && b[k].dst == j {
      assert b[k] in multiset(b);
      var i := Find(b[k], a);
    }
  }

  // ---- more violated sources push harder ----

  lemma LiftGrows(r: Row, s: Row, kappa: real)
    requires Simplex(r) && Simplex(s) && r.vio <= s.vio && kappa >= 1.0
    ensures Lift(r, kappa) <= Lift(s, kappa)
  {
    var t := 1.0 + 3.0 * EPS;
    assert Total(Floored(r)) == t && Total(Floored(s)) == t;
    Quotient(s.vio - r.vio, t);
    UniqueQuotient(s.vio - r.vio, t, (s.vio + EPS) / t - (r.vio + EPS) / t);
    Product(kappa - 1.0, (s.vio + EPS) / t - (r.vio + EPS) / t);
  }

  lemma {:induction false} BoostGrows(w: Sweep, x: Sweep, j: nat)
    requires ProperSweep(w) && ProperSweep(x) && w.(b := []) == x.(b := []) && |w.b| == |x.b|
    requires w.kappa >= 1.0 && IsGrowing(w.pow)
    requires forall i :: 0 <= i < |w.b| ==> w.b[i].vio <= x.b[i].vio
    ensures Boost(w, j) <= Boost(x, j)
    decreases |w.links|
  {
    hide Boost, Factor, IsPower, IsGrowing;
    if w.links == [] {
      assert Boost(w, j) == 1.0 && Boost(x, j) == 1.0 by { EmptyProducts(w, j); EmptyProducts(x, j); }
    } else {
      var l := w.links[|w.links| - 1];
      BoostStep(w, j);
      BoostStep(x, j);
      BoostGrows(Front(w), Front(x), j);
      ProductsArePositive(Front(w), j);
      FactorGrows(w, x, l, j);
      ProductGrows(Boost(Front(w), j), Boost(Front(x), j), Factor(w, l, j), Factor(x, l, j));
    }
  }

  lemma FactorGrows(w: Sweep, x: Sweep, l: Link, j: nat)
    requires ProperSweep(w) && ProperSweep(x) && w.(b := []) == x.(b := []) && |w.b| == |x.b|
    requires w.kappa >= 1.0 && IsGrowing(w.pow)
    requires l in w.links && w.b[l.src].vio <= x.b[l.src].vio
    ensures 0.0 < Factor(w, l, j) <= Factor(x, l, j)
  {
    hide Lift;
    LiftIsPositive(w.b[l.src], w.kappa);
    LiftGrows(w.b[l.src], x.b[l.src], w.kappa);
    PowerGrows(w.pow, Lift(w.b[l.src], w.kappa), Lift(x.b[l.src], w.kappa));
  }

  lemma PowerGrows(pow: real -> real, x: real, y: real)
    requires IsPower(pow) && IsGrowing(pow) && 0.0 < x <= y
    ensures 0.0 < pow(x) <= pow(y)
  {
  }

  lemma ProductGrows(a: real, b: real, x: real, y: real)
    requires 0.0 < a <= b && 0.0 < x <= y
    ensures a * x <= b * y
  {
    Product(b - a, x);
    Product(b, y - x);
  }

  /** The more violated the sources are, the more violated a destination comes out. */
  lemma ViolationSpreads(w: Sweep, x: Sweep, j: nat)
    requires ProperSweep(w) && ProperSweep(x) && w.(b := []) == x.(b := []) && |w.b| == |x.b|
    requires w.kappa >= 1.0 && IsGrowing(w.pow)
    requires forall i :: 0 <= i < |w.b| ==> w.b[i].vio <= x.b[i].vio
    requires j < |w.b| && w.b[j] == x.b[j]
    ensures SweptRow(w, j).vio <= SweptRow(x, j).vio
  {
    hide Boost, Posterior, IsPower, IsGrowing;
    BoostGrows(w, x, j);
    ProductsArePositive(w, j);
    ProductsArePositive(x, j);
    if HasIncoming(w.links, j) {
      ViolationGains(w.b[j], Row(1.0, 1.0, Boost(w, j)), Row(1.0, 1.0, Boost(x, j)));
    }
  }
}
