/** Beliefs over the three spec statuses, transition matrices and Bayes' rule, over the reals. */
module Beliefs {
  const EPS: real := 0.000000000001

  /** One number per status, in the order unknown, satisfied, violated. */
  datatype Row = Row(unk: real, sat: real, vio: real)

  /** `m.unk` holds the probabilities of what follows an unknown status, and so on. */
  datatype Matrix = Matrix(unk: Row, sat: Row, vio: Row)

  datatype Motion = Motion(good: Matrix, bad: Matrix, leak: Matrix, assumedGood: real)

  const UNIFORM: Row := Row(1.0 / 3.0, 1.0 / 3.0, 1.0 / 3.0)

  function Total(r: Row): real {
    r.unk + r.sat + r.vio
  }

  predicate NonNegative(r: Row) {
    r.unk >= 0.0 && r.sat >= 0.0 && r.vio >= 0.0
  }

  predicate Positive(r: Row) {
    r.unk > 0.0 && r.sat > 0.0 && r.vio > 0.0
  }

  predicate Simplex(r: Row) {
    NonNegative(r) && Total(r) == 1.0
  }

  function Over(r: Row, t: real): Row
    requires t != 0.0
  {
    Row(r.unk / t, r.sat / t, r.vio / t)
  }

  function Normalise(v: Row): Row {
    if Total(v) > EPS then Over(v, Total(v)) else UNIFORM
  }

  // ---- division, one small fact at a time ----

  lemma Multiply(a: real, b: real)
    requires a > 0.0 && b > 0.0
    ensures a * b > 0.0
  {
  }

  lemma UniqueQuotient(x: real, t: real, q: real)
    requires t != 0.0 && q * t == x
    ensures q == x / t
  {
    assert (q - x / t) * t == 0.0;
  }

  lemma Quotient(x: real, t: real)
    requires x >= 0.0 && t > 0.0
    ensures x / t >= 0.0 && (x > 0.0 ==> x / t > 0.0) && x / t * t == x
  {
  }

  lemma Gather(a: real, b: real, c: real, t: real, x: real, y: real, z: real)
    requires a * t == x && b * t == y && c * t == z
    ensures (a + b + c) * t == x + y + z
  {
  }

  lemma SumQuotients(x: real, y: real, z: real, t: real)
    requires x >= 0.0 && y >= 0.0 && z >= 0.0 && t > 0.0
    ensures x / t + y / t + z / t == (x + y + z) / t
  {
    Quotient(x, t);
    Quotient(y, t);
    Quotient(z, t);
    Gather(x / t, y / t, z / t, t, x, y, z);
    UniqueQuotient(x + y + z, t, x / t + y / t + z / t);
  }

  lemma TotalOver(v: Row, t: real)
    requires t > 0.0 && NonNegative(v)
    ensures Total(Over(v, t)) == Total(v) / t
  {
    SumQuotients(v.unk, v.sat, v.vio, t);
  }

  lemma OverIsNonNegative(v: Row, t: real)
    requires t > 0.0 && NonNegative(v)
    ensures NonNegative(Over(v, t)) && (Positive(v) ==> Positive(Over(v, t)))
  {
    Quotient(v.unk, t);
    Quotient(v.sat, t);
    Quotient(v.vio, t);
  }

  lemma OverTotal(v: Row)
    requires NonNegative(v) && Total(v) > 0.0
    ensures Simplex(Over(v, Total(v)))
    ensures Positive(v) ==> Positive(Over(v, Total(v)))
  {
    hide Over, Total;
    TotalOver(v, Total(v));
    OverIsNonNegative(v, Total(v));
    UniqueQuotient(Total(v), Total(v), 1.0);
  }

  /** What can be put in as a belief: nothing negative, or so little in all that the uniform row replaces it. */
  predicate Seedable(v: Row) {
    Total(v) <= EPS || NonNegative(v)
  }

  /** A distribution comes out exactly for these; a distribution is kept. */
  lemma NormaliseMakesSimplex(v: Row)
    ensures Simplex(Normalise(v)) <==> Seedable(v)
    ensures Simplex(v) ==> Normalise(v) == v
  {
    if Total(v) > EPS {
      if NonNegative(v) { OverTotal(v); } else { OverKeepsSigns(v, Total(v)); }
    }
    if Total(v) == 1.0 {
      OverOne(v);
    }
  }

  lemma OverKeepsSigns(v: Row, t: real)
    requires t > 0.0 && !NonNegative(v)
    ensures !NonNegative(Over(v, t))
  {
    NegativeQuotient(v.unk, t);
    NegativeQuotient(v.sat, t);
    NegativeQuotient(v.vio, t);
  }

  lemma NegativeQuotient(x: real, t: real)
    requires t > 0.0
    ensures x < 0.0 ==> x / t < 0.0
  {
    if x < 0.0 {
      Quotient(-x, t);
      UniqueQuotient(x, t, -(-x / t));
    }
  }

  lemma OverOne(v: Row)
    ensures Over(v, 1.0) == v
  {
  }

  // ---- the motion step ----

  predicate Stochastic(m: Matrix) {
    Simplex(m.unk) && Simplex(m.sat) && Simplex(m.vio)
  }

  predicate ProperMotion(m: Motion) {
    Stochastic(m.good) && Stochastic(m.bad) && Stochastic(m.leak) && 0.0 <= m.assumedGood <= 1.0
  }

  function Scaled(w: real, r: Row): Row {
    Row(w * r.unk, w * r.sat, w * r.vio)
  }

  function Plus(r: Row, s: Row): Row {
    Row(r.unk + s.unk, r.sat + s.sat, r.vio + s.vio)
  }

  function Weighted(a: real, r: Row, b: real, s: Row): Row {
    Plus(Scaled(a, r), Scaled(b, s))
  }

  function Mixture(m: Motion): Matrix {
    var g, b := m.assumedGood, 1.0 - m.assumedGood;
    Matrix(Weighted(g, m.good.unk, b, m.bad.unk),
           Weighted(g, m.good.sat, b, m.bad.sat),
           Weighted(g, m.good.vio, b, m.bad.vio))
  }

  /** A belief as a row vector, times a matrix. */
  function Times(r: Row, m: Matrix): Row {
    Plus(Plus(Scaled(r.unk, m.unk), Scaled(r.sat, m.sat)), Scaled(r.vio, m.vio))
  }

  function Advance(r: Row, m: Matrix): Row {
    Normalise(Times(r, m))
  }

  lemma Product(a: real, b: real)
    requires a >= 0.0 && b >= 0.0
    ensures a * b >= 0.0
  {
  }

  lemma ScaledTotal(w: real, r: Row)
    requires w >= 0.0 && Simplex(r)
    ensures NonNegative(Scaled(w, r)) && Total(Scaled(w, r)) == w
  {
    Product(w, r.unk);
    Product(w, r.sat);
    Product(w, r.vio);
    assert w * r.unk + w * r.sat + w * r.vio == w * (r.unk + r.sat + r.vio);
  }

  lemma PlusTotal(r: Row, s: Row)
    requires NonNegative(r) && NonNegative(s)
    ensures NonNegative(Plus(r, s)) && Total(Plus(r, s)) == Total(r) + Total(s)
  {
  }

  lemma MixtureIsStochastic(m: Motion)
    requires ProperMotion(m)
    ensures Stochastic(Mixture(m))
  {
    MixedRow(m.assumedGood, m.good.unk, 1.0 - m.assumedGood, m.bad.unk);
    MixedRow(m.assumedGood, m.good.sat, 1.0 - m.assumedGood, m.bad.sat);
    MixedRow(m.assumedGood, m.good.vio, 1.0 - m.assumedGood, m.bad.vio);
  }

  lemma MixedRow(a: real, r: Row, b: real, s: Row)
    requires a >= 0.0 && b >= 0.0 && a + b == 1.0 && Simplex(r) && Simplex(s)
    ensures Simplex(Weighted(a, r, b, s))
  {
    hide Scaled, Plus, NonNegative, Total;
    ScaledTotal(a, r);
    ScaledTotal(b, s);
    PlusTotal(Scaled(a, r), Scaled(b, s));
  }

  lemma TimesKeepsSimplex(r: Row, m: Matrix)
    requires Simplex(r) && Stochastic(m)
    ensures Simplex(Times(r, m))
  {
    hide Scaled, Plus;
    ScaledTotal(r.unk, m.unk);
    ScaledTotal(r.sat, m.sat);
    ScaledTotal(r.vio, m.vio);
    PlusTotal(Scaled(r.unk, m.unk), Scaled(r.sat, m.sat));
    PlusTotal(Plus(Scaled(r.unk, m.unk), Scaled(r.sat, m.sat)), Scaled(r.vio, m.vio));
  }

  /** A stochastic step keeps the simplex, and the defensive renormalisation after it changes nothing. */
  lemma AdvanceKeepsSimplex(r: Row, m: Matrix)
    requires Simplex(r) && Stochastic(m)
    ensures Simplex(Advance(r, m)) && Advance(r, m) == Times(r, m)
  {
    hide Stochastic, Normalise, Times;
    TimesKeepsSimplex(r, m);
    NormaliseMakesSimplex(Times(r, m));
  }

  // ---- the observation step ----

  /** The unnormalised posterior; the floor keeps a status from being ruled out for good. */
  function Evidence(prior: Row, lik: Row): Row {
    Row((prior.unk + EPS) * lik.unk, (prior.sat + EPS) * lik.sat, (prior.vio + EPS) * lik.vio)
  }

  function Largest(r: Row): real {
    var a := if r.unk >= r.sat then r.unk else r.sat;
    if a >= r.vio then a else r.vio
  }

  /** The code's way: divide by the largest weight first, then normalise if the total allows it. */
  function Rescaled(w: Row): Row
    requires Positive(w)
  {
    var scaled := Over(w, Largest(w));
    if Total(scaled) > EPS then Over(scaled, Total(scaled)) else UNIFORM
  }

  function Posterior(prior: Row, lik: Row): Row
    requires NonNegative(prior) && Positive(lik)
  {
    EvidenceIsPositive(prior, lik);
    Rescaled(Evidence(prior, lik))
  }

  lemma EvidenceIsPositive(prior: Row, lik: Row)
    requires NonNegative(prior) && Positive(lik)
    ensures Positive(Evidence(prior, lik))
  {
    Multiply(prior.unk + EPS, lik.unk);
    Multiply(prior.sat + EPS, lik.sat);
    Multiply(prior.vio + EPS, lik.vio);
  }

  /** After the division by the largest weight the total is at least one, so the fallback is never taken. */
  lemma RescaledIsNormalised(w: Row)
    requires Positive(w)
    ensures Total(Over(w, Largest(w))) >= 1.0
    ensures Total(w) > 0.0 && Rescaled(w) == Over(w, Total(w))
    ensures Simplex(Rescaled(w)) && Positive(Rescaled(w))
  {
    hide Over;
    var m := Largest(w);
    TotalOver(w, m);
    AtLeastOne(Total(w), m);
    OverTwice(w, m, Total(w) / m, Total(w));
    OverTotal(w);
  }

  lemma AtLeastOne(x: real, m: real)
    requires x >= m > 0.0
    ensures x / m >= 1.0 && x / m * m == x
  {
    Quotient(x, m);
    Quotient(x - m, m);
    UniqueQuotient(x - m, m, x / m - 1.0);
  }

  lemma OverTwice(w: Row, m: real, t: real, s: real)
    requires m > 0.0 && t > 0.0 && s != 0.0 && t * m == s
    ensures Over(Over(w, m), t) == Over(w, s)
  {
    Cancel(w.unk, m, t);
    Cancel(w.sat, m, t);
    Cancel(w.vio, m, t);
  }

  lemma Cancel(x: real, m: real, t: real)
    requires m > 0.0 && t > 0.0
    ensures t * m != 0.0 && x / m / t == x / (t * m)
  {
    Multiply(t, m);
    var q := x / m / t;
    assert q * t == x / m;
    assert q * (t * m) == x / m * m == x;
    UniqueQuotient(x, t * m, q);
  }

  /**
   The observation step is exactly Bayes' rule on the floored prior: the weights divided by their sum.
   The uniform fallback is never taken, and no status ever gets probability zero.
   */
  lemma PosteriorIsBayes(prior: Row, lik: Row)
    requires NonNegative(prior) && Positive(lik)
    ensures var w := Evidence(prior, lik);
            && Total(w) > 0.0
            && Posterior(prior, lik) == Over(w, Total(w))
    ensures Simplex(Posterior(prior, lik)) && Positive(Posterior(prior, lik))
  {
    hide Over, Evidence, Rescaled;
    EvidenceIsPositive(prior, lik);
    RescaledIsNormalised(Evidence(prior, lik));
  }

  /** Posterior odds are prior odds, floored, times the likelihood ratio. */
  lemma PosteriorOdds(prior: Row, lik: Row)
    requires NonNegative(prior) && Positive(lik)
    ensures var q := Posterior(prior, lik);
            && q.sat * ((prior.vio + EPS) * lik.vio) == q.vio * ((prior.sat + EPS) * lik.sat)
            && q.unk * ((prior.sat + EPS) * lik.sat) == q.sat * ((prior.unk + EPS) * lik.unk)
            && q.unk * ((prior.vio + EPS) * lik.vio) == q.vio * ((prior.unk + EPS) * lik.unk)
  {
    hide Posterior;
    var w := Evidence(prior, lik);
    PosteriorIsBayes(prior, lik);
    Proportional(w.sat, w.vio, Total(w));
    Proportional(w.unk, w.sat, Total(w));
    Proportional(w.unk, w.vio, Total(w));
  }

  lemma Proportional(x: real, y: real, t: real)
    requires t > 0.0
    ensures x / t * y == y / t * x
  {
    assert x / t * t == x && y / t * t == y;
    assert x / t * y == x / t * (y / t * t);
  }

  /** An uninformative observation leaves the floored prior, only rescaled. */
  lemma FlatEvidence(prior: Row, c: real)
    requires Simplex(prior) && c > 0.0
    ensures var q := Posterior(prior, Row(c, c, c));
            && q.unk * (1.0 + 3.0 * EPS) == prior.unk + EPS
            && q.sat * (1.0 + 3.0 * EPS) == prior.sat + EPS
            && q.vio * (1.0 + 3.0 * EPS) == prior.vio + EPS
  {
    hide Posterior;
    var w := Evidence(prior, Row(c, c, c));
    PosteriorIsBayes(prior, Row(c, c, c));
    assert Total(w) == c * (1.0 + 3.0 * EPS);
    Ratio(prior.unk + EPS, c, 1.0 + 3.0 * EPS);
    Ratio(prior.sat + EPS, c, 1.0 + 3.0 * EPS);
    Ratio(prior.vio + EPS, c, 1.0 + 3.0 * EPS);
  }

  lemma Ratio(x: real, c: real, t: real)
    requires c > 0.0 && t > 0.0
    ensures c * t != 0.0 && x * c / (c * t) * t == x
  {
    Multiply(c, t);
    assert x * c / (c * t) * (c * t) == x * c;
    assert (x * c / (c * t) * t) * c == x * c;
  }

  // ---- stronger evidence ----

  lemma Fractions(x: real, a: real, y: real, b: real)
    requires x > 0.0 && a > 0.0 && y > 0.0 && b > 0.0 && x * b <= y * a
    ensures x / (x + a) <= y / (y + b)
  {
    var p, q := x / (x + a), y / (y + b);
    Multiply(x + a, y + b);
    assert p * (x + a) == x && q * (y + b) == y;
    CrossMultiply(p, q, x, x + a, y, y + b);
  }

  lemma CrossMultiply(p: real, q: real, x: real, s: real, y: real, t: real)
    requires s > 0.0 && t > 0.0 && p * s == x && q * t == y && x * t <= y * s
    ensures p <= q
  {
    Multiply(s, t);
    assert p * (s * t) == p * s * t && q * (s * t) == q * t * s;
    if p > q {
      Multiply(p - q, s * t);
    }
  }

  lemma Dominate(c: real, l: real, m: real, d: real, l2: real, m2: real)
    requires c > 0.0 && d > 0.0 && l * m2 <= l2 * m
    ensures (c * l) * (d * m2) <= (c * l2) * (d * m)
  {
    Multiply(c, d);
    Product(c * d, l2 * m - l * m2);
  }

  lemma VioEvidence(prior: Row, lik: Row, lik2: Row)
    requires NonNegative(prior)
    requires lik.vio * lik2.unk <= lik2.vio * lik.unk && lik.vio * lik2.sat <= lik2.vio * lik.sat
    ensures var e, f := Evidence(prior, lik), Evidence(prior, lik2);
            e.vio * f.unk <= f.vio * e.unk && e.vio * f.sat <= f.vio * e.sat
  {
    Dominate(prior.vio + EPS, lik.vio, lik.unk, prior.unk + EPS, lik2.vio, lik2.unk);
    Dominate(prior.vio + EPS, lik.vio, lik.sat, prior.sat + EPS, lik2.vio, lik2.sat);
  }

  lemma SatEvidence(prior: Row, lik: Row, lik2: Row)
    requires NonNegative(prior)
    requires lik.sat * lik2.unk <= lik2.sat * lik.unk && lik.sat * lik2.vio <= lik2.sat * lik.vio
    ensures var e, f := Evidence(prior, lik), Evidence(prior, lik2);
            e.sat * f.unk <= f.sat * e.unk && e.sat * f.vio <= f.sat * e.vio
  {
    Dominate(prior.sat + EPS, lik.sat, lik.unk, prior.unk + EPS, lik2.sat, lik2.unk);
    Dominate(prior.sat + EPS, lik.sat, lik.vio, prior.vio + EPS, lik2.sat, lik2.vio);
  }

  /** If the second observation speaks more for a violation, against either other status, the violation gains. */
  lemma ViolationGains(prior: Row, lik: Row, lik2: Row)
    requires NonNegative(prior) && Positive(lik) && Positive(lik2)
    requires lik.vio * lik2.unk <= lik2.vio * lik.unk && lik.vio * lik2.sat <= lik2.vio * lik.sat
    ensures Posterior(prior, lik).vio <= Posterior(prior, lik2).vio
  {
    hide Posterior, Over, Evidence;
    var e, f := Evidence(prior, lik), Evidence(prior, lik2);
    PosteriorIsBayes(prior, lik);
    PosteriorIsBayes(prior, lik2);
    VioEvidence(prior, lik, lik2);
    EvidenceIsPositive(prior, lik);
    EvidenceIsPositive(prior, lik2);
    ShareGrows(e.vio, e.unk, e.sat, f.vio, f.unk, f.sat);
    VioShare(e);
    VioShare(f);
  }

  /** The same for the satisfied status. */
  lemma SatisfactionGains(prior: Row, lik: Row, lik2: Row)
    requires NonNegative(prior) && Positive(lik) && Positive(lik2)
    requires lik.sat * lik2.unk <= lik2.sat * lik.unk && lik.sat * lik2.vio <= lik2.sat * lik.vio
    ensures Posterior(prior, lik).sat <= Posterior(prior, lik2).sat
  {
    hide Posterior, Over, Evidence;
    var e, f := Evidence(prior, lik), Evidence(prior, lik2);
    PosteriorIsBayes(prior, lik);
    PosteriorIsBayes(prior, lik2);
    SatEvidence(prior, lik, lik2);
    EvidenceIsPositive(prior, lik);
    EvidenceIsPositive(prior, lik2);
    ShareGrows(e.sat, e.unk, e.vio, f.sat, f.unk, f.vio);
    SatShare(e);
    SatShare(f);
  }

  lemma ShareGrows(x: real, a: real, b: real, y: real, c: real, d: real)
    requires x > 0.0 && a > 0.0 && b > 0.0 && y > 0.0 && c > 0.0 && d > 0.0
    requires x * c <= y * a && x * d <= y * b
    ensures x / (x + (a + b)) <= y / (y + (c + d))
  {
    assert x * (c + d) == x * c + x * d && y * (a + b) == y * a + y * b;
    Fractions(x, a + b, y, c + d);
  }

  lemma VioShare(w: Row)
    requires Positive(w)
    ensures Over(w, Total(w)).vio == w.vio / (w.vio + (w.unk + w.sat))
  {
    assert Total(w) == w.vio + (w.unk + w.sat);
  }

  lemma SatShare(w: Row)
    requires Positive(w)
    ensures Over(w, Total(w)).sat == w.sat / (w.sat + (w.unk + w.vio))
  {
    assert Total(w) == w.sat + (w.unk + w.vio);
  }
}
