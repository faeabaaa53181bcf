/** Weights of particles: normalising them, their effective number, and drawing by cumulative sums. */
module Particles {
  import opened Beliefs

  // ---- sums over sequences ----

  function SeqSum(w: seq<real>): real {
    if w == [] then 0.0 else SeqSum(w[..|w| - 1]) + w[|w| - 1]
  }

  function Squared(x: real): real {
    x * x
  }

  function SumSquares(w: seq<real>): real {
    if w == [] then 0.0 else SumSquares(w[..|w| - 1]) + Squared(w[|w| - 1])
  }

  predicate AllPositive(w: seq<real>) {
    forall i :: 0 <= i < |w| ==> w[i] > 0.0
  }

  predicate AllNonNegative(w: seq<real>) {
    forall i :: 0 <= i < |w| ==> w[i] >= 0.0
  }

  lemma {:induction false} SumIsNonNegative(w: seq<real>)
    requires AllNonNegative(w)
    ensures SeqSum(w) >= 0.0 && forall i :: 0 <= i < |w| ==> w[i] <= SeqSum(w)
  {
    if w != [] {
      SumIsNonNegative(w[..|w| - 1]);
    }
  }

  function DivideBy(w: seq<real>, t: real): (r: seq<real>)
    requires t != 0.0
    ensures |r| == |w|
  {
    seq(|w|, i requires 0 <= i < |w| => w[i] / t)
  }

  lemma {:induction false} SumDivided(w: seq<real>, t: real)
    requires t > 0.0
    ensures SeqSum(DivideBy(w, t)) == SeqSum(w) / t
  {
    if w == [] {
      UniqueQuotient(0.0, t, 0.0);
    } else {
      var n := |w| - 1;
      SumDivided(w[..n], t);
      assert DivideBy(w, t)[..n] == DivideBy(w[..n], t);
      AddQuotients(SeqSum(w[..n]), w[n], t);
    }
  }

  lemma AddQuotients(x: real, y: real, t: real)
    requires t > 0.0
    ensures x / t + y / t == (x + y) / t
  {
    var a, b := x / t, y / t;
    assert a * t == x && b * t == y;
    assert (a + b) * t == a * t + b * t;
    UniqueQuotient(x + y, t, a + b);
  }

  function MaxOf(w: seq<real>): (m: real)
    requires w != []
    ensures m in w && forall i :: 0 <= i < |w| ==> w[i] <= m
  {
    if |w| == 1 then w[0]
    else
      var m := MaxOf(w[..|w| - 1]);
      assert w == w[..|w| - 1] + [w[|w| - 1]];
      if w[|w| - 1] > m then w[|w| - 1] else m
  }

  // ---- normalised weights ----

  /** As with beliefs: divide by the largest weight, then by the total, unless that is next to nothing. */
  function NormalisedWeights(w: seq<real>): (r: seq<real>)
    requires AllPositive(w)
    ensures |r| == |w|
  {
    if w == [] then []
    else
      var e := DivideBy(w, MaxOf(w));
      var t := SeqSum(e);
      if t > EPS then DivideBy(e, t) else seq(|w|, _ => 1.0 / |w| as real)
  }

  predicate Distribution(p: seq<real>) {
    AllNonNegative(p) && SeqSum(p) == 1.0
  }

  /** The fallback is never taken: each weight is divided by the sum of the weights. */
  lemma WeightsAreNormalised(w: seq<real>)
    requires AllPositive(w) && w != []
    ensures SeqSum(w) > 0.0 && NormalisedWeights(w) == DivideBy(w, SeqSum(w))
    ensures Distribution(NormalisedWeights(w)) && AllPositive(NormalisedWeights(w))
  {
    hide SeqSum, MaxOf, DivideBy, AllPositive, AllNonNegative;
    var m := MaxOf(w);
    MaxOfPositive(w);
    SumDivided(w, m);
    AtLeastOne(SeqSum(w), m);
    DividedTwice(w, m, SeqSum(w) / m, SeqSum(w));
    SumDivided(w, SeqSum(w));
    UniqueQuotient(SeqSum(w), SeqSum(w), 1.0);
    DividedIsPositive(w, SeqSum(w));
  }

  lemma MaxOfPositive(w: seq<real>)
    requires AllPositive(w) && w != []
    ensures AllNonNegative(w) && 0.0 < MaxOf(w) <= SeqSum(w)
  {
    hide SeqSum;
    SumIsNonNegative(w);
  }

  lemma DividedTwice(w: seq<real>, m: real, t: real, s: real)
    requires m > 0.0 && t > 0.0 && s != 0.0 && t * m == s
    ensures DivideBy(DivideBy(w, m), t) == DivideBy(w, s)
  {
    forall i | 0 <= i < |w| ensures w[i] / m / t == w[i] / s {
      Cancel(w[i], m, t);
    }
  }

  lemma DividedIsPositive(w: seq<real>, t: real)
    requires AllPositive(w) && t > 0.0
    ensures AllPositive(DivideBy(w, t)) && AllNonNegative(DivideBy(w, t))
  {
    forall i | 0 <= i < |w| ensures w[i] / t > 0.0 {
      Quotient(w[i], t);
    }
  }

  // ---- the effective sample size ----

  function Ess(w: seq<real>): real
    requires AllPositive(w)
  {
    var s := SumSquares(NormalisedWeights(w));
    EssDenominator(s);
    1.0 / if s < EPS then EPS else s
  }

  lemma EssDenominator(s: real)
    ensures (if s < EPS then EPS else s) > 0.0
  {
  }

  /** How far the weights are from all being `a`. */
  function Spread(w: seq<real>, a: real): real {
    if w == [] then 0.0 else Spread(w[..|w| - 1], a) + Squared(w[|w| - 1] - a)
  }

  lemma ProductSign(a: real, b: real, y: real)
    requires a > 0.0 && b > 0.0 && y == a * b
    ensures y > 0.0
  {
  }

  lemma SquareSign(x: real)
    ensures Squared(x) >= 0.0 && (Squared(x) == 0.0 <==> x == 0.0)
  {
    if x > 0.0 {
      ProductSign(x, x, Squared(x));
    } else if x < 0.0 {
      ProductSign(-x, -x, Squared(x));
    }
  }

  /** `SumSquares - 2a*SeqSum + n*a^2`, in the form the induction needs. */
  function Expanded(squares: real, a: real, sum: real, n: real): real {
    squares - 2.0 * a * sum + n * Squared(a)
  }

  lemma {:induction false} SpreadIdentity(w: seq<real>, a: real)
    ensures Spread(w, a) == Expanded(SumSquares(w), a, SeqSum(w), |w| as real)
  {
    if w == [] {
      assert 2.0 * a * 0.0 == 0.0 && 0.0 * Squared(a) == 0.0;
    } else {
      hide Expanded, Squared;
      var n := |w| - 1;
      SpreadIdentity(w[..n], a);
      assert |w| as real == n as real + 1.0;
      SpreadStep(SumSquares(w[..n]), SeqSum(w[..n]), n as real, w[n], a);
    }
  }

  lemma SpreadStep(q: real, s: real, k: real, x: real, a: real)
    ensures Expanded(q, a, s, k) + Squared(x - a) == Expanded(q + Squared(x), a, s + x, k + 1.0)
  {
    assert (x - a) * (x - a) == x * x - 2.0 * a * x + a * a;
    assert (k + 1.0) * (a * a) == k * (a * a) + a * a;
    assert 2.0 * a * (s + x) == 2.0 * a * s + 2.0 * a * x;
  }

  lemma {:induction false} SpreadIsNonNegative(w: seq<real>, a: real)
    ensures Spread(w, a) >= 0.0
    ensures Spread(w, a) == 0.0 <==> forall i :: 0 <= i < |w| ==> w[i] == a
  {
    if w != [] {
      var n := |w| - 1;
      SpreadIsNonNegative(w[..n], a);
      SquareSign(w[n] - a);
      hide Squared;
      assert forall i :: 0 <= i < n ==> w[..n][i] == w[i];
    }
  }

  lemma {:induction false} SquaresAreSmaller(w: seq<real>)
    requires forall i :: 0 <= i < |w| ==> 0.0 <= w[i] <= 1.0
    ensures SumSquares(w) <= SeqSum(w)
  {
    if w != [] {
      var n := |w| - 1;
      SquaresAreSmaller(w[..n]);
      Product(w[n], 1.0 - w[n]);
    }
  }

  /** Cauchy and Schwarz: a distribution over `n` places has squares summing to at least `1/n`. */
  lemma SquaresOfDistribution(p: seq<real>)
    requires Distribution(p) && p != []
    ensures 1.0 <= SumSquares(p) * |p| as real && SumSquares(p) <= 1.0
    ensures SumSquares(p) * |p| as real == 1.0 <==> forall i :: 0 <= i < |p| ==> p[i] == 1.0 / |p| as real
  {
    hide SeqSum, SumSquares, Spread;
    var n := |p| as real;
    var a := 1.0 / n;
    assert a * n == 1.0;
    SpreadIdentity(p, a);
    SpreadIsNonNegative(p, a);
    SumIsNonNegative(p);
    SquaresAreSmaller(p);
    SpreadTimes(Spread(p, a), SumSquares(p), a, n);
  }

  lemma SpreadTimes(d: real, s: real, a: real, n: real)
    requires n > 0.0 && a * n == 1.0 && d == Expanded(s, a, 1.0, n)
    ensures d * n == s * n - 1.0 && (d >= 0.0 ==> s * n >= 1.0) && (d == 0.0 <==> s * n == 1.0)
  {
    assert n * (a * a) == (a * n) * a;
    assert d == s - a;
    assert d * n == s * n - a * n;
    if d >= 0.0 { Product(d, n); }
    if d != 0.0 && d * n == 0.0 {
      UniqueQuotient(0.0, n, d);
      UniqueQuotient(0.0, n, 0.0);
    }
  }

  /** The effective sample size lies between one and the number of particles, whatever the weights. */
  lemma EssInRange(w: seq<real>)
    requires AllPositive(w) && w != []
    ensures 1.0 <= Ess(w) <= |w| as real
  {
    hide NormalisedWeights, SumSquares, Distribution;
    var p := NormalisedWeights(w);
    WeightsAreNormalised(w);
    SquaresOfDistribution(p);
    var s := if SumSquares(p) < EPS then EPS else SumSquares(p);
    var n := |w| as real;
    Product(s - SumSquares(p), n);
    AtLeastOne(1.0, s);
    UniqueQuotient(1.0, 1.0, 1.0);
    CrossMultiply(1.0 / s, n, 1.0, s, n, 1.0);
  }

  /** Up to a million million particles, it is the number of particles just when all weights are equal. */
  lemma EssIsFull(w: seq<real>)
    requires AllPositive(w) && 0 < |w| <= 1000000000000
    ensures Ess(w) == |w| as real <==> forall i :: 0 <= i < |w| ==> NormalisedWeights(w)[i] == 1.0 / |w| as real
  {
    hide NormalisedWeights, SumSquares, Distribution;
    var p := NormalisedWeights(w);
    WeightsAreNormalised(w);
    SquaresOfDistribution(p);
    var s, n := SumSquares(p), |w| as real;
    NotBelowFloor(s, n);
    InverseOf(s, n);
  }

  lemma NotBelowFloor(s: real, n: real)
    requires 0.0 < n <= 1000000000000.0 && s * n >= 1.0
    ensures s >= EPS
  {
    if s < EPS {
      Multiply(EPS - s, n);
    }
  }

  lemma InverseOf(s: real, n: real)
    requires s > 0.0 && n > 0.0
    ensures 1.0 / s == n <==> s * n == 1.0
  {
    if s * n == 1.0 { UniqueQuotient(1.0, s, n); }
  }

  lemma SquareDivided(x: real, t: real)
    requires t > 0.0
    ensures Squared(x / t) * Squared(t) == Squared(x)
  {
    var q := x / t;
    assert q * t == x;
    assert q * q * (t * t) == (q * t) * (q * t);
  }

  lemma {:induction false} SquaresDivided(w: seq<real>, t: real)
    requires t > 0.0
    ensures SumSquares(DivideBy(w, t)) * Squared(t) == SumSquares(w)
  {
    if w != [] {
      var n := |w| - 1;
      SquaresDivided(w[..n], t);
      assert DivideBy(w, t)[..n] == DivideBy(w[..n], t);
      SquareDivided(w[n], t);
      hide Squared;
      AddTimes(SumSquares(DivideBy(w[..n], t)), Squared(w[n] / t), Squared(t));
    } else {
      hide Squared;
    }
  }

  lemma AddTimes(x: real, y: real, t: real)
    ensures (x + y) * t == x * t + y * t
  {
  }

  /** The effective sample size, from the weights as they are: the square of their sum over the sum of their squares. */
  lemma EssByWeights(w: seq<real>)
    requires AllPositive(w) && 0 < |w| <= 1000000000000
    ensures Ess(w) * SumSquares(w) == Squared(SeqSum(w))
  {
    hide *;
    var p, s := NormalisedWeights(w), SeqSum(w);
    WeightsAreNormalised(w);
    EssIsInverse(w, SumSquares(p));
    SquaresDivided(w, s);
    InverseTimes(SumSquares(p), Squared(s), SumSquares(w));
  }

  lemma EssIsInverse(w: seq<real>, q: real)
    requires AllPositive(w) && 0 < |w| <= 1000000000000 && q == SumSquares(NormalisedWeights(w))
    ensures q > 0.0 && Ess(w) == 1.0 / q
  {
    hide NormalisedWeights, SumSquares, Distribution;
    WeightsAreNormalised(w);
    SquaresOfDistribution(NormalisedWeights(w));
    NotBelowFloor(q, |w| as real);
  }

  lemma InverseTimes(s: real, t: real, q: real)
    requires s > 0.0 && s * t == q
    ensures 1.0 / s * q == t
  {
    var e := 1.0 / s;
    assert e * s == 1.0;
    assert e * (s * t) == e * s * t;
  }

  // ---- drawing by cumulative sums ----

  function UpTo(p: seq<real>, k: nat): real
    requires k <= |p|
  {
    SeqSum(p[..k])
  }

  /** The first place where the running sum reaches `u`. */
  ghost predicate IsPick(p: seq<real>, u: real, i: nat) {
    i < |p| && UpTo(p, i + 1) >= u && forall k :: 0 < k <= i ==> UpTo(p, k) < u
  }

  lemma OneMore(p: seq<real>, i: nat)
    requires i < |p|
    ensures UpTo(p, i + 1) == UpTo(p, i) + p[i]
  {
    assert p[..i + 1][..i] == p[..i];
  }

  lemma {:induction false} SumsGrow(p: seq<real>, i: nat, j: nat)
    requires AllNonNegative(p) && i <= j <= |p|
    ensures UpTo(p, i) <= UpTo(p, j)
    decreases j - i
  {
    if i < j {
      SumsGrow(p, i, j - 1);
      OneMore(p, j - 1);
    }
  }

  /** Place `i` is drawn exactly on an interval as long as its weight, so as often as it should be. */
  lemma PickInterval(p: seq<real>, u: real, i: nat)
    requires AllNonNegative(p) && i < |p|
    ensures IsPick(p, u, i) <==> (i == 0 || UpTo(p, i) < u) && u <= UpTo(p, i + 1)
    ensures UpTo(p, i + 1) - UpTo(p, i) == p[i]
  {
    hide UpTo;
    OneMore(p, i);
    forall k | 0 < k <= i ensures UpTo(p, k) <= UpTo(p, i) {
      SumsGrow(p, k, i);
    }
  }

  /** Adds up until `u` is reached; the last place is the answer if it never is. */
  method SampleCategorical(p: seq<real>, u: real) returns (i: nat)
    requires p != []
    ensures i < |p|
    ensures SeqSum(p) >= u ==> IsPick(p, u, i)
    ensures SeqSum(p) < u && AllNonNegative(p) ==> i == |p| - 1
  {
    hide AllNonNegative, UpTo;
    var running := 0.0;
    WholeSum(p);
    for k := 0 to |p|
      invariant running == UpTo(p, k)
      invariant forall j :: 0 < j <= k ==> UpTo(p, j) < u
    {
      OneMore(p, k);
      running := running + p[k];
      if u <= running {
        if AllNonNegative(p) { SumsGrow(p, k + 1, |p|); }
        return k;
      }
    }
    i := |p| - 1;
  }

  lemma WholeSum(p: seq<real>)
    ensures UpTo(p, 0) == 0.0 && UpTo(p, |p|) == SeqSum(p)
  {
    assert p[..|p|] == p;
  }
}
