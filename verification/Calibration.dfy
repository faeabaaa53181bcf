/** How far a spec's test outcomes are trusted, and what that does to its beliefs. */
module Calibration {
  import opened Beliefs
  import opened Hmm

  datatype Calibration = Calibration(quality: real, alphaSat: real, alphaVio: real, alphaUnk: real)

  const LIKELIHOOD_FLOOR: real := 0.000001
  const SAT_PROTO: real := 0.92
  const VIO_PROTO: real := 0.90
  const UNK_PROTO: real := 0.55

  const PROTOTYPE: Calibration := Calibration(1.0, SAT_PROTO, VIO_PROTO, UNK_PROTO)

  function Clamp(x: real, lo: real, hi: real): real {
    if x < lo then lo else if x > hi then hi else x
  }

  function Floor(x: real, lo: real): real {
    if x < lo then lo else x
  }

  function WithQuality(q: real): Calibration {
    Calibration(q, UNK_PROTO + q * (SAT_PROTO - UNK_PROTO),
                (1.0 - UNK_PROTO) + q * (VIO_PROTO - (1.0 - UNK_PROTO)), UNK_PROTO)
  }

  function FromEvidence(killRate: real, smellPenalty: real): Calibration {
    WithQuality(Clamp(killRate * smellPenalty, 0.3, 1.0))
  }

  function FromClusterEvidence(killRate: real, smellPenalty: real, flakiness: real): Calibration {
    var base := Clamp(killRate * smellPenalty, 0.3, 1.0);
    var penalty := Floor(1.0 - 0.5 * Clamp(flakiness, 0.0, 1.0), 0.3);
    WithQuality(Clamp(base * penalty, 0.3, 1.0))
  }

  function Likelihood(c: Calibration, outcome: string): Row {
    if outcome == "pass" then
      Row(Floor(c.alphaUnk, LIKELIHOOD_FLOOR), Floor(c.alphaSat, LIKELIHOOD_FLOOR), Floor(1.0 - c.alphaVio, LIKELIHOOD_FLOOR))
    else if outcome == "fail" then
      Row(Floor(1.0 - c.alphaUnk, LIKELIHOOD_FLOOR), Floor(1.0 - c.alphaSat, LIKELIHOOD_FLOOR), Floor(c.alphaVio, LIKELIHOOD_FLOOR))
    else UNIFORM
  }

  /** A spec without a calibration of its own gets the prototype's. */
  function SensorOf(cals: map<string, Calibration>): Sensor {
    (id: string, outcome: string) => Likelihood(if id in cals then cals[id] else PROTOTYPE, outcome)
  }

  lemma LikelihoodIsPositive(c: Calibration, outcome: string)
    ensures Positive(Likelihood(c, outcome))
  {
  }

  // ---- more trust, more belief ----

  predicate ProperQuality(q: real) {
    0.3 <= q <= 1.0
  }

  lemma QualityInRange(killRate: real, smellPenalty: real, flakiness: real)
    ensures ProperQuality(FromEvidence(killRate, smellPenalty).quality)
    ensures ProperQuality(FromClusterEvidence(killRate, smellPenalty, flakiness).quality)
  {
  }

  /** Within the range the floor never bites: the likelihoods are the affine functions of the quality. */
  lemma LikelihoodByQuality(q: real)
    requires ProperQuality(q)
    ensures Likelihood(WithQuality(q), "pass") == Row(0.55, 0.55 + 0.37 * q, 0.55 - 0.45 * q)
    ensures Likelihood(WithQuality(q), "fail") == Row(0.45, 0.45 - 0.37 * q, 0.45 + 0.45 * q)
  {
  }

  /** A spec without a calibration is judged with full trust, whatever the others have. */
  lemma UncalibratedIsTrusted(cals: map<string, Calibration>, id: string)
    requires id !in cals
    ensures SensorOf(cals)(id, "pass") == Row(0.55, 0.92, 0.10) && SensorOf(cals)(id, "fail") == Row(0.45, 0.08, 0.90)
  {
    LikelihoodByQuality(1.0);
    assert WithQuality(1.0) == PROTOTYPE;
  }

  /** Any outcome other than a pass or a failure leaves the odds of the statuses as they were, but for the floor. */
  lemma OtherOutcomesSayNothing(cals: map<string, Calibration>, id: string, outcome: string, prior: Row)
    requires NonNegative(prior) && outcome != "pass" && outcome != "fail"
    ensures Positive(SensorOf(cals)(id, outcome))
    ensures var q := Posterior(prior, SensorOf(cals)(id, outcome));
            && q.unk * (prior.sat + EPS) == q.sat * (prior.unk + EPS)
            && q.vio * (prior.sat + EPS) == q.sat * (prior.vio + EPS)
  {
    hide Posterior;
    var lik := SensorOf(cals)(id, outcome);
    assert lik == UNIFORM;
    PosteriorOdds(prior, lik);
    var q := Posterior(prior, lik);
    Thirds(q.unk, prior.sat + EPS, q.sat, prior.unk + EPS);
    Thirds(q.vio, prior.sat + EPS, q.sat, prior.vio + EPS);
  }

  lemma Thirds(a: real, b: real, c: real, d: real)
    requires a * (b * (1.0 / 3.0)) == c * (d * (1.0 / 3.0))
    ensures a * b == c * d
  {
    var t := 1.0 / 3.0;
    assert a * (b * t) == a * b * t && c * (d * t) == c * d * t;
  }

  /** With better tests a pass says more for a satisfied spec, and a failure more for a violated one. */
  lemma TrustSharpens(prior: Row, q: real, better: real)
    requires NonNegative(prior) && ProperQuality(q) && ProperQuality(better) && q <= better
    ensures Positive(Likelihood(WithQuality(q), "pass")) && Positive(Likelihood(WithQuality(better), "pass"))
    ensures Positive(Likelihood(WithQuality(q), "fail")) && Positive(Likelihood(WithQuality(better), "fail"))
    ensures Posterior(prior, Likelihood(WithQuality(q), "pass")).sat
            <= Posterior(prior, Likelihood(WithQuality(better), "pass")).sat
    ensures Posterior(prior, Likelihood(WithQuality(q), "fail")).vio
            <= Posterior(prior, Likelihood(WithQuality(better), "fail")).vio
  {
    hide Posterior, Likelihood, WithQuality;
    LikelihoodByQuality(q);
    LikelihoodByQuality(better);
    CrossTerms(0.55, 0.37, 0.45, q, better);
    SatisfactionGains(prior, Likelihood(WithQuality(q), "pass"), Likelihood(WithQuality(better), "pass"));
    CrossTerms(0.45, 0.45, 0.37, q, better);
    ViolationGains(prior, Likelihood(WithQuality(q), "fail"), Likelihood(WithQuality(better), "fail"));
  }

  lemma CrossTerms(u: real, up: real, down: real, q: real, better: real)
    requires 0.0 <= q <= better && u > 0.0 && up > 0.0 && down > 0.0
    ensures (u + up * q) * u <= (u + up * better) * u
    ensures (u + up * q) * (u - down * better) <= (u + up * better) * (u - down * q)
  {
    Product(up, better - q);
    Product(down, better - q);
    Product(up * (better - q), u);
    Product(down * (better - q), u);
    assert (u + up * better) * (u - down * q) - (u + up * q) * (u - down * better)
        == up * (better - q) * u + down * (better - q) * u;
  }

  // ---- flaky neighbours only ever lower trust ----

  lemma FlakinessNeverRaises(killRate: real, smellPenalty: real, f: real, g: real)
    requires f <= g
    ensures FromClusterEvidence(killRate, smellPenalty, g).quality <= FromClusterEvidence(killRate, smellPenalty, f).quality
    ensures FromClusterEvidence(killRate, smellPenalty, g).quality <= FromEvidence(killRate, smellPenalty).quality
    ensures g <= 0.0 ==> FromClusterEvidence(killRate, smellPenalty, g) == FromEvidence(killRate, smellPenalty)
  {
    var base := Clamp(killRate * smellPenalty, 0.3, 1.0);
    var p := Floor(1.0 - 0.5 * Clamp(f, 0.0, 1.0), 0.3);
    var r := Floor(1.0 - 0.5 * Clamp(g, 0.0, 1.0), 0.3);
    Product(base, p - r);
    Product(base, 1.0 - r);
  }

  /** Flakiness makes no difference exactly when there is none, or the plain quality is as low as it gets. */
  lemma FlakinessIsIdleExactly(killRate: real, smellPenalty: real, f: real)
    ensures FromClusterEvidence(killRate, smellPenalty, f) == FromEvidence(killRate, smellPenalty)
            <==> f <= 0.0 || FromEvidence(killRate, smellPenalty).quality == 0.3
  {
    var base := Clamp(killRate * smellPenalty, 0.3, 1.0);
    var p := Floor(1.0 - 0.5 * Clamp(f, 0.0, 1.0), 0.3);
    if f > 0.0 {
      Multiply(base, 1.0 - p);
      assert base * p == base - base * (1.0 - p);
    }
  }
}
