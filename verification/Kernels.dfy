/** What the change-point detector hands to its predictive density: a segment's degrees of freedom and
    scale are those the segment will have after the observation. */
module Kernels {
  import opened ChangePoint
  import opened ChangePointRuns
  import opened Sequences
  import opened Sums

  /** A weight of the relative growth of the scale and of the degrees of freedom plus one. */
  type Shape = f: (real, real) -> real | forall q, n :: f(q, n) > 0.0 witness (q, n) => 1.0

  /** A density that sees the observation only through 1 + z / nu, z the squared distance over the
      variance, as the Student t does: there the shape is q to the power of -n / 2. */
  function StudentT(f: Shape): Predictive {
    (x: real, m: real, v: real, nu: real) => Kernel(f, x, m, v, nu)
  }

  function Kernel(f: Shape, x: real, m: real, v: real, nu: real): (w: real)
    ensures w > 0.0
  {
    if v > 0.0 && nu > 0.0 then f(1.0 + Distance(x, m, v, nu), nu + 1.0) else 1.0
  }

  /** The squared distance over the variance and the degrees of freedom. */
  function Distance(x: real, m: real, v: real, nu: real): real
    requires v > 0.0 && nu > 0.0
  {
    (x - m) * (x - m) / v / nu
  }

  lemma Quotients(a: real, k: real, b: real, v: real, dd: real)
    requires a > 0.0 && k > 0.0 && b > 0.0 && v > 0.0 && v * (a * k) == b * (k + 1.0)
    ensures b * (1.0 + dd / v / (2.0 * a)) == b + (k * dd) / (2.0 * (k + 1.0))
  {
    var y := dd / v / (2.0 * a);
    assert y * (2.0 * a) == dd / v && dd / v * v == dd;
    assert y * b * (2.0 * (k + 1.0)) == 2.0 * y * (b * (k + 1.0));
    assert 2.0 * y * (v * (a * k)) == y * (2.0 * a) * v * k;
    Divides(y * b, 2.0 * (k + 1.0), k * dd);
  }

  lemma Divides(q: real, d: real, p: real)
    requires d > 0.0 && q * d == p
    ensures p / d == q
  {}

  lemma GrowScale(s: Stats, x: real)
    requires s.Proper()
    ensures Grow(s, x).alpha == s.alpha + 0.5
    ensures Grow(s, x).beta == s.beta + (s.kappa * ((x - s.mu) * (x - s.mu))) / (2.0 * (s.kappa + 1.0))
  {}

  lemma VarianceIs(s: Stats)
    requires s.Proper()
    ensures s.Variance() > 0.0 && s.Variance() * (s.alpha * s.kappa) == s.beta * (s.kappa + 1.0)
  {
    VariancePositive(s);
    ProductPositive(s.alpha, s.kappa);
  }

  /** Whatever the density: it is handed the segment's location, the degrees of freedom that make one
      more the next segment's, and the variance at which the observation's deviation is the relative
      growth of the scale. */
  lemma HandedArguments(s: Stats, x: real) returns (v: real, nu: real)
    requires s.Proper()
    ensures forall like: Predictive :: s.Likelihood(like, x) == like(x, s.mu, v, nu)
    ensures v > 0.0 && nu > 0.0 && nu + 1.0 == 2.0 * Grow(s, x).alpha
    ensures s.beta * (1.0 + (x - s.mu) * (x - s.mu) / v / nu) == Grow(s, x).beta
  {
    hide Grow;
    v, nu := s.Variance(), 2.0 * s.alpha;
    VarianceIs(s);
    GrowScale(s, x);
    hide Stats.Variance;
    Quotients(s.alpha, s.kappa, s.beta, v, (x - s.mu) * (x - s.mu));
  }

  /** So under a Student t shape a segment weighs an observation by what the observation does to its own
      scale and degrees of freedom. */
  lemma WeighsByGrowth(s: Stats, f: Shape, x: real)
    requires s.Proper()
    ensures s.Likelihood(StudentT(f), x) == f(Grow(s, x).beta / s.beta, 2.0 * Grow(s, x).alpha)
  {
    var v, nu := HandedArguments(s, x);
    var q := 1.0 + Distance(x, s.mu, v, nu);
    Divides(q, s.beta, Grow(s, x).beta);
    hide Grow, Distance, Stats.Variance;
    assert StudentT(f)(x, s.mu, v, nu) == Kernel(f, x, s.mu, v, nu);
  }

  /** The weights of the run lengths when x arrives, read off the scales before and after it. */
  function Weights(p: Params, f: Shape, b: Belief, after: seq<Stats>): (w: seq<real>)
    requires BeliefOk(b) && |after| > |b.stats|
    ensures |w| == |b.probs|
  {
    seq(|b.probs|, i requires 0 <= i < |b.probs| =>
        Mul(if b.probs[i] > p.tiny then b.probs[i] else p.floor,
            f(after[i + 1].beta / b.stats[i].beta, 2.0 * after[i + 1].alpha)))
  }

  lemma JointByGrowth(p: Params, f: Shape, b: Belief, x: real)
    requires p.Valid() && BeliefOk(b)
    ensures Joint(p, StudentT(f), b, x) == Weights(p, f, b, GrowAll(p, b.stats, x))
  {
    hide Grow, Mul, StudentT, Prior, Stats.Likelihood;
    var joint, w := Joint(p, StudentT(f), b, x), Weights(p, f, b, GrowAll(p, b.stats, x));
    forall i | 0 <= i < |b.probs| ensures joint[i] == w[i] {
      WeighsByGrowth(b.stats[i], f, x);
    }
  }

  /** One observation under a Student t shape, told on the lists of the detector: the new mass at run
      length i + 1 is the surviving share of the weight that the growth of list entry i gives it. */
  lemma UpdateByGrowth(p: Params, f: Shape, b: Belief, x: real)
    requires p.Valid() && BeliefOk(b) && |b.probs| < MAX_LEN
    ensures var b' := Next(p, StudentT(f), b, x);
            var w := Weights(p, f, b, b'.stats);
            && |b'.probs| == |b.probs| + 1 && Sum(w) > 0.0 && b'.probs[0] == 1.0 / p.hazardLambda
            && forall i :: 0 <= i < |b.probs| ==>
                 b'.probs[i + 1] == Mul(1.0 - 1.0 / p.hazardLambda, w[i]) / Sum(w)
  {
    hide Joint, Grow, StudentT, Mul, Weights, Emits;
    var like, joint := StudentT(f), Joint(p, StudentT(f), b, x);
    JointByGrowth(p, f, b, x);
    JointPositive(p, like, b, x);
    MassAtZero(p, like, b, x);
    UnnormalisedTotal(p.Hazard(), joint);
  }

  /** The likelihoods of the sum over all histories, under a Student t shape, from batch scales alone. */
  lemma SegmentByGrowth(p: Params, f: Shape, xs: seq<real>, k: nat, r: nat)
    requires p.Valid() && r <= k < |xs|
    ensures var before, after := Batch(p, xs[k - r..k]), Batch(p, xs[k - r..k + 1]);
            && before.beta > 0.0
            && SegmentLikelihood(p, StudentT(f), xs, k, r) == f(after.beta / before.beta, 2.0 * after.alpha)
  {
    hide Batch, Grow, StudentT, Stats.Likelihood;
    var segment := LastOf(xs[..k], r);
    assert segment == xs[k - r..k] && segment + [xs[k]] == xs[k - r..k + 1];
    BatchProper(p, segment);
    GrowBatch(p, segment, xs[k]);
    WeighsByGrowth(Batch(p, segment), f, xs[k]);
  }

  // ---------- the remembered change points ----------

  function RememberAll<T>(cs: seq<T>): seq<T> {
    if cs == [] then [] else Remember(RememberAll(cs[..|cs| - 1]), cs[|cs| - 1])
  }

  /** Whatever was emitted, the last 50 are remembered, in order. */
  lemma {:induction false} LastFiftyRemembered<T>(cs: seq<T>)
    ensures RememberAll(cs) == Latest(cs, 50)
  {
    if cs != [] {
      var init, last := cs[..|cs| - 1], cs[|cs| - 1];
      LastFiftyRemembered(init);
      assert cs == init + [last];
    }
  }
}
