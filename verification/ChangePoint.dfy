/** Bayesian online change-point detection for one signal, in exact arithmetic and linear
    probability space. `Next` is what one observation does to the detector's values; the
    mutable class `BOCPDDetector` is proved against it. */
module ChangePoint {
  import opened Histories
  import opened Options
  import opened Sums

  /** Any strictly positive predictive density of x given a segment's location, scale and
      degrees of freedom; the detector's own is an unnormalised Student t. */
  type Predictive = f: (real, real, real, real) -> real | forall x, m, v, nu :: f(x, m, v, nu) > 0.0
    witness (x, m, v, nu) => 1.0

  const MAX_LEN: nat := 300
  const MAX_CHANGE_POINTS: nat := 50
  const MIN_GAP := 5

  /** Constructor arguments. `tiny` is the probability at or below which the code stops taking a
      logarithm, `floor` the weight it uses instead. */
  datatype Params = Params(hazardLambda: real, threshold: real,
                           mu0: real, kappa0: real, alpha0: real, beta0: real,
                           tiny: real, floor: real) {
    /** What `update` needs so that every logarithm and quotient it takes is defined. */
    ghost predicate Valid() {
      && hazardLambda > 1.0
      && kappa0 > 0.0 && alpha0 > 0.0 && beta0 > 0.0
      && tiny > 0.0 && floor > 0.0
    }

    function Hazard(): real
      requires Valid()
    {
      1.0 / hazardLambda
    }
  }

  /** Normal-Inverse-Gamma parameters of one segment hypothesis. */
  datatype Stats = Stats(mu: real, kappa: real, alpha: real, beta: real) {
    ghost predicate Proper() {
      kappa > 0.0 && alpha > 0.0 && beta > 0.0
    }

    function Variance(): real
      requires Proper()
    {
      ProductPositive(alpha, kappa);
      beta * (kappa + 1.0) / (alpha * kappa)
    }

    function Likelihood(like: Predictive, x: real): (p: real)
      requires Proper()
      ensures p > 0.0
    {
      like(x, mu, Variance(), 2.0 * alpha)
    }
  }

  lemma VariancePositive(s: Stats)
    requires s.Proper()
    ensures s.Variance() > 0.0
  {
    ProductPositive(s.alpha, s.kappa);
    ProductPositive(s.beta, s.kappa + 1.0);
    QuotientPositive(s.beta * (s.kappa + 1.0), s.alpha * s.kappa);
  }

  function Prior(p: Params): Stats {
    Stats(p.mu0, p.kappa0, p.alpha0, p.beta0)
  }

  /** The stats of a segment after one more observation. */
  function Grow(s: Stats, x: real): (r: Stats)
    requires s.Proper()
    ensures r.Proper() && r.beta >= s.beta
  {
    var newK := s.kappa + 1.0;
    GrowBeta(s.kappa, x - s.mu);
    Stats((s.kappa * s.mu + x) / newK, newK, s.alpha + 0.5,
          s.beta + (s.kappa * ((x - s.mu) * (x - s.mu))) / (2.0 * newK))
  }

  lemma GrowBeta(k: real, d: real)
    requires k > 0.0
    ensures (k * (d * d)) / (2.0 * (k + 1.0)) >= 0.0
  {
    assert d * d >= 0.0;
    assert k * (d * d) >= 0.0;
    QuotientPositive(k * (d * d), 2.0 * (k + 1.0));
  }

  // ---------- one observation ----------

  /** The detector's values: the run-length posterior with the stats of each run length, the
      number of observations, and when a change point was last emitted. */
  datatype Belief = Belief(probs: seq<real>, stats: seq<Stats>, t: nat, lastCp: int)

  ghost predicate BeliefOk(b: Belief) {
    && 1 <= |b.probs| == |b.stats|
    && forall i :: 0 <= i < |b.stats| ==> b.stats[i].Proper()
  }

  function Initial(p: Params): Belief {
    Belief([1.0], [Prior(p)], 0, -10)
  }

  function Floored(p: Params, q: real): real {
    if q > p.tiny then q else p.floor
  }

  function Likelihoods(like: Predictive, stats: seq<Stats>, x: real): (r: seq<real>)
    requires forall i :: 0 <= i < |stats| ==> stats[i].Proper()
    ensures |r| == |stats| && forall i :: 0 <= i < |stats| ==> r[i] == stats[i].Likelihood(like, x) > 0.0
  {
    seq(|stats|, i requires 0 <= i < |stats| => stats[i].Likelihood(like, x))
  }

  /** Joint weight of each run length and the observation. */
  function Joint(p: Params, like: Predictive, b: Belief, x: real): (r: seq<real>)
    requires BeliefOk(b)
    ensures |r| == |b.probs|
  {
    seq(|b.probs|, i requires 0 <= i < |b.probs| =>
        Mul(Floored(p, b.probs[i]), b.stats[i].Likelihood(like, x)))
  }

  lemma JointPositive(p: Params, like: Predictive, b: Belief, x: real)
    requires p.Valid() && BeliefOk(b)
    ensures forall i :: 0 <= i < |b.probs| ==> Joint(p, like, b, x)[i] > 0.0
    ensures Sum(Joint(p, like, b, x)) > 0.0
  {
    forall i | 0 <= i < |b.probs|
      ensures Joint(p, like, b, x)[i] > 0.0
    {
      ProductPositive(Floored(p, b.probs[i]), b.stats[i].Likelihood(like, x));
    }
    SumPositive(Joint(p, like, b, x));
  }

  lemma Complement(h: real, s: real)
    ensures Mul(h, s) + Mul(1.0 - h, s) == s
  {}

  lemma UnnormalisedTotal(h: real, joint: seq<real>)
    ensures Sum(Unnormalised(h, 1.0 - h, joint)) == Sum(joint)
  {
    var change := Mul(h, Sum(joint));
    SumConcat([change], Scale(1.0 - h, joint));
    SumSingle(change);
    SumScale(1.0 - h, joint);
    Complement(h, Sum(joint));
  }

  function Normalised(s: seq<real>): (r: seq<real>)
    requires Sum(s) > 0.0
    ensures |r| == |s| && forall i :: 0 <= i < |s| ==> r[i] == s[i] / Sum(s)
  {
    seq(|s|, i requires 0 <= i < |s| => s[i] / Sum(s))
  }

  function Posterior(p: Params, like: Predictive, b: Belief, x: real): (r: seq<real>)
    requires p.Valid() && BeliefOk(b)
    ensures |r| == |b.probs| + 1
  {
    JointPositive(p, like, b, x);
    UnnormalisedTotal(p.Hazard(), Joint(p, like, b, x));
    Normalised(Unnormalised(p.Hazard(), 1.0 - p.Hazard(), Joint(p, like, b, x)))
  }

  function GrowAll(p: Params, stats: seq<Stats>, x: real): (r: seq<Stats>)
    requires forall i :: 0 <= i < |stats| ==> stats[i].Proper()
    ensures |r| == |stats| + 1
  {
    [Prior(p)] + seq(|stats|, i requires 0 <= i < |stats| => Grow(stats[i], x))
  }

  lemma GrowAllStarts(p: Params, stats: seq<Stats>, x: real)
    requires forall i :: 0 <= i < |stats| ==> stats[i].Proper()
    ensures GrowAll(p, stats, x)[0] == Stats(p.mu0, p.kappa0, p.alpha0, p.beta0)
  {}

  lemma GrowAllNext(p: Params, stats: seq<Stats>, x: real, i: nat)
    requires i < |stats| && forall j :: 0 <= j < |stats| ==> stats[j].Proper()
    ensures stats[i].Proper() && GrowAll(p, stats, x)[i + 1] == Grow(stats[i], x)
  {
    hide Grow;
  }

  /** The update of one run length's entry in the four lists. */
  method GrowEntry(mu: real, kappa: real, alpha: real, beta: real, x: real)
    returns (newMu: real, newKappa: real, newAlpha: real, newBeta: real)
    requires Stats(mu, kappa, alpha, beta).Proper()
    ensures Stats(newMu, newKappa, newAlpha, newBeta) == Grow(Stats(mu, kappa, alpha, beta), x)
  {
    newKappa := kappa + 1.0;
    newMu := (kappa * mu + x) / newKappa;
    newAlpha := alpha + 0.5;
    newBeta := beta + (kappa * ((x - mu) * (x - mu))) / (2.0 * newKappa);
  }

  function Pruned<T>(s: seq<T>): seq<T> {
    if |s| > MAX_LEN then s[..MAX_LEN] else s
  }

  /** Whether an observation that brings the count to `t` emits a change point. */
  predicate Emits(p: Params, cpProb: real, t: nat, lastCp: int) {
    cpProb >= p.threshold && t - lastCp >= MIN_GAP
  }

  function Next(p: Params, like: Predictive, b: Belief, x: real): (b': Belief)
    requires p.Valid() && BeliefOk(b)
    ensures BeliefOk(b')
  {
    var post := Posterior(p, like, b, x);
    Belief(Pruned(post), Pruned(GrowAll(p, b.stats, x)), b.t + 1,
           if Emits(p, post[0], b.t + 1, b.lastCp) then b.t + 1 else b.lastCp)
  }

  /** The first index of a largest entry from `lo` on. */
  function ArgMax(s: seq<real>, lo: nat): (r: nat)
    requires lo < |s|
    ensures lo <= r < |s|
    ensures forall i :: lo <= i < |s| ==> s[i] <= s[r]
    ensures forall i :: lo <= i < r ==> s[i] < s[r]
    decreases |s|
  {
    if lo == |s| - 1 then lo else
      var best := ArgMax(s[..|s| - 1], lo);
      if s[|s| - 1] > s[best] then |s| - 1 else best
  }

  /** Keeps the last MAX_CHANGE_POINTS entries. */
  function Remember<T>(s: seq<T>, c: T): (r: seq<T>) {
    if |s| < MAX_CHANGE_POINTS then s + [c] else (s + [c])[|s| + 1 - MAX_CHANGE_POINTS..]
  }

  datatype Emission = Emission(timestamp: real, probability: real, signalName: string, runLengthBefore: nat)

  /** What `update` returns. */
  function Emitted(p: Params, like: Predictive, b: Belief, x: real, timestamp: real, name: string): Option<Emission>
    requires p.Valid() && BeliefOk(b)
  {
    var cpProb := Posterior(p, like, b, x)[0];
    if Emits(p, cpProb, b.t + 1, b.lastCp) then
      Some(Emission(timestamp, cpProb, name, ArgMax(Next(p, like, b, x).probs, 1)))
    else None
  }

  // ---------- the mutable detector ----------

  class BOCPDDetector {
    const params: Params
    const like: Predictive
    const signalName: string
    var runLengthProbs: seq<real>
    var mu: seq<real>
    var kappa: seq<real>
    var alpha: seq<real>
    var beta: seq<real>
    var t: nat
    var changePoints: seq<Emission>
    var lastCpT: int

    /** The five lists run in parallel. */
    ghost predicate Valid()
      reads this
    {
      && params.Valid()
      && |runLengthProbs| == |mu| == |kappa| == |alpha| == |beta|
      && BeliefOk(Snapshot())
    }

    ghost function Snapshot(): Belief
      reads this
    {
      Belief(runLengthProbs, StatsOf(mu, kappa, alpha, beta), t, lastCpT)
    }

    constructor (params: Params, like: Predictive, signalName: string)
      requires params.Valid()
      ensures Valid() && Snapshot() == Initial(params) && changePoints == []
      ensures this.params == params && this.like == like && this.signalName == signalName
    {
      this.params, this.like, this.signalName := params, like, signalName;
      runLengthProbs := [1.0];
      mu, kappa, alpha, beta := [params.mu0], [params.kappa0], [params.alpha0], [params.beta0];
      t, changePoints, lastCpT := 0, [], -10;
      new;
      assert Snapshot().stats == [Prior(params)];
    }

    method Reset()
      requires Valid()
      modifies this
      ensures Valid() && Snapshot() == Initial(params) && changePoints == []
    {
      runLengthProbs := [1.0];
      mu, kappa, alpha, beta := [params.mu0], [params.kappa0], [params.alpha0], [params.beta0];
      t, changePoints, lastCpT := 0, [], -10;
      assert Snapshot().stats == [Prior(params)];
    }

    /** Processes one observation. */
    method Update(x: real, timestamp: real) returns (cp: Option<Emission>)
      requires Valid()
      modifies this
      ensures Valid() && Snapshot() == Next(params, like, old(Snapshot()), x)
      ensures cp == Emitted(params, like, old(Snapshot()), x, timestamp, signalName)
      ensures changePoints == if cp.Some? then Remember(old(changePoints), cp.value) else old(changePoints)
    {
      hide Posterior, Remember, Joint, Unnormalised, Normalised, ArgMax, Grow;
      ghost var before := Snapshot();
      var newProbs := NewProbs(x);
      t := t + 1;
      Absorb(before, newProbs, x);
      cp := Detect(newProbs[0], timestamp);
    }

    /** Installs the new posterior and the grown stats, and caps the lists. */
    method Absorb(ghost b: Belief, newProbs: seq<real>, x: real)
      requires params.Valid() && BeliefOk(b) && |newProbs| == |b.probs| + 1
      requires |mu| == |kappa| == |alpha| == |beta| && StatsOf(mu, kappa, alpha, beta) == b.stats
      modifies `runLengthProbs, `mu, `kappa, `alpha, `beta
      ensures |runLengthProbs| == |mu| == |kappa| == |alpha| == |beta|
      ensures runLengthProbs == Pruned(newProbs)
      ensures StatsOf(mu, kappa, alpha, beta) == Pruned(GrowAll(params, b.stats, x))
    {
      runLengthProbs := newProbs;
      UpdateStats(b, x);
      Prune();
    }

    method Detect(cpProb: real, timestamp: real) returns (cp: Option<Emission>)
      requires |runLengthProbs| > 1
      modifies `changePoints, `lastCpT
      ensures cp == if Emits(params, cpProb, t, old(lastCpT))
                    then Some(Emission(timestamp, cpProb, signalName, ArgMax(runLengthProbs, 1))) else None
      ensures lastCpT == if cp.Some? then t else old(lastCpT)
      ensures changePoints == if cp.Some? then Remember(old(changePoints), cp.value) else old(changePoints)
    {
      cp := None;
      if Emits(params, cpProb, t, lastCpT) {
        cp := Some(Emission(timestamp, cpProb, signalName, ArgMax(runLengthProbs, 1)));
        changePoints := Remember(changePoints, cp.value);
        lastCpT := t;
      }
    }

    /** The predictive density of x under each run length. */
    method Predictives(x: real) returns (pred: seq<real>)
      requires Valid()
      ensures pred == Likelihoods(like, Snapshot().stats, x)
    {
      ghost var stats := Snapshot().stats;
      pred := [];
      for i := 0 to |runLengthProbs|
        invariant pred == Likelihoods(like, stats, x)[..i]
      {
        assert stats[i].Proper() && stats[i] == Stats(mu[i], kappa[i], alpha[i], beta[i]);
        ProductPositive(alpha[i], kappa[i]);
        var variance := beta[i] * (kappa[i] + 1.0) / (alpha[i] * kappa[i]);
        assert variance == stats[i].Variance();
        pred := pred + [like(x, mu[i], variance, 2.0 * alpha[i])];
      }
    }

    method NewProbs(x: real) returns (post: seq<real>)
      requires Valid()
      ensures post == Posterior(params, like, Snapshot(), x)
    {
      ghost var b := Snapshot();
      var pred := Predictives(x);
      var joint: seq<real> := [];
      for i := 0 to |runLengthProbs|
        invariant joint == Joint(params, like, b, x)[..i]
      {
        joint := joint + [Mul(Floored(params, runLengthProbs[i]), pred[i])];
      }
      assert joint == Joint(params, like, b, x);
      JointPositive(params, like, b, x);
      post := NormalisedGrowth(1.0 / params.hazardLambda, joint);
    }

    method UpdateStats(ghost b: Belief, x: real)
      requires params.Valid() && BeliefOk(b)
      requires |mu| == |kappa| == |alpha| == |beta| && StatsOf(mu, kappa, alpha, beta) == b.stats
      modifies `mu, `kappa, `alpha, `beta
      ensures |mu| == |kappa| == |alpha| == |beta|
      ensures StatsOf(mu, kappa, alpha, beta) == GrowAll(params, b.stats, x)
    {
      hide Grow, GrowAll;
      var newMu, newKappa := [params.mu0], [params.kappa0];
      var newAlpha, newBeta := [params.alpha0], [params.beta0];
      GrowAllStarts(params, b.stats, x);
      for i := 0 to |mu|
        invariant unchanged(this)
        invariant |newMu| == |newKappa| == |newAlpha| == |newBeta| == i + 1
        invariant forall j :: 0 <= j <= i ==>
          Stats(newMu[j], newKappa[j], newAlpha[j], newBeta[j]) == GrowAll(params, b.stats, x)[j]
      {
        assert b.stats[i] == Stats(mu[i], kappa[i], alpha[i], beta[i]);
        GrowAllNext(params, b.stats, x, i);
        var m, k, a, bt := GrowEntry(mu[i], kappa[i], alpha[i], beta[i], x);
        newMu, newKappa, newAlpha, newBeta := newMu + [m], newKappa + [k], newAlpha + [a], newBeta + [bt];
      }
      mu, kappa, alpha, beta := newMu, newKappa, newAlpha, newBeta;
    }

    method Prune()
      requires |runLengthProbs| == |mu| == |kappa| == |alpha| == |beta|
      modifies `runLengthProbs, `mu, `kappa, `alpha, `beta
      ensures |runLengthProbs| == |mu| == |kappa| == |alpha| == |beta|
      ensures runLengthProbs == Pruned(old(runLengthProbs))
      ensures StatsOf(mu, kappa, alpha, beta) == Pruned(old(StatsOf(mu, kappa, alpha, beta)))
    {
      if |runLengthProbs| > MAX_LEN {
        runLengthProbs := runLengthProbs[..MAX_LEN];
        mu, kappa := mu[..MAX_LEN], kappa[..MAX_LEN];
        alpha, beta := alpha[..MAX_LEN], beta[..MAX_LEN];
      }
    }

    /** The most probable run length. */
    function CurrentRunLength(): (r: nat)
      requires Valid()
      reads this
      ensures r < |runLengthProbs| && forall i :: 0 <= i < |runLengthProbs| ==> runLengthProbs[i] <= runLengthProbs[r]
      ensures forall i :: 0 <= i < r ==> runLengthProbs[i] < runLengthProbs[r]
    {
      ArgMax(runLengthProbs, 0)
    }
  }

  method NormalisedGrowth(h: real, joint: seq<real>) returns (post: seq<real>)
    requires Sum(joint) > 0.0
    ensures Sum(Unnormalised(h, 1.0 - h, joint)) > 0.0 && post == Normalised(Unnormalised(h, 1.0 - h, joint))
  {
    ghost var goal := Unnormalised(h, 1.0 - h, joint);
    var unnormalised := [Mul(h, Sum(joint))];
    for i := 0 to |joint|
      invariant unnormalised == goal[..i + 1]
    {
      unnormalised := unnormalised + [Mul(1.0 - h, joint[i])];
    }
    assert unnormalised == goal;
    UnnormalisedTotal(h, joint);
    post := Normalised(unnormalised);
  }

  function StatsOf(mu: seq<real>, kappa: seq<real>, alpha: seq<real>, beta: seq<real>): (r: seq<Stats>)
    ensures |mu| == |kappa| == |alpha| == |beta| ==>
              |r| == |mu| && forall i :: 0 <= i < |mu| ==> r[i] == Stats(mu[i], kappa[i], alpha[i], beta[i])
  {
    if |mu| == |kappa| == |alpha| == |beta| then
      seq(|mu|, i requires 0 <= i < |mu| => Stats(mu[i], kappa[i], alpha[i], beta[i]))
    else []
  }
}
