/** What the change-point detector computes over whole runs: batch statistics, when it emits, and
    the posterior over run lengths as a sum over all change histories. */
module ChangePointRuns {
  import opened ChangePoint
  import opened Histories
  import opened Sums

  /** The detector after observing `xs` from a fresh start. */
  ghost function Run(p: Params, like: Predictive, xs: seq<real>): (b: Belief)
    requires p.Valid()
    ensures BeliefOk(b)
  {
    if xs == [] then Initial(p) else Next(p, like, Run(p, like, xs[..|xs| - 1]), xs[|xs| - 1])
  }

  // ---------- online equals batch ----------

  function Squares(ys: seq<real>): (r: seq<real>)
    ensures |r| == |ys| && forall i :: 0 <= i < |ys| ==> r[i] == Mul(ys[i], ys[i])
  {
    Times(ys, ys)
  }

  /** The posterior of `n` observations with sum `s` and sum of squares `q`. */
  function FromSums(p: Params, n: real, s: real, q: real): Stats
    requires p.Valid() && n >= 0.0
  {
    var k := p.kappa0 + n;
    var mu := (p.kappa0 * p.mu0 + s) / k;
    Stats(mu, k, p.alpha0 + n / 2.0, p.beta0 + (p.kappa0 * p.mu0 * p.mu0 + q - k * mu * mu) / 2.0)
  }

  /** The posterior of exactly the observations `ys`. */
  function Batch(p: Params, ys: seq<real>): Stats
    requires p.Valid()
  {
    FromSums(p, |ys| as real, Sum(ys), Sum(Squares(ys)))
  }

  lemma SquaresAppend(ys: seq<real>, x: real)
    ensures Sum(ys + [x]) == Sum(ys) + x
    ensures Sum(Squares(ys + [x])) == Sum(Squares(ys)) + Mul(x, x)
  {
    hide Mul;
    assert (ys + [x])[..|ys|] == ys;
    assert Squares(ys + [x])[..|ys|] == Squares(ys);
  }

  /** The algebra of one update: for m' the updated mean, the weighted deviation is the change in
      the residual sum of squares. */
  lemma DeviationAlgebra(k: real, m: real, x: real, m': real)
    requires k > 0.0 && (k + 1.0) * m' == k * m + x
    ensures (k * ((x - m) * (x - m))) / (2.0 * (k + 1.0)) ==
            (x * x + k * m * m - (k + 1.0) * m' * m') / 2.0
  {
    var n := k + 1.0;
    var dev, res := k * ((x - m) * (x - m)), x * x + k * m * m - n * m' * m';
    SquareOfMean(k, m, x, m');
    assert n * (x * x + k * m * m) == k * x * x + x * x + k * k * m * m + k * m * m;
    assert n * res == dev;
    HalfQuotient(dev, n, res);
  }

  lemma SquareOfMean(k: real, m: real, x: real, m': real)
    requires (k + 1.0) * m' == k * m + x
    ensures (k + 1.0) * ((k + 1.0) * m' * m') == k * k * m * m + 2.0 * (k * m * x) + x * x
  {
    var t := k * m + x;
    assert (k + 1.0) * ((k + 1.0) * m' * m') == t * t;
  }

  lemma HalfQuotient(dev: real, n: real, res: real)
    requires n > 0.0 && n * res == dev
    ensures dev / (2.0 * n) == res / 2.0
  {}

  lemma TimesQuotient(a: real, k: real)
    requires k > 0.0
    ensures k * (a / k) == a
  {}

  function Moment(k: real, m: real): real {
    k * m * m
  }

  function Gain(k: real, m: real, x: real): real
    requires k > 0.0
  {
    (k * ((x - m) * (x - m))) / (2.0 * (k + 1.0))
  }

  function Ratio(a: real, k: real): real
    requires k > 0.0
  {
    a / k
  }

  lemma TimesRatio(a: real, k: real)
    requires k > 0.0
    ensures Mul(k, Ratio(a, k)) == a
  {}

  lemma GrownScale(beta0: real, c: real, k: real, m: real, x: real, m': real)
    requires k > 0.0 && Mul(k + 1.0, m') == Mul(k, m) + x
    ensures beta0 + (c - Moment(k, m)) / 2.0 + Gain(k, m, x) ==
            beta0 + (c + Mul(x, x) - Moment(k + 1.0, m')) / 2.0
  {
    DeviationAlgebra(k, m, x, m');
    HalfSums(c, k * m * m, (k + 1.0) * m' * m', x * x);
  }

  lemma HalfSums(c: real, before: real, after: real, xx: real)
    ensures (c - before) / 2.0 + (xx + before - after) / 2.0 == (c + xx - after) / 2.0
  {}

  lemma GrownIs(s: Stats, x: real)
    requires s.Proper()
    ensures var r := Grow(s, x);
            && r.mu == Ratio(Mul(s.kappa, s.mu) + x, s.kappa + 1.0) && r.kappa == s.kappa + 1.0
            && r.alpha == s.alpha + 0.5 && r.beta == s.beta + Gain(s.kappa, s.mu, x)
  {}

  lemma FromSumsAre(p: Params, n: real, s: real, q: real)
    requires p.Valid() && n >= 0.0
    ensures var r := FromSums(p, n, s, q);
            && r.kappa > 0.0 && r.mu == Ratio(Mul(p.kappa0, p.mu0) + s, r.kappa)
            && r.kappa == p.kappa0 + n && r.alpha == p.alpha0 + n / 2.0
            && r.beta == p.beta0 + (Moment(p.kappa0, p.mu0) + q - Moment(r.kappa, r.mu)) / 2.0
  {}

  /** Growing the stats of a batch by one observation gives the stats of the longer batch. */
  lemma GrowSums(p: Params, n: real, s: real, q: real, x: real)
    requires p.Valid() && n >= 0.0 && FromSums(p, n, s, q).Proper()
    ensures Grow(FromSums(p, n, s, q), x) == FromSums(p, n + 1.0, s + x, q + Mul(x, x))
  {
    hide *;
    var a, b := FromSums(p, n, s, q), FromSums(p, n + 1.0, s + x, q + Mul(x, x));
    FromSumsAre(p, n, s, q);
    FromSumsAre(p, n + 1.0, s + x, q + Mul(x, x));
    GrownIs(a, x);
    TimesRatio(Mul(p.kappa0, p.mu0) + s, a.kappa);
    TimesRatio(Mul(p.kappa0, p.mu0) + s + x, b.kappa);
    GrownScale(p.beta0, Moment(p.kappa0, p.mu0) + q, a.kappa, a.mu, x, b.mu);
  }

  lemma GrowBatch(p: Params, ys: seq<real>, x: real)
    requires p.Valid() && Batch(p, ys).Proper()
    ensures Grow(Batch(p, ys), x) == Batch(p, ys + [x])
  {
    SquaresAppend(ys, x);
    GrowSums(p, |ys| as real, Sum(ys), Sum(Squares(ys)), x);
  }

  lemma BatchOfNothing(p: Params)
    requires p.Valid()
    ensures Batch(p, []) == Prior(p)
  {
    TimesQuotient(p.mu0, p.kappa0);
  }

  /** Batch stats are proper, and the scale never falls below the prior's. */
  lemma {:induction false} BatchProper(p: Params, ys: seq<real>)
    requires p.Valid()
    ensures Batch(p, ys).Proper() && Batch(p, ys).beta >= p.beta0
  {
    if ys == [] {
      BatchOfNothing(p);
    } else {
      var init, x := ys[..|ys| - 1], ys[|ys| - 1];
      BatchProper(p, init);
      GrowBatch(p, init, x);
      assert ys == init + [x];
    }
  }

  function LastOf(xs: seq<real>, i: nat): seq<real>
    requires i <= |xs|
  {
    xs[|xs| - i..]
  }

  function Lists(t: nat): nat {
    if t + 1 <= 300 then t + 1 else 300
  }

  /** The five lists of a belief are those of a batch of the last observations. */
  ghost predicate IsBatch(p: Params, xs: seq<real>, b: Belief)
    requires p.Valid()
  {
    && b.t == |xs|
    && |b.probs| == |b.stats| == Lists(|xs|)
    && forall i :: 0 <= i < |b.stats| ==> b.stats[i] == Batch(p, LastOf(xs, i))
  }

  lemma NextIsBatch(p: Params, like: Predictive, xs: seq<real>, b: Belief, x: real)
    requires p.Valid() && BeliefOk(b) && IsBatch(p, xs, b)
    ensures IsBatch(p, xs + [x], Next(p, like, b, x))
  {
    hide Batch, Grow, Posterior, Emits, Prior;
    var grown := GrowAll(p, b.stats, x);
    forall i | 0 <= i < |grown|
      ensures grown[i] == Batch(p, LastOf(xs + [x], i))
    {
      if i == 0 {
        BatchOfNothing(p);
        assert LastOf(xs + [x], 0) == [];
      } else {
        GrowBatch(p, LastOf(xs, i - 1), x);
        assert LastOf(xs, i - 1) + [x] == LastOf(xs + [x], i);
      }
    }
  }

  /** Online equals batch: after every run, index i of the five lists holds the posterior of exactly
      the last i observations, the lists have length min(t + 1, 300), every scale is at least the
      prior's, and every predictive variance is positive. */
  lemma {:induction false} OnlineEqualsBatch(p: Params, like: Predictive, xs: seq<real>)
    requires p.Valid()
    ensures IsBatch(p, xs, Run(p, like, xs))
    ensures forall i :: 0 <= i < |Run(p, like, xs).stats| ==>
              Run(p, like, xs).stats[i].beta >= p.beta0 && Run(p, like, xs).stats[i].Variance() > 0.0
  {
    RunIsBatch(p, like, xs);
    var b := Run(p, like, xs);
    forall i | 0 <= i < |b.stats|
      ensures b.stats[i].beta >= p.beta0 && b.stats[i].Variance() > 0.0
    {
      BatchProper(p, LastOf(xs, i));
      VariancePositive(b.stats[i]);
    }
  }

  lemma {:induction false} RunIsBatch(p: Params, like: Predictive, xs: seq<real>)
    requires p.Valid()
    ensures IsBatch(p, xs, Run(p, like, xs))
  {
    hide Next;
    if xs == [] {
      BatchOfNothing(p);
      assert LastOf(xs, 0) == [];
    } else {
      var init, x := xs[..|xs| - 1], xs[|xs| - 1];
      RunIsBatch(p, like, init);
      NextIsBatch(p, like, init, Run(p, like, init), x);
      assert init + [x] == xs;
    }
  }

  /** For every candidate centre c, the prior-weighted squared deviation of a batch splits into the
      scale it reports and the distance from the location it reports. So that location is the best
      centre, and twice the scale gained over the prior is the least deviation. */
  lemma BatchIsLeastSquares(p: Params, ys: seq<real>, c: real)
    requires p.Valid()
    ensures var s := Batch(p, ys);
            p.kappa0 * ((c - p.mu0) * (c - p.mu0)) + Deviation(ys, c) ==
            2.0 * (s.beta - p.beta0) + s.kappa * ((c - s.mu) * (c - s.mu))
  {
    hide Batch, Sum, Squares, Deviation;
    var s := Batch(p, ys);
    DeviationExpands(ys, c);
    BatchResidual(p, ys);
    LeastSquaresAlgebra(p.kappa0, p.mu0, |ys| as real, Sum(ys), Sum(Squares(ys)), s.mu, c,
                        2.0 * (s.beta - p.beta0), Deviation(ys, c));
  }

  lemma BatchResidual(p: Params, ys: seq<real>)
    requires p.Valid()
    ensures var s, n := Batch(p, ys), |ys| as real;
            && s.kappa == p.kappa0 + n
            && (p.kappa0 + n) * s.mu == p.kappa0 * p.mu0 + Sum(ys)
            && 2.0 * (s.beta - p.beta0) == p.kappa0 * p.mu0 * p.mu0 + Sum(Squares(ys)) - (p.kappa0 + n) * s.mu * s.mu
  {
    hide Sum, Squares;
    TimesQuotient(p.kappa0 * p.mu0 + Sum(ys), p.kappa0 + |ys| as real);
  }

  function Deviation(ys: seq<real>, c: real): real {
    if ys == [] then 0.0
    else Deviation(ys[..|ys| - 1], c) + Mul(ys[|ys| - 1] - c, ys[|ys| - 1] - c)
  }

  /** The squared deviation from c of n values with sum s and sum of squares q. */
  function Expanded(q: real, s: real, n: real, c: real): real {
    q - 2.0 * c * s + n * (c * c)
  }

  lemma ExpandStep(q: real, s: real, n: real, y: real, c: real)
    ensures Expanded(q, s, n, c) + Mul(y - c, y - c) == Expanded(q + Mul(y, y), s + y, n + 1.0, c)
  {}

  lemma {:induction false} DeviationExpands(ys: seq<real>, c: real)
    ensures Deviation(ys, c) == Expanded(Sum(Squares(ys)), Sum(ys), |ys| as real, c)
  {
    if ys != [] {
      var init, y := ys[..|ys| - 1], ys[|ys| - 1];
      DeviationExpands(init, c);
      assert ys == init + [y];
      SquaresAppend(init, y);
      ExpandStep(Sum(Squares(init)), Sum(init), |init| as real, y, c);
      hide Sum, Squares, Expanded, Mul;
    }
  }

  lemma LeastSquaresAlgebra(k0: real, m0: real, n: real, s: real, q: real, m: real, c: real, b: real, d: real)
    requires (k0 + n) * m == k0 * m0 + s
    requires b == k0 * m0 * m0 + q - (k0 + n) * m * m
    requires d == q - 2.0 * c * s + n * (c * c)
    ensures k0 * ((c - m0) * (c - m0)) + d == b + (k0 + n) * ((c - m) * (c - m))
  {
    var k := k0 + n;
    assert k * ((c - m) * (c - m)) == k * (c * c) - 2.0 * c * (k * m) + k * m * m;
    assert 2.0 * c * (k * m) == 2.0 * c * (k0 * m0) + 2.0 * c * s;
    assert k0 * ((c - m0) * (c - m0)) == k0 * (c * c) - 2.0 * c * (k0 * m0) + k0 * m0 * m0;
  }

  // ---------- the mass at run length zero, and emission ----------

  lemma Cancel(h: real, s: real)
    requires s > 0.0
    ensures Mul(h, s) / s == h
  {}

  /** Whatever the state, observation and density, the new mass at run length 0 is the hazard. */
  lemma MassAtZero(p: Params, like: Predictive, b: Belief, x: real)
    requires p.Valid() && BeliefOk(b)
    ensures Posterior(p, like, b, x)[0] == 1.0 / p.hazardLambda
  {
    var joint := Joint(p, like, b, x);
    JointPositive(p, like, b, x);
    UnnormalisedTotal(p.Hazard(), joint);
    Cancel(p.Hazard(), Sum(joint));
  }

  lemma DivideIsScale(a: real, b: real)
    requires b > 0.0
    ensures a / b == Mul(1.0 / b, a)
  {}

  lemma NormalisedIsScale(s: seq<real>)
    requires Sum(s) > 0.0
    ensures Normalised(s) == Scale(1.0 / Sum(s), s)
  {
    forall i | 0 <= i < |s|
      ensures Normalised(s)[i] == Mul(1.0 / Sum(s), s[i])
    {
      DivideIsScale(s[i], Sum(s));
    }
  }

  /** Before truncation every posterior is a probability distribution. */
  lemma PosteriorSumsToOne(p: Params, like: Predictive, b: Belief, x: real)
    requires p.Valid() && BeliefOk(b)
    ensures Sum(Posterior(p, like, b, x)) == 1.0
  {
    var un := Unnormalised(p.Hazard(), 1.0 - p.Hazard(), Joint(p, like, b, x));
    JointPositive(p, like, b, x);
    UnnormalisedTotal(p.Hazard(), Joint(p, like, b, x));
    NormalisedIsScale(un);
    SumScale(1.0 / Sum(un), un);
  }

  predicate HazardReaches(p: Params)
    requires p.Valid()
  {
    1.0 / p.hazardLambda >= p.threshold
  }

  /** What an observation does to the emission clock. */
  lemma NextClock(p: Params, like: Predictive, b: Belief, x: real, timestamp: real, name: string)
    requires p.Valid() && BeliefOk(b)
    ensures var b', emits := Next(p, like, b, x), HazardReaches(p) && b.t + 1 - b.lastCp >= MIN_GAP;
            && b'.t == b.t + 1
            && b'.lastCp == (if emits then b.t + 1 else b.lastCp)
            && (Emitted(p, like, b, x, timestamp, name).Some? <==> emits)
  {
    MassAtZero(p, like, b, x);
  }

  /** The clock after n observations, if the hazard reaches the threshold. */
  function LastEmission(reaches: bool, n: nat): int {
    if reaches && n > 0 then n - (n - 1) % MIN_GAP else -10
  }

  lemma ClockStep(reaches: bool, n: nat)
    ensures var last, emits := LastEmission(reaches, n), reaches && n + 1 - LastEmission(reaches, n) >= MIN_GAP;
            && LastEmission(reaches, n + 1) == (if emits then n + 1 else last)
            && (emits <==> reaches && (n + 1) % MIN_GAP == 1)
  {}

  lemma {:induction false} RunClock(p: Params, like: Predictive, xs: seq<real>)
    requires p.Valid()
    ensures Run(p, like, xs).t == |xs| && Run(p, like, xs).lastCp == LastEmission(HazardReaches(p), |xs|)
  {
    if xs != [] {
      var init := xs[..|xs| - 1];
      RunClock(p, like, init);
      NextClock(p, like, Run(p, like, init), xs[|xs| - 1], 0.0, "");
      ClockStep(HazardReaches(p), |init|);
      hide Next, LastEmission, HazardReaches;
    }
  }

  /** In every run, for all data and any predictive density, a change point is emitted exactly at
      observations 1, 6, 11, ... when 1/hazardLambda reaches the threshold, and never otherwise. */
  lemma EmissionIgnoresData(p: Params, like: Predictive, xs: seq<real>, x: real, timestamp: real, name: string)
    requires p.Valid()
    ensures Emitted(p, like, Run(p, like, xs), x, timestamp, name).Some? <==>
            1.0 / p.hazardLambda >= p.threshold && (|xs| + 1) % 5 == 1
  {
    RunClock(p, like, xs);
    NextClock(p, like, Run(p, like, xs), x, timestamp, name);
    ClockStep(HazardReaches(p), |xs|);
    hide Run, Emitted, LastEmission, Next;
  }

  // ---------- the posterior as a sum over all histories ----------

  /** The likelihood of observation k given that the segment holds the r observations before it. */
  function SegmentLikelihood(p: Params, like: Predictive, xs: seq<real>, k: nat, r: nat): real
    requires p.Valid()
  {
    if r <= k < |xs| then
      BatchProper(p, LastOf(xs[..k], r));
      Batch(p, LastOf(xs[..k], r)).Likelihood(like, xs[k])
    else 1.0
  }

  function Likelihoods(p: Params, like: Predictive, xs: seq<real>): Table
    requires p.Valid()
  {
    (k: nat, r: nat) => SegmentLikelihood(p, like, xs, k, r)
  }

  /** Joint weight of the first k observations and each run length, summed over all 2^k histories. */
  ghost function BruteForce(p: Params, like: Predictive, xs: seq<real>, k: nat): (m: seq<real>)
    requires p.Valid()
    ensures |m| == k + 1
  {
    AllMasses(p.Hazard(), 1.0 - p.Hazard(), Likelihoods(p, like, xs), k)
  }

  /** No probability on the way to observation n was small enough for the underflow floor. */
  ghost predicate AwayFromFloor(p: Params, like: Predictive, xs: seq<real>, n: nat)
    requires p.Valid() && n <= |xs|
  {
    forall k :: 0 <= k < n ==> AboveFloor(p, Run(p, like, xs[..k]).probs)
  }

  ghost predicate AboveFloor(p: Params, probs: seq<real>) {
    forall i :: 0 <= i < |probs| ==> probs[i] > p.tiny
  }

  /** Before the first truncation and away from the floor, the per-step-normalised recursion equals
      the once-normalised sum over all 2^n histories. */
  lemma {:induction false} PosteriorIsBruteForce(p: Params, like: Predictive, xs: seq<real>, n: nat)
    requires p.Valid() && n <= |xs| && n < MAX_LEN && AwayFromFloor(p, like, xs, n)
    ensures Sum(BruteForce(p, like, xs, n)) > 0.0
    ensures Run(p, like, xs[..n]).probs == Normalised(BruteForce(p, like, xs, n))
  {
    hide Next, AllMasses, Posterior, Normalised;
    if n == 0 {
      BruteForceOfNothing(p, like, xs);
    } else {
      PosteriorIsBruteForce(p, like, xs, n - 1);
      RunIsBatch(p, like, xs[..n - 1]);
      BruteForceStep(p, like, xs, n - 1, Run(p, like, xs[..n - 1]));
      assert xs[..n][..n - 1] == xs[..n - 1];
      NoPruning(p, like, Run(p, like, xs[..n - 1]), xs[n - 1]);
    }
  }

  lemma NoPruning(p: Params, like: Predictive, b: Belief, x: real)
    requires p.Valid() && BeliefOk(b) && |b.probs| < MAX_LEN
    ensures Next(p, like, b, x).probs == Posterior(p, like, b, x)
  {}

  lemma BruteForceOfNothing(p: Params, like: Predictive, xs: seq<real>)
    requires p.Valid()
    ensures Sum(BruteForce(p, like, xs, 0)) > 0.0
    ensures Normalised(BruteForce(p, like, xs, 0)) == [1.0]
  {
    var h, g, l := p.Hazard(), 1.0 - p.Hazard(), Likelihoods(p, like, xs);
    assert AllHistories(0)[..0] == [];
    assert Masses(h, g, l, 0, []) == Zeros(1);
    assert Trailing([]) == 0 && HistoryWeight(h, g, l, []) == 1.0;
    assert BruteForce(p, like, xs, 0) == [1.0];
    SumSingle(1.0);
  }

  lemma BruteForceStep(p: Params, like: Predictive, xs: seq<real>, k: nat, b: Belief)
    requires p.Valid() && k < |xs| && k + 1 < MAX_LEN && BeliefOk(b) && IsBatch(p, xs[..k], b)
    requires AboveFloor(p, b.probs)
    requires Sum(BruteForce(p, like, xs, k)) > 0.0 && b.probs == Normalised(BruteForce(p, like, xs, k))
    ensures Sum(BruteForce(p, like, xs, k + 1)) > 0.0
    ensures Posterior(p, like, b, xs[k]) == Normalised(BruteForce(p, like, xs, k + 1))
  {
    hide Joint, AllMasses, Unnormalised;
    var m, row := BruteForce(p, like, xs, k), Row(Likelihoods(p, like, xs), k);
    var c := 1.0 / Sum(m);
    JointIsScaledMasses(p, like, xs, k, b);
    JointPositive(p, like, b, xs[k]);
    QuotientPositive(1.0, Sum(m));
    MassRecursion(p.Hazard(), 1.0 - p.Hazard(), Likelihoods(p, like, xs), k);
    NormaliseScaled(p.Hazard(), c, Times(m, row));
  }

  lemma MulAssociates(a: real, b: real, c: real)
    ensures Mul(Mul(a, b), c) == Mul(a, Mul(b, c))
  {}

  lemma ScaleTimes(c: real, m: seq<real>, row: seq<real>)
    requires |m| == |row|
    ensures Times(Scale(c, m), row) == Scale(c, Times(m, row))
  {
    forall i | 0 <= i < |m|
      ensures Mul(Mul(c, m[i]), row[i]) == Mul(c, Mul(m[i], row[i]))
    {
      MulAssociates(c, m[i], row[i]);
    }
  }

  lemma JointIsTimes(p: Params, like: Predictive, xs: seq<real>, k: nat, b: Belief)
    requires p.Valid() && k < |xs| && k + 1 < MAX_LEN && BeliefOk(b) && IsBatch(p, xs[..k], b)
    requires AboveFloor(p, b.probs)
    ensures |b.probs| == k + 1
    ensures Joint(p, like, b, xs[k]) == Times(b.probs, Row(Likelihoods(p, like, xs), k))
  {
    hide Mul, Batch;
    var row := Row(Likelihoods(p, like, xs), k);
    forall i | 0 <= i < |b.probs|
      ensures Joint(p, like, b, xs[k])[i] == Mul(b.probs[i], row[i])
    {
      assert row[i] == SegmentLikelihood(p, like, xs, k, i);
    }
  }

  /** The joint the detector forms is the brute-force one, scaled by the earlier normalisation. */
  lemma JointIsScaledMasses(p: Params, like: Predictive, xs: seq<real>, k: nat, b: Belief)
    requires p.Valid() && k < |xs| && k + 1 < MAX_LEN && BeliefOk(b) && IsBatch(p, xs[..k], b)
    requires AboveFloor(p, b.probs)
    requires Sum(BruteForce(p, like, xs, k)) > 0.0 && b.probs == Normalised(BruteForce(p, like, xs, k))
    ensures Joint(p, like, b, xs[k]) ==
            Scale(1.0 / Sum(BruteForce(p, like, xs, k)),
                  Times(BruteForce(p, like, xs, k), Row(Likelihoods(p, like, xs), k)))
  {
    var m, row := BruteForce(p, like, xs, k), Row(Likelihoods(p, like, xs), k);
    JointIsTimes(p, like, xs, k, b);
    hide BruteForce, Joint, IsBatch, BeliefOk, AboveFloor, Row;
    NormalisedIsScale(m);
    ScaleTimes(1.0 / Sum(m), m, row);
  }

  lemma MulSwap(a: real, b: real, v: real)
    ensures Mul(a, Mul(b, v)) == Mul(b, Mul(a, v))
  {}

  lemma CancelScale(c: real, a: real, b: real)
    requires c > 0.0 && b > 0.0
    ensures Mul(c, b) > 0.0 && Mul(c, a) / Mul(c, b) == a / b
  {
    ProductPositive(c, b);
    var q := a / b;
    assert q * b == a;
    assert q * (c * b) == c * a;
  }

  lemma UnnormalisedScaled(h: real, g: real, c: real, joint: seq<real>)
    ensures Unnormalised(h, g, Scale(c, joint)) == Scale(c, Unnormalised(h, g, joint))
  {
    SumScale(c, joint);
    MulSwap(h, c, Sum(joint));
    ScaleSwap(g, c, joint);
    ScaleCons(c, Mul(h, Sum(joint)), Scale(g, joint));
    hide Mul;
  }

  lemma ScaleSwap(a: real, b: real, s: seq<real>)
    ensures Scale(a, Scale(b, s)) == Scale(b, Scale(a, s))
  {
    forall i | 0 <= i < |s|
      ensures Mul(a, Mul(b, s[i])) == Mul(b, Mul(a, s[i]))
    {
      MulSwap(a, b, s[i]);
    }
    hide Mul;
  }

  lemma ScaleCons(c: real, head: real, tail: seq<real>)
    ensures Scale(c, [head] + tail) == [Mul(c, head)] + Scale(c, tail)
  {
    hide Mul;
  }

  /** Scaling the joint by a positive constant does not change the normalised result. */
  lemma NormaliseScaled(h: real, c: real, joint: seq<real>)
    requires c > 0.0 && Sum(Scale(c, joint)) > 0.0
    ensures var g := 1.0 - h;
            && Sum(Unnormalised(h, g, joint)) > 0.0 && Sum(Unnormalised(h, g, Scale(c, joint))) > 0.0
            && Normalised(Unnormalised(h, g, Scale(c, joint))) == Normalised(Unnormalised(h, g, joint))
  {
    var un := Unnormalised(h, 1.0 - h, joint);
    SumScale(c, joint);
    ProductSigns(Sum(joint), c);
    UnnormalisedTotal(h, joint);
    UnnormalisedTotal(h, Scale(c, joint));
    UnnormalisedScaled(h, 1.0 - h, c, joint);
    SumScale(c, un);
    forall i | 0 <= i < |un|
      ensures Scale(c, un)[i] / Sum(Scale(c, un)) == un[i] / Sum(un)
    {
      CancelScale(c, un[i], Sum(un));
    }
    hide Mul, Unnormalised;
  }
}
