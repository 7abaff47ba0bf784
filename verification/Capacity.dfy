/** The least-squares line through capacity history, and exactly when it is the best line. */
module Capacity {
  import opened Sums

  datatype Line = Line(slope: real, intercept: real)

  const DENOM_GUARD := 0.0000000001

  function Smaller(a: nat, b: nat): nat {
    if a <= b then a else b
  }

  /** Pairs beyond the shorter list are ignored. */
  function SumOfProducts(xs: seq<real>, ys: seq<real>): real {
    var k := Smaller(|xs|, |ys|);
    Sum(Times(xs[..k], ys[..k]))
  }

  datatype Moments = Moments(n: real, x: real, y: real, xx: real, xy: real, yy: real)

  function MomentsOf(xs: seq<real>, ys: seq<real>): Moments {
    Moments(|xs| as real, Sum(xs), Sum(ys), SumOfProducts(xs, xs), SumOfProducts(xs, ys), SumOfProducts(ys, ys))
  }

  function Denominator(q: Moments): real {
    Mul(q.n, q.xx) - Mul(q.x, q.x)
  }

  function Numerator(q: Moments): real {
    Mul(q.n, q.xy) - Mul(q.x, q.y)
  }

  function LinearRegression(xs: seq<real>, ys: seq<real>): Line {
    var q := MomentsOf(xs, ys);
    if |xs| < 2 then Line(0.0, if ys != [] then ys[0] else 0.0)
    else if -DENOM_GUARD < Denominator(q) < DENOM_GUARD then Line(0.0, q.y / q.n)
    else
      var slope := Numerator(q) / Denominator(q);
      Line(slope, (q.y - Mul(slope, q.x)) / q.n)
  }

  // ---------- the objective ----------

  function Square(a: real): real {
    Mul(a, a)
  }

  function Residual(x: real, y: real, l: Line): real {
    y - l.slope * x - l.intercept
  }

  /** The sum of squared residuals of a line. */
  function Loss(xs: seq<real>, ys: seq<real>, l: Line): real
    requires |xs| == |ys|
  {
    if xs == [] then 0.0 else
      var k := |xs| - 1;
      Loss(xs[..k], ys[..k], l) + Square(Residual(xs[k], ys[k], l))
  }

  ghost predicate Optimal(xs: seq<real>, ys: seq<real>, l: Line)
    requires |xs| == |ys|
  {
    forall other :: Loss(xs, ys, l) <= Loss(xs, ys, other)
  }

  // ---------- the loss as a quadratic in the line ----------

  function Quadratic(q: Moments, l: Line): real {
    var m, c := l.slope, l.intercept;
    q.yy + m * m * q.xx + q.n * c * c - 2.0 * m * q.xy - 2.0 * c * q.y + 2.0 * m * c * q.x
  }

  function Extended(q: Moments, x: real, y: real): Moments {
    Moments(q.n + 1.0, q.x + x, q.y + y, q.xx + Mul(x, x), q.xy + Mul(x, y), q.yy + Mul(y, y))
  }

  lemma QuadraticStep(q: Moments, l: Line, x: real, y: real)
    ensures Quadratic(Extended(q, x, y), l) == Quadratic(q, l) + Square(Residual(x, y, l))
  {}

  /** Adding a point raises the denominator by the squared distances to the new point. */
  lemma DenominatorStep(q: Moments, x: real, y: real)
    ensures Denominator(Extended(q, x, y)) ==
            Denominator(q) + Quadratic(Moments(q.n, q.x, q.x, q.xx, q.xx, q.xx), Line(0.0, x))
  {}

  lemma MulSigns(a: real, b: real)
    ensures a > 0.0 && b > 0.0 ==> Mul(a, b) > 0.0
    ensures a < 0.0 && b < 0.0 ==> Mul(a, b) > 0.0
    ensures a == 0.0 || b == 0.0 ==> Mul(a, b) == 0.0
  {}

  lemma SquareSigns(a: real, d: real)
    ensures Square(a) >= 0.0 && (Square(a) == 0.0 <==> a == 0.0)
    ensures d >= 0.0 ==> Mul(Square(a), d) >= 0.0
    ensures a != 0.0 && d > 0.0 ==> Mul(Square(a), d) > 0.0
  {
    hide Mul;
    MulSigns(a, a);
    MulSigns(Square(a), d);
  }

  lemma ProductsStep(xs: seq<real>, ys: seq<real>)
    requires |xs| == |ys| > 0
    ensures var k := |xs| - 1;
            SumOfProducts(xs, ys) == SumOfProducts(xs[..k], ys[..k]) + Mul(xs[k], ys[k])
  {
    var k := |xs| - 1;
    assert xs[..|xs|] == xs && ys[..|ys|] == ys && xs[..k][..k] == xs[..k] && ys[..k][..k] == ys[..k];
    assert Times(xs, ys)[..k] == Times(xs[..k], ys[..k]);
  }

  lemma MomentsStep(xs: seq<real>, ys: seq<real>)
    requires |xs| == |ys| > 0
    ensures var k := |xs| - 1;
            MomentsOf(xs, ys) == Extended(MomentsOf(xs[..k], ys[..k]), xs[k], ys[k])
  {
    hide SumOfProducts, Mul;
    ProductsStep(xs, xs);
    ProductsStep(xs, ys);
    ProductsStep(ys, ys);
  }

  lemma NoMoments()
    ensures MomentsOf([], []) == Moments(0.0, 0.0, 0.0, 0.0, 0.0, 0.0)
  {}

  lemma {:induction false} LossExpands(xs: seq<real>, ys: seq<real>, l: Line)
    requires |xs| == |ys|
    ensures Loss(xs, ys, l) == Quadratic(MomentsOf(xs, ys), l)
  {
    hide MomentsOf, Quadratic, Square, Residual, Extended;
    if xs == [] {
      NoMoments();
      QuadraticZero(l);
    } else {
      var k := |xs| - 1;
      LossExpands(xs[..k], ys[..k], l);
      MomentsStep(xs, ys);
      QuadraticStep(MomentsOf(xs[..k], ys[..k]), l, xs[k], ys[k]);
    }
  }

  lemma QuadraticZero(l: Line)
    ensures Quadratic(Moments(0.0, 0.0, 0.0, 0.0, 0.0, 0.0), l) == 0.0
  {}

  lemma {:induction false} LossNotNegative(xs: seq<real>, ys: seq<real>, l: Line)
    requires |xs| == |ys|
    ensures Loss(xs, ys, l) >= 0.0
  {
    hide Square, Residual;
    if xs != [] {
      var k := |xs| - 1;
      LossNotNegative(xs[..k], ys[..k], l);
      SquareSigns(Residual(xs[k], ys[k], l), 0.0);
    }
  }

  lemma {:induction false} DenominatorNotNegative(xs: seq<real>, ys: seq<real>)
    requires |xs| == |ys|
    ensures Denominator(MomentsOf(xs, ys)) >= 0.0
  {
    hide Quadratic, SumOfProducts, Extended, Loss;
    if xs == [] {
      NoMoments();
    } else {
      hide Denominator;
      var k := |xs| - 1;
      var us := xs[..k];
      DenominatorNotNegative(us, ys[..k]);
      MomentsStep(xs, ys);
      DenominatorStep(MomentsOf(us, ys[..k]), xs[k], ys[k]);
      LossExpands(us, us, Line(0.0, xs[k]));
      LossNotNegative(us, us, Line(0.0, xs[k]));
    }
  }

  // ---------- comparing lines ----------

  /** How far the line passes from the centre of mass. */
  function Offset(q: Moments, l: Line): real {
    Mul(q.n, l.intercept) + Mul(l.slope, q.x) - q.y
  }

  /** The normal equations. */
  predicate Solves(q: Moments, l: Line) {
    Offset(q, l) == 0.0 && Mul(l.slope, Denominator(q)) == Numerator(q)
  }

  /** What the slope contributes once the intercept is the best one. */
  function SlopeTerm(q: Moments, m: real): real {
    Mul(Square(m), Denominator(q)) - 2.0 * Mul(m, Numerator(q))
  }

  /** n times the quadratic, with the square completed in the intercept. */
  lemma Completed(q: Moments, l: Line)
    ensures Mul(q.n, Quadratic(q, l)) == Square(Offset(q, l)) + (Mul(q.n, q.yy) - Mul(q.y, q.y)) + SlopeTerm(q, l.slope)
  {
    hide Denominator, Numerator, Quadratic, Offset;
    CompletedSquare(q, l, Quadratic(q, l), Offset(q, l), Denominator(q), Numerator(q));
  }

  lemma CompletedSquare(q: Moments, l: Line, value: real, off: real, d: real, num: real)
    requires value == Quadratic(q, l) && off == Offset(q, l) && d == Denominator(q) && num == Numerator(q)
    ensures q.n * value == off * off + (q.n * q.yy - q.y * q.y) + ((l.slope * l.slope) * d - 2.0 * (l.slope * num))
  {}

  lemma SlopeExcess(d: real, num: real, m: real, best: real)
    requires Mul(best, d) == num
    ensures (Mul(Square(m), d) - 2.0 * Mul(m, num)) - (Mul(Square(best), d) - 2.0 * Mul(best, num)) ==
            Mul(Square(m - best), d)
  {
    assert m * num == m * best * d && best * num == best * best * d;
  }

  lemma Cancel(n: real, a: real, b: real)
    requires n > 0.0
    ensures Mul(n, a) >= Mul(n, b) <==> a >= b
    ensures Mul(n, a) == Mul(n, b) <==> a == b
  {}

  /** How much worse any line is than one that solves the normal equations; with a positive
      denominator no other line does as well. */
  lemma SolutionIsBest(q: Moments, best: Line, l: Line)
    requires q.n > 0.0 && Denominator(q) >= 0.0 && Solves(q, best)
    ensures Mul(q.n, Quadratic(q, l)) - Mul(q.n, Quadratic(q, best)) ==
            Square(Offset(q, l)) + Mul(Square(l.slope - best.slope), Denominator(q))
    ensures Quadratic(q, l) >= Quadratic(q, best)
    ensures Denominator(q) > 0.0 && Quadratic(q, l) == Quadratic(q, best) ==> l == best
  {
    hide Quadratic, Mul, Square, Denominator, Numerator;
    Completed(q, l);
    Completed(q, best);
    SlopeExcess(Denominator(q), Numerator(q), l.slope, best.slope);
    SquareSigns(Offset(q, l), 0.0);
    SquareSigns(Offset(q, best), 0.0);
    SquareSigns(l.slope - best.slope, Denominator(q));
    Cancel(q.n, Quadratic(q, l), Quadratic(q, best));
    Cancel(q.n, l.intercept, best.intercept);
  }

  lemma QuotientTimes(a: real, b: real)
    requires b != 0.0
    ensures Mul(a / b, b) == a && Mul(b, a / b) == a
  {}

  lemma SlopedSolves(q: Moments)
    requires q.n > 0.0 && Denominator(q) != 0.0
    ensures var slope := Numerator(q) / Denominator(q);
            Solves(q, Line(slope, (q.y - Mul(slope, q.x)) / q.n))
  {
    hide Mul, Denominator, Numerator;
    var slope := Numerator(q) / Denominator(q);
    QuotientTimes(Numerator(q), Denominator(q));
    QuotientTimes(q.y - Mul(slope, q.x), q.n);
  }

  lemma FlatSolves(q: Moments)
    requires q.n > 0.0
    ensures Solves(q, Line(0.0, q.y / q.n)) <==> Numerator(q) == 0.0
    ensures Offset(q, Line(0.0, q.y / q.n)) == 0.0
  {
    hide Denominator, Numerator;
    QuotientTimes(q.y, q.n);
    assert Mul(0.0, q.x) == 0.0 && Mul(0.0, Denominator(q)) == 0.0;
  }

  /** Above the guard the result is the one line of least squared error. */
  lemma RegressionIsBest(xs: seq<real>, ys: seq<real>, l: Line)
    requires |xs| == |ys| && Denominator(MomentsOf(xs, ys)) >= DENOM_GUARD
    ensures Loss(xs, ys, LinearRegression(xs, ys)) <= Loss(xs, ys, l)
    ensures Loss(xs, ys, LinearRegression(xs, ys)) == Loss(xs, ys, l) ==> l == LinearRegression(xs, ys)
  {
    FewPoints(xs, ys);
    hide SumOfProducts, Loss, Denominator, Numerator, Quadratic, Solves, Mul;
    var q, best := MomentsOf(xs, ys), LinearRegression(xs, ys);
    SlopedSolves(q);
    SolutionIsBest(q, best, l);
    LossExpands(xs, ys, l);
    LossExpands(xs, ys, best);
  }

  lemma FewPoints(xs: seq<real>, ys: seq<real>)
    requires |xs| == |ys|
    ensures |xs| < 2 ==> Denominator(MomentsOf(xs, ys)) == 0.0 && Numerator(MomentsOf(xs, ys)) == 0.0
    ensures |xs| == 1 ==> MomentsOf(xs, ys).y == ys[0]
  {
    hide SumOfProducts, MomentsOf, Denominator, Numerator, Extended;
    NoMoments();
    if |xs| == 1 {
      MomentsStep(xs, ys);
      assert xs[..0] == [] && ys[..0] == [];
      OnePoint(xs[0], ys[0]);
    } else if |xs| == 0 {
      OnePoint(0.0, 0.0);
    }
  }

  lemma OnePoint(x: real, y: real)
    ensures var none := Moments(0.0, 0.0, 0.0, 0.0, 0.0, 0.0);
            var one := Extended(none, x, y);
            && one.y == y && Denominator(one) == Numerator(one) == 0.0
            && Denominator(none) == Numerator(none) == 0.0
  {}

  /** Below the guard the result is the mean. */
  lemma GuardedIsMean(xs: seq<real>, ys: seq<real>)
    requires |xs| == |ys| > 0 && Denominator(MomentsOf(xs, ys)) < DENOM_GUARD
    ensures LinearRegression(xs, ys) == Line(0.0, MomentsOf(xs, ys).y / MomentsOf(xs, ys).n)
  {
    hide SumOfProducts, Denominator, Numerator;
    DenominatorNotNegative(xs, ys);
    FewPoints(xs, ys);
  }

  lemma FlatTerm(q: Moments)
    ensures SlopeTerm(q, 0.0) == 0.0
  {
    hide Denominator, Numerator;
  }

  /** Below the guard the result is the best constant line. */
  lemma GuardedIsBestConstant(xs: seq<real>, ys: seq<real>, c: real)
    requires |xs| == |ys| && Denominator(MomentsOf(xs, ys)) < DENOM_GUARD
    ensures LinearRegression(xs, ys).slope == 0.0
    ensures Loss(xs, ys, LinearRegression(xs, ys)) <= Loss(xs, ys, Line(0.0, c))
  {
    if xs != [] {
      hide SumOfProducts, Loss, Denominator, Numerator, Quadratic, Solves, Mul, Square, SlopeTerm, LinearRegression;
      var q, best := MomentsOf(xs, ys), LinearRegression(xs, ys);
      GuardedIsMean(xs, ys);
      FlatSolves(q);
      Flatter(q, best, Line(0.0, c));
      LossExpands(xs, ys, Line(0.0, c));
      LossExpands(xs, ys, best);
    }
  }

  /** Among lines whose slope terms are ordered, the one through the centre of mass does better. */
  lemma Flatter(q: Moments, best: Line, l: Line)
    requires q.n > 0.0 && Offset(q, best) == 0.0 && SlopeTerm(q, best.slope) <= SlopeTerm(q, l.slope)
    ensures Quadratic(q, best) <= Quadratic(q, l)
    ensures Offset(q, l) == 0.0 && SlopeTerm(q, best.slope) < SlopeTerm(q, l.slope) ==>
              Quadratic(q, best) < Quadratic(q, l)
  {
    hide Quadratic, Mul, Square, SlopeTerm, Offset;
    Completed(q, best);
    Completed(q, l);
    SquareSigns(Offset(q, best), 0.0);
    SquareSigns(Offset(q, l), 0.0);
    Cancel(q.n, Quadratic(q, l), Quadratic(q, best));
  }

  /** A slope that beats the flat line when the numerator is not zero. */
  function BetterSlope(q: Moments): real {
    if Denominator(q) > 0.0 then Numerator(q) / Denominator(q) else Numerator(q)
  }

  lemma BetterSlopeWins(q: Moments)
    requires Denominator(q) >= 0.0 && Numerator(q) != 0.0
    ensures SlopeTerm(q, BetterSlope(q)) < 0.0
  {
    var d, num, m := Denominator(q), Numerator(q), BetterSlope(q);
    hide Denominator, Numerator;
    if d > 0.0 {
      QuotientTimes(num, d);
      SlopeExcess(d, num, 0.0, m);
      assert m != 0.0;
      SquareSigns(0.0 - m, d);
    } else {
      SquareSigns(num, 1.0);
    }
  }

  /** Below the guard, a sloped line does better unless the numerator vanishes. */
  lemma GuardedMisses(xs: seq<real>, ys: seq<real>) returns (better: Line)
    requires |xs| == |ys| && Denominator(MomentsOf(xs, ys)) < DENOM_GUARD && Numerator(MomentsOf(xs, ys)) != 0.0
    ensures Loss(xs, ys, better) < Loss(xs, ys, LinearRegression(xs, ys))
  {
    FewPoints(xs, ys);
    hide SumOfProducts, Loss, Denominator, Numerator, Quadratic, Solves, Mul, Square, SlopeTerm, BetterSlope,
      LinearRegression;
    var q, mean := MomentsOf(xs, ys), LinearRegression(xs, ys);
    GuardedIsMean(xs, ys);
    DenominatorNotNegative(xs, ys);
    var m := BetterSlope(q);
    better := Line(m, (q.y - Mul(m, q.x)) / q.n);
    QuotientTimes(q.y - Mul(m, q.x), q.n);
    BetterSlopeWins(q);
    FlatTerm(q);
    FlatSolves(q);
    Flatter(q, better, mean);
    LossExpands(xs, ys, better);
    LossExpands(xs, ys, mean);
  }

  /** The result is a best line exactly when the denominator reaches the guard or the data has no
      linear trend to miss. */
  lemma OptimalIff(xs: seq<real>, ys: seq<real>)
    requires |xs| == |ys|
    ensures Optimal(xs, ys, LinearRegression(xs, ys)) <==>
            Denominator(MomentsOf(xs, ys)) >= DENOM_GUARD || Numerator(MomentsOf(xs, ys)) == 0.0
  {
    hide SumOfProducts, Denominator, Numerator, Quadratic, Solves, LinearRegression;
    var q, best := MomentsOf(xs, ys), LinearRegression(xs, ys);
    if Denominator(q) >= DENOM_GUARD {
      forall l ensures Loss(xs, ys, best) <= Loss(xs, ys, l) { RegressionIsBest(xs, ys, l); }
    } else if Numerator(q) != 0.0 {
      var better := GuardedMisses(xs, ys);
      assert Loss(xs, ys, better) < Loss(xs, ys, best);
    } else if xs != [] {
      forall l ensures Loss(xs, ys, best) <= Loss(xs, ys, l) { TrendlessIsBest(xs, ys, l); }
    }
  }

  lemma TrendlessIsBest(xs: seq<real>, ys: seq<real>, l: Line)
    requires |xs| == |ys| > 0
    requires Denominator(MomentsOf(xs, ys)) < DENOM_GUARD && Numerator(MomentsOf(xs, ys)) == 0.0
    ensures Loss(xs, ys, LinearRegression(xs, ys)) <= Loss(xs, ys, l)
  {
    hide SumOfProducts, Loss, Denominator, Numerator, Quadratic, Solves, Mul, LinearRegression;
    var q, best := MomentsOf(xs, ys), LinearRegression(xs, ys);
    GuardedIsMean(xs, ys);
    DenominatorNotNegative(xs, ys);
    FlatSolves(q);
    SolutionIsBest(q, best, l);
    LossExpands(xs, ys, l);
    LossExpands(xs, ys, best);
  }

  lemma FirstPoint(x: real, y: real)
    ensures Extended(Moments(0.0, 0.0, 0.0, 0.0, 0.0, 0.0), x, y) ==
            Moments(1.0, x, y, Mul(x, x), Mul(x, y), Mul(y, y))
  {
    hide Mul;
  }

  lemma MulSimple(x: real)
    ensures Mul(0.0, x) == 0.0 && Mul(1.0, x) == x && Mul(x, 1.0) == x && Mul(2.0, x) == x + x
  {}

  lemma SecondPoint(x: real)
    ensures Extended(Moments(1.0, 0.0, 0.0, 0.0, 0.0, 0.0), x, 1.0) == Moments(2.0, x, 1.0, Mul(x, x), x, 1.0)
  {
    hide Mul;
    MulSimple(x);
    MulSimple(1.0);
  }

  lemma TwoMoments(x: real)
    ensures var q := Moments(2.0, x, 1.0, Mul(x, x), x, 1.0);
            Denominator(q) == Mul(x, x) && Numerator(q) == x
  {
    hide Mul;
    MulSimple(x);
    MulSimple(Mul(x, x));
  }

  lemma TwoPoints(x: real)
    ensures var q := Extended(Extended(Moments(0.0, 0.0, 0.0, 0.0, 0.0, 0.0), 0.0, 0.0), x, 1.0);
            q.n == 2.0 && q.y == 1.0 && Denominator(q) == Mul(x, x) && Numerator(q) == x
  {
    hide *;
    FirstPoint(0.0, 0.0);
    MulSimple(0.0);
    SecondPoint(x);
    TwoMoments(x);
  }

  lemma MomentsOfTwo(x: real)
    ensures MomentsOf([0.0, x], [0.0, 1.0]) ==
            Extended(Extended(Moments(0.0, 0.0, 0.0, 0.0, 0.0, 0.0), 0.0, 0.0), x, 1.0)
  {
    hide MomentsOf, Mul;
    NoMoments();
    assert [0.0, x][..1] == [0.0] && [0.0, 1.0][..1] == [0.0] && [0.0][..0] == [];
    MomentsStep([0.0, x], [0.0, 1.0]);
    MomentsStep([0.0], [0.0]);
    hide Extended;
  }

  lemma Micro()
    ensures 0.0 < Mul(0.000001, 0.000001) < DENOM_GUARD
  {}

  /** Two readings a microday apart: the returned line is flat, though a steep line fits exactly. */
  lemma GuardMissesATrend()
    ensures var xs, ys := [0.0, 0.000001], [0.0, 1.0];
            LinearRegression(xs, ys) == Line(0.0, 0.5) && !Optimal(xs, ys, LinearRegression(xs, ys))
  {
    hide *;
    MomentsOfTwo(0.000001);
    TwoPoints(0.000001);
    Micro();
    GuardedIsMean([0.0, 0.000001], [0.0, 1.0]);
    OptimalIff([0.0, 0.000001], [0.0, 1.0]);
  }
}
