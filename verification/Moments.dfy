/** Means, variances and correlations from accumulated sums. */
module Moments {
  import opened RealPowers
  import opened Histogram
  import opened Simulation

  function Mean(x: seq<real>): real
    requires x != []
  {
    Sum(x) / |x| as real
  }

  /** The mean of the squares less the square of the mean. */
  function Variance(x: seq<real>): real
    requires x != []
  {
    Covariance(x, x)
  }

  function Covariance(x: seq<real>, y: seq<real>): real
    requires x != [] && |x| == |y|
  {
    Dot(x, y) / |x| as real - Mean(x) * Mean(y)
  }

  // ----- a sum of squares

  /** The sum of (a x + b y + c)^2 over all places, multiplied out. */
  function Squares(n: real, sx: real, sy: real, xx: real, xy: real, yy: real, a: real, b: real, c: real): real {
    (a * a) * xx + (b * b) * yy + (c * c) * n + (2.0 * a * b) * xy + (2.0 * a * c) * sx + (2.0 * b * c) * sy
  }

  lemma {:induction false} OneMoreSquare(n: real, sx: real, sy: real, xx: real, xy: real, yy: real,
                                         a: real, b: real, c: real, x: real, y: real)
    ensures Squares(n + 1.0, sx + x, sy + y, xx + x * x, xy + x * y, yy + y * y, a, b, c)
            >= Squares(n, sx, sy, xx, xy, yy, a, b, c)
  {
    SquareNotNegative(a * x + b * y + c);
    OneSquare(a, b, c, x, y);
    SquaresAdd(n, sx, sy, xx, xy, yy, 1.0, x, y, x * x, x * y, y * y, a, b, c);
  }

  lemma {:induction false} OneSquare(a: real, b: real, c: real, x: real, y: real)
    ensures Squares(1.0, x, y, x * x, x * y, y * y, a, b, c) == (a * x + b * y + c) * (a * x + b * y + c)
  {
  }

  lemma {:induction false} SquaresAdd(n: real, sx: real, sy: real, xx: real, xy: real, yy: real,
                                      m: real, tx: real, ty: real, txx: real, txy: real, tyy: real,
                                      a: real, b: real, c: real)
    ensures Squares(n + m, sx + tx, sy + ty, xx + txx, xy + txy, yy + tyy, a, b, c)
            == Squares(n, sx, sy, xx, xy, yy, a, b, c) + Squares(m, tx, ty, txx, txy, tyy, a, b, c)
  {
    Distribute(a * a, xx, txx);
    Distribute(b * b, yy, tyy);
    Distribute(c * c, n, m);
    Distribute(2.0 * a * b, xy, txy);
    Distribute(2.0 * a * c, sx, tx);
    Distribute(2.0 * b * c, sy, ty);
  }

  lemma {:induction false} Distribute(k: real, u: real, v: real)
    ensures k * (u + v) == k * u + k * v
  {
  }

  lemma {:induction false} StillNotNegative(n: real, sx: real, sy: real, xx: real, xy: real, yy: real,
                                            a: real, b: real, c: real, x: real, y: real,
                                            m: real, tx: real, ty: real, txx: real, txy: real, tyy: real)
    requires Squares(n, sx, sy, xx, xy, yy, a, b, c) >= 0.0
    requires m == n + 1.0 && tx == sx + x && ty == sy + y && txx == xx + x * x && txy == xy + x * y && tyy == yy + y * y
    ensures Squares(m, tx, ty, txx, txy, tyy, a, b, c) >= 0.0
  {
    hide Squares;
    OneMoreSquare(n, sx, sy, xx, xy, yy, a, b, c, x, y);
  }

  lemma {:induction false} SquareNotNegative(x: real)
    ensures x * x >= 0.0
  {
  }

  lemma {:induction false} SquaresNotNegative(x: seq<real>, y: seq<real>, a: real, b: real, c: real)
    requires |x| == |y|
    ensures Squares(|x| as real, Sum(x), Sum(y), Dot(x, x), Dot(x, y), Dot(y, y), a, b, c) >= 0.0
    decreases |x|
  {
    hide Squares, Dot;
    if x == [] {
      NoSquares(a, b, c);
      NoProducts(x, y);
    } else {
      var k := |x| - 1;
      var u, v := x[..k], y[..k];
      SquaresNotNegative(u, v, a, b, c);
      LastProduct(x, x);
      LastProduct(x, y);
      LastProduct(y, y);
      StillNotNegative(k as real, Sum(u), Sum(v), Dot(u, u), Dot(u, v), Dot(v, v), a, b, c, x[k], y[k],
                       |x| as real, Sum(x), Sum(y), Dot(x, x), Dot(x, y), Dot(y, y));
    }
  }

  lemma {:induction false} NoSquares(a: real, b: real, c: real)
    ensures Squares(0.0, 0.0, 0.0, 0.0, 0.0, 0.0, a, b, c) == 0.0
  {
  }

  lemma {:induction false} NoProducts(x: seq<real>, y: seq<real>)
    requires |x| == |y| == 0
    ensures Dot(x, x) == Dot(x, y) == Dot(y, y) == Sum(x) == Sum(y) == 0.0
  {
  }

  lemma {:induction false} LastProduct(x: seq<real>, y: seq<real>)
    requires |x| == |y| && x != []
    ensures var k := |x| - 1; Dot(x, y) == Dot(x[..k], y[..k]) + x[k] * y[k]
  {
    var k := |x| - 1;
    var p, q := Products(x, y), Products(x[..k], y[..k]);
    forall i | 0 <= i < k ensures p[..k][i] == q[i] {
      assert x[..k][i] == x[i] && y[..k][i] == y[i];
    }
    assert p[..k] == q && p[k] == x[k] * y[k];
  }

  // ----- the quadratic form of variances and covariance

  function Form(vx: real, vy: real, cov: real, a: real, b: real): real {
    (a * a) * vx + (b * b) * vy + (2.0 * a * b) * cov
  }

  /** With c chosen so that the mean of a x + b y + c is zero, the sum of squares is n times this form. */
  lemma {:induction false} Centred(n: real, sx: real, sy: real, xx: real, xy: real, yy: real, a: real, b: real,
                                   c: real, mx: real, my: real, vx: real, vy: real, cov: real)
    requires n > 0.0 && mx == sx / n && my == sy / n && c == -(a * mx + b * my)
    requires vx == xx / n - mx * mx && vy == yy / n - my * my && cov == xy / n - mx * my
    ensures Squares(n, sx, sy, xx, xy, yy, a, b, c) == n * Form(vx, vy, cov, a, b)
  {
    var x2, y2, m := xx / n, yy / n, xy / n;
    assert sx == n * mx && sy == n * my && xx == n * x2 && yy == n * y2 && xy == n * m;
    CentredAt(n, mx, my, x2, m, y2, a, b);
  }

  lemma {:induction false} CentredAt(n: real, mx: real, my: real, x2: real, m: real, y2: real, a: real, b: real)
    ensures Squares(n, n * mx, n * my, n * x2, n * m, n * y2, a, b, -(a * mx + b * my))
            == n * Form(x2 - mx * mx, y2 - my * my, m - mx * my, a, b)
  {
  }

  lemma {:induction false} FormNotNegative(x: seq<real>, y: seq<real>, a: real, b: real)
    requires x != [] && |x| == |y|
    ensures Form(Variance(x), Variance(y), Covariance(x, y), a, b) >= 0.0
  {
    hide Squares, Form, Sum, Dot;
    var n, mx, my := |x| as real, Mean(x), Mean(y);
    var c := -(a * mx + b * my);
    SquaresNotNegative(x, y, a, b, c);
    Centred(n, Sum(x), Sum(y), Dot(x, x), Dot(x, y), Dot(y, y), a, b, c, mx, my,
            Variance(x), Variance(y), Covariance(x, y));
    SignOfFactor(n, Form(Variance(x), Variance(y), Covariance(x, y), a, b));
  }

  lemma {:induction false} SignOfFactor(n: real, x: real)
    requires n > 0.0 && n * x >= 0.0
    ensures x >= 0.0
  {
    if x < 0.0 {
      MulPositive(n, -x);
    }
  }

  /** A form that is never negative has no negative square terms, and a mixed term that they bound. */
  lemma {:induction false} FormBound(vx: real, vy: real, cov: real)
    requires Form(vx, vy, cov, 1.0, 0.0) >= 0.0 && Form(vx, vy, cov, 0.0, 1.0) >= 0.0
    requires Form(vx, vy, cov, vy, -cov) >= 0.0 && Form(vx, vy, cov, -cov, vx + 1.0) >= 0.0
    ensures vx >= 0.0 && vy >= 0.0 && cov * cov <= vx * vy
  {
    assert vx >= 0.0 && vy >= 0.0;
    if vy > 0.0 {
      var d := vx * vy - cov * cov;
      assert Form(vx, vy, cov, vy, -cov) == vy * d;
      SignOfFactor(vy, d);
    } else {
      assert Form(vx, 0.0, cov, -cov, vx + 1.0) == -((cov * cov) * (vx + 2.0));
      SquareNotNegative(cov);
      var q := cov * cov;
      if q > 0.0 {
        MulPositive(q, vx + 2.0);
      }
    }
  }

  /** No variance is negative, so that cutting it off at zero changes nothing; and the square of a covariance
      is at most the product of the variances. */
  lemma {:induction false} CovarianceBound(x: seq<real>, y: seq<real>)
    requires x != [] && |x| == |y|
    ensures Variance(x) >= 0.0 && Max(0.0, Variance(x)) == Variance(x)
    ensures Covariance(x, y) * Covariance(x, y) <= Variance(x) * Variance(y)
  {
    hide Form, Variance, Covariance;
    var vx, vy, cov := Variance(x), Variance(y), Covariance(x, y);
    FormNotNegative(x, y, 1.0, 0.0);
    FormNotNegative(x, y, 0.0, 1.0);
    FormNotNegative(x, y, vy, -cov);
    FormNotNegative(x, y, -cov, vx + 1.0);
    FormBound(vx, vy, cov);
  }

  /** Whatever was accumulated, the correlation lies between -1 and 1. */
  lemma {:induction false} CorrelationInRange(x: seq<real>, y: seq<real>, sx: real, sy: real)
    requires x != [] && |x| == |y|
    requires sx > 0.0 && sx * sx == Max(0.0, Variance(x)) && sy > 0.0 && sy * sy == Max(0.0, Variance(y))
    ensures sx * sy > 0.0 && -1.0 <= Covariance(x, y) / (sx * sy) <= 1.0
  {
    CovarianceBound(x, y);
    CovarianceBound(y, x);
    hide Variance, Covariance;
    MulPositive(sx, sy);
    assert (sx * sx) * (sy * sy) == (sx * sy) * (sx * sy);
    QuotientInRange(Covariance(x, y), sx * sy);
  }

  lemma {:induction false} QuotientInRange(c: real, s: real)
    requires s > 0.0 && c * c <= s * s
    ensures -1.0 <= c / s <= 1.0
  {
    var q := c / s;
    assert q * s == c;
    if c > s {
      MulStrict(c, s, c);
      MulStrict(s, s, c);
    } else if c < -s {
      MulStrict(-c, s, -c);
      MulStrict(s, s, -c);
    }
    if q > 1.0 {
      MulStrict(s, 1.0, q);
    } else if q < -1.0 {
      MulStrict(s, q, -1.0);
    }
  }

  // ----- what the markets contribute

  lemma {:induction false} SumOfPlus(a: seq<real>, b: seq<real>)
    requires |a| == |b|
    ensures Sum(Plus(a, b)) == Sum(a) + Sum(b)
    decreases |a|
  {
    if a != [] {
      var k := |a| - 1;
      SumOfPlus(a[..k], b[..k]);
      assert Plus(a, b)[..k] == Plus(a[..k], b[..k]);
    }
  }

  lemma {:induction false} SumOfZeros(z: seq<real>)
    requires forall i :: 0 <= i < |z| ==> z[i] == 0.0
    ensures Sum(z) == 0.0
    decreases |z|
  {
    if z != [] {
      SumOfZeros(z[..|z| - 1]);
    }
  }

  /** The sums of the markets add up to the sum of the portfolio. */
  lemma {:induction false} MarketsAddUp(draws: seq<Draw>, dims: Dims, s: nat)
    requires AllFit(draws, dims) && s < dims.strategies
    ensures Sum(Markets(draws, dims, s)) == Sum(Portfolio(draws, dims, s))
    decreases |draws|
  {
    hide Sum;
    if draws == [] {
      NoDraws(dims, s);
    } else {
      var k := |draws| - 1;
      var front, last := draws[..k], draws[k..];
      assert draws == front + last;
      MarketsAddUp(front, dims, s);
      MarketsJoin(front, last, dims, s);
      ColumnsJoin(front, last, dims, s);
      SumOfPlus(Markets(front, dims, s), Markets(last, dims, s));
      SumJoins(Portfolio(front, dims, s), Portfolio(last, dims, s));
      OneDraw(last, dims, s);
    }
  }

  lemma {:induction false} NoDraws(dims: Dims, s: nat)
    requires AllFit([], dims) && s < dims.strategies
    ensures Sum(Markets([], dims, s)) == Sum(Portfolio([], dims, s)) == 0.0
  {
    SumOfZeros(Markets([], dims, s));
  }

  lemma {:induction false} OneDraw(draws: seq<Draw>, dims: Dims, s: nat)
    requires AllFit(draws, dims) && s < dims.strategies && |draws| == 1
    ensures Sum(Markets(draws, dims, s)) == Sum(Portfolio(draws, dims, s))
  {
    var cases := draws[0].trades[s].cases;
    assert Fits(draws[0], dims);
    SumOfOne(Sum(cases));
    forall c | 0 <= c < dims.markets ensures Markets(draws, dims, s)[c] == cases[c] {
      assert Market(draws, dims, s, c) == [cases[c]];
      SumOfOne(cases[c]);
    }
    assert Markets(draws, dims, s) == cases;
    assert Portfolio(draws, dims, s) == [Sum(cases)];
  }

  lemma {:induction false} SumOfOne(x: real)
    ensures Sum([x]) == x
  {
    assert [x][..0] == [];
  }

  // ----- the report

  /** The variance of n numbers from their sum and the sum of their squares; and what the report makes of it,
      which is cut off at zero. */
  function RawVariance(n: real, sum: real, sumSq: real): real
    requires n > 0.0
  {
    sumSq / n - (sum / n) * (sum / n)
  }

  function ReportedVariance(n: real, sum: real, sumSq: real): real
    requires n > 0.0
  {
    Max(0.0, RawVariance(n, sum, sumSq))
  }

  /** The correlation that the report derives from the sums and the standard deviations. */
  function Correlation(n: real, sx: real, sy: real, xy: real, xStd: real, yStd: real): real
    requires n > 0.0 && xStd > 0.0 && yStd > 0.0
  {
    MulPositive(xStd, yStd);
    (xy / n - (sy / n) * (sx / n)) / (xStd * yStd)
  }

  /** From the accumulated totals of a horizon: the means of the markets add up to the mean of the portfolio, no
      variance had to be cut off, and every correlation of a factor with a strategy is in range. */
  lemma {:induction false} ReportInRange(draws: seq<Draw>, dims: Dims, bins: seq<real>, s: nat, f: nat,
                                         xStd: real, pStd: real)
    requires draws != [] && AllFit(draws, dims) && s < dims.strategies && f < dims.factors && |bins| >= 2
    requires var n, r, w := |draws| as real, ScoreOf(draws, dims, s, bins), WeatherOf(draws, dims);
             && xStd > 0.0 && xStd * xStd == ReportedVariance(n, w.sums[f], w.sumsSq[f])
             && pStd > 0.0 && pStd * pStd == ReportedVariance(n, r.sum, r.sumSq)
    ensures var n, r, w := |draws| as real, ScoreOf(draws, dims, s, bins), WeatherOf(draws, dims);
            && Sum(r.markets) == r.sum
            && ReportedVariance(n, r.sum, r.sumSq) == RawVariance(n, r.sum, r.sumSq)
            && ReportedVariance(n, w.sums[f], w.sumsSq[f]) == RawVariance(n, w.sums[f], w.sumsSq[f])
            && -1.0 <= Correlation(n, w.sums[f], r.sum, r.exposures[f], xStd, pStd) <= 1.0
  {
    hide *;
    TotalsAre(draws, dims, bins, s, f);
    MarketsAddUp(draws, dims, s);
    ColumnsInRange(Factor(draws, dims, f), Portfolio(draws, dims, s), xStd, pStd);
  }

  lemma {:induction false} TotalsAre(draws: seq<Draw>, dims: Dims, bins: seq<real>, s: nat, f: nat)
    requires AllFit(draws, dims) && s < dims.strategies && f < dims.factors && |bins| >= 2
    ensures var x, p := Factor(draws, dims, f), Portfolio(draws, dims, s);
            var r, w := ScoreOf(draws, dims, s, bins), WeatherOf(draws, dims);
            && r.sum == Sum(p) && r.sumSq == Dot(p, p) && r.exposures[f] == Dot(x, p)
            && r.markets == Markets(draws, dims, s) && w.sums[f] == Sum(x) && w.sumsSq[f] == Dot(x, x)
  {
    hide Sum, Dot, AllFit, Portfolio, Factor, Markets, Counts, CountIf, Active;
  }

  lemma {:induction false} ColumnsInRange(x: seq<real>, p: seq<real>, xStd: real, pStd: real)
    requires x != [] && |x| == |p|
    requires xStd > 0.0 && xStd * xStd == ReportedVariance(|x| as real, Sum(x), Dot(x, x))
    requires pStd > 0.0 && pStd * pStd == ReportedVariance(|x| as real, Sum(p), Dot(p, p))
    ensures ReportedVariance(|x| as real, Sum(x), Dot(x, x)) == RawVariance(|x| as real, Sum(x), Dot(x, x))
    ensures ReportedVariance(|x| as real, Sum(p), Dot(p, p)) == RawVariance(|x| as real, Sum(p), Dot(p, p))
    ensures -1.0 <= Correlation(|x| as real, Sum(x), Sum(p), Dot(x, p), xStd, pStd) <= 1.0
  {
    hide *;
    ReportedIs(x);
    ReportedIs(p);
    CovarianceBound(x, p);
    CovarianceBound(p, x);
    CorrelationIs(x, p, xStd, pStd);
    CorrelationInRange(x, p, xStd, pStd);
  }

  lemma {:induction false} ReportedIs(x: seq<real>)
    requires x != []
    ensures var n := |x| as real;
            && RawVariance(n, Sum(x), Dot(x, x)) == Variance(x)
            && ReportedVariance(n, Sum(x), Dot(x, x)) == Max(0.0, Variance(x))
  {
    hide Sum, Dot, Max;
  }

  lemma {:induction false} CorrelationIs(x: seq<real>, y: seq<real>, xStd: real, yStd: real)
    requires x != [] && |x| == |y| && xStd > 0.0 && yStd > 0.0
    ensures xStd * yStd > 0.0
    ensures Correlation(|x| as real, Sum(x), Sum(y), Dot(x, y), xStd, yStd) == Covariance(x, y) / (xStd * yStd)
  {
    hide Sum, Dot;
    MulPositive(xStd, yStd);
    assert Mean(y) * Mean(x) == Mean(x) * Mean(y);
  }
}
