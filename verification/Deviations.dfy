/** What the totals of the simulation mean: path by path, and as deviations from the mean. */
module Deviations {
  import opened RealPowers
  import opened Histogram
  import opened Simulation
  import opened Moments

  // ----- one path

  lemma {:induction false} SumIsOne(x: real)
    ensures Sum([x]) == x && Sum([]) == 0.0
  {
    assert [x][..0] == [];
  }

  lemma {:induction false} DotIsOne(x: real, y: real)
    ensures Dot([x], [y]) == x * y
  {
    var p := Products([x], [y]);
    var xy := p[0];
    assert p == [xy];
    assert xy == [x][0] * [y][0];
    SumIsOne(xy);
  }

  lemma {:induction false} CountIsOne(p: real -> bool, x: real)
    ensures CountIf(p, [x]) == if p(x) then 1 else 0
  {
    assert [x][..0] == [];
  }

  lemma {:induction false} ColumnsOfOne(d: Draw, dims: Dims, s: nat, f: nat, c: nat)
    requires Fits(d, dims) && s < dims.strategies
    ensures AllFit([d], dims)
    ensures Portfolio([d], dims, s) == [Sum(d.trades[s].cases)] && Active([d], dims, s) == [d.trades[s].active as real]
    ensures f < dims.factors ==> Factor([d], dims, f) == [d.overlay[f]]
    ensures c < dims.markets ==> Market([d], dims, s, c) == [d.trades[s].cases[c]]
  {
    hide Sum;
  }

  /** One path counts with its result, the square of it, one loss if the result is negative, its open positions,
      the bin of the result, the result of each market and the product of each factor with the result. */
  lemma {:induction false} OnePathScores(d: Draw, dims: Dims, s: nat, bins: seq<real>, b: nat, f: nat, c: nat)
    requires Fits(d, dims) && s < dims.strategies && Edges(bins) && b < |bins| - 1
    ensures AllFit([d], dims)
    ensures var total, r := Sum(d.trades[s].cases), ScoreOf([d], dims, s, bins);
            && r.sum == total && r.sumSq == total * total && r.losses == (if total < 0.0 then 1 else 0)
            && r.active == d.trades[s].active as real
            && (bins[b] <= total < bins[b + 1] ==> r.hist == seq(|bins| - 1, _ => 0)[b := 1])
            && (c < dims.markets ==> r.markets[c] == d.trades[s].cases[c])
            && (f < dims.factors ==> r.exposures[f] == d.overlay[f] * total)
    ensures f < dims.factors ==> var w := WeatherOf([d], dims);
                                 w.sums[f] == d.overlay[f] && w.sumsSq[f] == d.overlay[f] * d.overlay[f]
  {
    ColumnsOfOne(d, dims, s, f, c);
    var total := Sum(d.trades[s].cases);
    hide Sum, Dot, CountIf, Portfolio, Active, Factor, Market, AllFit, Fits, BinOf, Edges;
    SumIsOne(total);
    SumIsOne(d.trades[s].active as real);
    DotIsOne(total, total);
    CountIsOne(v => v < 0.0, total);
    HistOfOne(bins, total, b);
    if c < dims.markets {
      SumIsOne(d.trades[s].cases[c]);
    }
    if f < dims.factors {
      SumIsOne(d.overlay[f]);
      DotIsOne(d.overlay[f], total);
      DotIsOne(d.overlay[f], d.overlay[f]);
    }
  }

  lemma {:induction false} HistOfOne(bins: seq<real>, v: real, b: nat)
    requires Edges(bins) && b < |bins| - 1
    ensures bins[b] <= v < bins[b + 1] ==> Counts([v], bins) == seq(|bins| - 1, _ => 0)[b := 1]
  {
    if bins[b] <= v < bins[b + 1] {
      InBin(bins, v, b);
      hide BinOf, CountIf;
      forall i | 0 <= i < |bins| - 1 ensures Counts([v], bins)[i] == seq(|bins| - 1, _ => 0)[b := 1][i] {
        CountIsOne(w => BinOf(bins, w) == i, v);
      }
    }
  }

  lemma {:induction false} InBin(bins: seq<real>, v: real, b: nat)
    requires Edges(bins) && b < |bins| - 1 && bins[b] <= v < bins[b + 1]
    ensures BinOf(bins, v) == b
  {
    BinIsHalfOpen(bins, v);
    assert bins[0] <= bins[b] && bins[b + 1] <= bins[|bins| - 1];
  }

  // ----- deviations from the mean

  /** The products of how far x and y lie from mx and my, summed up. */
  function Deviating(x: seq<real>, mx: real, y: seq<real>, my: real): real
    requires |x| == |y|
    decreases |x|
  {
    if x == [] then 0.0
    else
      var k := |x| - 1;
      Deviating(x[..k], mx, y[..k], my) + (x[k] - mx) * (y[k] - my)
  }

  /** The same sum, multiplied out. */
  function Expanded(n: nat, sx: real, sy: real, xy: real, mx: real, my: real): real {
    xy - mx * sy - my * sx + Copies(n, mx * my)
  }

  lemma {:induction false} ExpandedGrows(n: nat, sx: real, sy: real, xy: real, mx: real, my: real, x: real, y: real,
                                         tx: real, ty: real, txy: real)
    requires tx == sx + x && ty == sy + y && txy == xy + x * y
    ensures Expanded(n + 1, tx, ty, txy, mx, my) == Expanded(n, sx, sy, xy, mx, my) + (x - mx) * (y - my)
  {
    CopiesGrow(n, mx * my);
    hide Copies;
    Distribute(mx, sy, y);
    Distribute(my, sx, x);
  }

  lemma {:induction false} NothingExpanded(mx: real, my: real)
    ensures Expanded(0, 0.0, 0.0, 0.0, mx, my) == 0.0
  {
  }

  lemma {:induction false} DeviatingExpands(x: seq<real>, mx: real, y: seq<real>, my: real)
    requires |x| == |y|
    ensures Deviating(x, mx, y, my) == Expanded(|x|, Sum(x), Sum(y), Dot(x, y), mx, my)
    decreases |x|
  {
    hide Expanded, Dot;
    if x == [] {
      NoProducts(x, y);
      NothingExpanded(mx, my);
    } else {
      var k := |x| - 1;
      DeviatingExpands(x[..k], mx, y[..k], my);
      LastProduct(x, y);
      ExpandedGrows(k, Sum(x[..k]), Sum(y[..k]), Dot(x[..k], y[..k]), mx, my, x[k], y[k], Sum(x), Sum(y), Dot(x, y));
    }
  }

  lemma {:induction false} ExpandedAtMeans(n: nat, sx: real, sy: real, xy: real, mx: real, my: real, cov: real)
    requires n >= 1 && mx == sx / n as real && my == sy / n as real && cov == xy / n as real - mx * my
    ensures Expanded(n, sx, sy, xy, mx, my) == Copies(n, cov)
  {
    var m, q := n as real, xy / n as real;
    assert sx == m * mx && sy == m * my && xy == m * q;
    AtMeans(m, q, mx, my, sx, sy, xy);
  }

  lemma {:induction false} AtMeans(m: real, q: real, mx: real, my: real, sx: real, sy: real, xy: real)
    requires sx == m * mx && sy == m * my && xy == m * q
    ensures xy - mx * sy - my * sx + m * (mx * my) == m * (q - mx * my)
  {
    assert mx * (m * my) == m * (mx * my) && my * (m * mx) == m * (mx * my);
  }

  /** The covariance is the mean product of the deviations from the means; of a column with itself, the mean
      squared deviation, it is the variance. */
  lemma {:induction false} CovarianceIsMeanDeviation(x: seq<real>, y: seq<real>)
    requires x != [] && |x| == |y|
    ensures Copies(|x|, Covariance(x, y)) == Deviating(x, Mean(x), y, Mean(y))
    ensures Copies(|x|, Variance(x)) == Deviating(x, Mean(x), x, Mean(x))
    ensures Copies(|x|, Mean(x)) == Sum(x)
  {
    hide Sum, Dot, Expanded, Deviating;
    DeviatingExpands(x, Mean(x), y, Mean(y));
    DeviatingExpands(x, Mean(x), x, Mean(x));
    ExpandedAtMeans(|x|, Sum(x), Sum(y), Dot(x, y), Mean(x), Mean(y), Covariance(x, y));
    ExpandedAtMeans(|x|, Sum(x), Sum(x), Dot(x, x), Mean(x), Mean(x), Variance(x));
    MeanTimes(Sum(x), |x|, Mean(x));
  }

  lemma {:induction false} QuotientTimes(n: nat, c: real, s: real, q: real)
    requires s > 0.0 && q == c / s
    ensures Copies(n, q) * s == Copies(n, c)
  {
    assert q * s == c;
  }

  /** From the totals of a horizon: the variance that is reported is the mean squared deviation of the results
      from their mean, and the correlation of a factor with a strategy, times both standard deviations, is the
      mean product of their deviations. */
  lemma {:induction false} ReportIsMeanDeviation(draws: seq<Draw>, dims: Dims, bins: seq<real>, s: nat, f: nat,
                                                 xStd: real, pStd: real)
    requires draws != [] && AllFit(draws, dims) && s < dims.strategies && f < dims.factors && |bins| >= 2
    requires xStd > 0.0 && pStd > 0.0
    ensures var n, r, w := |draws| as real, ScoreOf(draws, dims, s, bins), WeatherOf(draws, dims);
            var x, p := Factor(draws, dims, f), Portfolio(draws, dims, s);
            && Copies(|draws|, ReportedVariance(n, r.sum, r.sumSq)) == Deviating(p, Mean(p), p, Mean(p))
            && Copies(|draws|, ReportedVariance(n, w.sums[f], w.sumsSq[f])) == Deviating(x, Mean(x), x, Mean(x))
            && xStd * pStd > 0.0
            && Copies(|draws|, Correlation(n, w.sums[f], r.sum, r.exposures[f], xStd, pStd)) * (xStd * pStd)
               == Deviating(x, Mean(x), p, Mean(p))
  {
    hide *;
    var x, p := Factor(draws, dims, f), Portfolio(draws, dims, s);
    TotalsAre(draws, dims, bins, s, f);
    ReportedIs(x);
    ReportedIs(p);
    CovarianceBound(x, p);
    CovarianceBound(p, x);
    CorrelationIs(x, p, xStd, pStd);
    CovarianceIsMeanDeviation(x, p);
    CovarianceIsMeanDeviation(p, x);
    QuotientTimes(|draws|, Covariance(x, p), xStd * pStd,
                  Correlation(|draws| as real, Sum(x), Sum(p), Dot(x, p), xStd, pStd));
  }
}
