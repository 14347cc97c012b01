/** The chunked strategy simulation: what the loops accumulate, and what means, variances and correlations
    can be. */
module Simulation {
  import opened RealPowers
  import opened Histogram

  // ----- draws

  /** What one strategy makes on one path: the result in each market and the number of open positions. */
  datatype Trades = Trades(cases: seq<real>, active: nat)

  /** One simulated path at one horizon: the weather factors and each strategy's trades. */
  datatype Draw = Draw(overlay: seq<real>, trades: seq<Trades>)

  datatype Dims = Dims(strategies: nat, markets: nat, factors: nat)

  predicate Fits(d: Draw, dims: Dims) {
    && |d.overlay| == dims.factors && |d.trades| == dims.strategies
    && forall s :: 0 <= s < |d.trades| ==> |d.trades[s].cases| == dims.markets
  }

  predicate AllFit(draws: seq<Draw>, dims: Dims) {
    forall i :: 0 <= i < |draws| ==> Fits(draws[i], dims)
  }

  // ----- columns of numbers, one for each path

  function Portfolio(draws: seq<Draw>, dims: Dims, s: nat): (r: seq<real>)
    requires AllFit(draws, dims) && s < dims.strategies
    ensures |r| == |draws|
  {
    seq(|draws|, i requires 0 <= i < |draws| => Sum(draws[i].trades[s].cases))
  }

  function Market(draws: seq<Draw>, dims: Dims, s: nat, c: nat): (r: seq<real>)
    requires AllFit(draws, dims) && s < dims.strategies && c < dims.markets
    ensures |r| == |draws|
  {
    seq(|draws|, i requires 0 <= i < |draws| => draws[i].trades[s].cases[c])
  }

  function Active(draws: seq<Draw>, dims: Dims, s: nat): (r: seq<real>)
    requires AllFit(draws, dims) && s < dims.strategies
    ensures |r| == |draws|
  {
    seq(|draws|, i requires 0 <= i < |draws| => draws[i].trades[s].active as real)
  }

  function Factor(draws: seq<Draw>, dims: Dims, f: nat): (r: seq<real>)
    requires AllFit(draws, dims) && f < dims.factors
    ensures |r| == |draws|
  {
    seq(|draws|, i requires 0 <= i < |draws| => draws[i].overlay[f])
  }

  function Products(x: seq<real>, y: seq<real>): (r: seq<real>)
    requires |x| == |y|
    ensures |r| == |x|
  {
    seq(|x|, i requires 0 <= i < |x| => x[i] * y[i])
  }

  function Dot(x: seq<real>, y: seq<real>): real
    requires |x| == |y|
  {
    Sum(Products(x, y))
  }

  // ----- what is accumulated for one strategy at one horizon, and for the weather at one horizon

  datatype Score = Score(sum: real, sumSq: real, losses: nat, active: real, hist: seq<nat>,
                         markets: seq<real>, exposures: seq<real>)

  function Markets(draws: seq<Draw>, dims: Dims, s: nat): (r: seq<real>)
    requires AllFit(draws, dims) && s < dims.strategies
    ensures |r| == dims.markets
  {
    seq(dims.markets, c requires 0 <= c < dims.markets => Sum(Market(draws, dims, s, c)))
  }

  function Exposures(draws: seq<Draw>, dims: Dims, s: nat): (r: seq<real>)
    requires AllFit(draws, dims) && s < dims.strategies
    ensures |r| == dims.factors
  {
    var p := Portfolio(draws, dims, s);
    seq(dims.factors, f requires 0 <= f < dims.factors => Dot(Factor(draws, dims, f), p))
  }

  function ScoreOf(draws: seq<Draw>, dims: Dims, s: nat, bins: seq<real>): (r: Score)
    requires AllFit(draws, dims) && s < dims.strategies && |bins| >= 2
    ensures |r.hist| == |bins| - 1 && |r.markets| == dims.markets && |r.exposures| == dims.factors
  {
    var p := Portfolio(draws, dims, s);
    Score(Sum(p), Dot(p, p), CountIf(v => v < 0.0, p), Sum(Active(draws, dims, s)), Counts(p, bins),
          Markets(draws, dims, s), Exposures(draws, dims, s))
  }

  datatype Weather = Weather(sums: seq<real>, sumsSq: seq<real>)

  function WeatherOf(draws: seq<Draw>, dims: Dims): (r: Weather)
    requires AllFit(draws, dims)
    ensures |r.sums| == |r.sumsSq| == dims.factors
  {
    Weather(seq(dims.factors, f requires 0 <= f < dims.factors => Sum(Factor(draws, dims, f))),
            seq(dims.factors, f requires 0 <= f < dims.factors =>
              Dot(Factor(draws, dims, f), Factor(draws, dims, f))))
  }

  // ----- chunks

  function Plus(a: seq<real>, b: seq<real>): (r: seq<real>)
    requires |a| == |b|
    ensures |r| == |a|
  {
    seq(|a|, i requires 0 <= i < |a| => a[i] + b[i])
  }

  predicate SameShape(a: Score, b: Score) {
    |a.hist| == |b.hist| && |a.markets| == |b.markets| && |a.exposures| == |b.exposures|
  }

  function AddScore(a: Score, b: Score): (r: Score)
    requires SameShape(a, b)
  {
    Score(a.sum + b.sum, a.sumSq + b.sumSq, a.losses + b.losses, a.active + b.active, Add(a.hist, b.hist),
          Plus(a.markets, b.markets), Plus(a.exposures, b.exposures))
  }

  lemma {:induction false} ProductsJoin(x: seq<real>, y: seq<real>, u: seq<real>, v: seq<real>)
    requires |x| == |y| && |u| == |v|
    ensures Products(x + u, y + v) == Products(x, y) + Products(u, v)
  {
    forall i | 0 <= i < |x| + |u| ensures Products(x + u, y + v)[i] == (Products(x, y) + Products(u, v))[i] {
      if i < |x| {
        assert (x + u)[i] == x[i] && (y + v)[i] == y[i];
      } else {
        assert (x + u)[i] == u[i - |x|] && (y + v)[i] == v[i - |x|];
      }
    }
  }

  lemma {:induction false} DotJoins(x: seq<real>, y: seq<real>, u: seq<real>, v: seq<real>)
    requires |x| == |y| && |u| == |v|
    ensures Dot(x + u, y + v) == Dot(x, y) + Dot(u, v)
  {
    ProductsJoin(x, y, u, v);
    SumJoins(Products(x, y), Products(u, v));
  }

  lemma {:induction false} ColumnsJoin(a: seq<Draw>, b: seq<Draw>, dims: Dims, s: nat)
    requires AllFit(a, dims) && AllFit(b, dims) && s < dims.strategies
    ensures AllFit(a + b, dims)
    ensures Portfolio(a + b, dims, s) == Portfolio(a, dims, s) + Portfolio(b, dims, s)
    ensures Active(a + b, dims, s) == Active(a, dims, s) + Active(b, dims, s)
  {
    hide Sum, Fits;
  }

  lemma {:induction false} MarketJoins(a: seq<Draw>, b: seq<Draw>, dims: Dims, s: nat, c: nat)
    requires AllFit(a, dims) && AllFit(b, dims) && AllFit(a + b, dims) && s < dims.strategies && c < dims.markets
    ensures Sum(Market(a + b, dims, s, c)) == Sum(Market(a, dims, s, c)) + Sum(Market(b, dims, s, c))
  {
    hide Sum;
    assert Market(a + b, dims, s, c) == Market(a, dims, s, c) + Market(b, dims, s, c);
    SumJoins(Market(a, dims, s, c), Market(b, dims, s, c));
  }

  lemma {:induction false} FactorJoins(a: seq<Draw>, b: seq<Draw>, dims: Dims, f: nat)
    requires AllFit(a, dims) && AllFit(b, dims) && AllFit(a + b, dims) && f < dims.factors
    ensures Factor(a + b, dims, f) == Factor(a, dims, f) + Factor(b, dims, f)
  {
  }

  lemma {:induction false} MarketsJoin(a: seq<Draw>, b: seq<Draw>, dims: Dims, s: nat)
    requires AllFit(a, dims) && AllFit(b, dims) && AllFit(a + b, dims) && s < dims.strategies
    ensures Markets(a + b, dims, s) == Plus(Markets(a, dims, s), Markets(b, dims, s))
  {
    hide Sum, Market, AllFit;
    forall c | 0 <= c < dims.markets
      ensures Markets(a + b, dims, s)[c] == Markets(a, dims, s)[c] + Markets(b, dims, s)[c]
    {
      MarketJoins(a, b, dims, s, c);
    }
  }

  lemma {:induction false} ExposuresJoin(a: seq<Draw>, b: seq<Draw>, dims: Dims, s: nat)
    requires AllFit(a, dims) && AllFit(b, dims) && AllFit(a + b, dims) && s < dims.strategies
    ensures Exposures(a + b, dims, s) == Plus(Exposures(a, dims, s), Exposures(b, dims, s))
  {
    ColumnsJoin(a, b, dims, s);
    hide Dot, Portfolio, Factor, AllFit;
    var p, q := Portfolio(a, dims, s), Portfolio(b, dims, s);
    forall f | 0 <= f < dims.factors
      ensures Exposures(a + b, dims, s)[f] == Exposures(a, dims, s)[f] + Exposures(b, dims, s)[f]
    {
      FactorJoins(a, b, dims, f);
      DotJoins(Factor(a, dims, f), p, Factor(b, dims, f), q);
    }
  }

  lemma {:induction false} ScoreIs(draws: seq<Draw>, dims: Dims, s: nat, bins: seq<real>)
    requires AllFit(draws, dims) && s < dims.strategies && |bins| >= 2
    ensures var p, r := Portfolio(draws, dims, s), ScoreOf(draws, dims, s, bins);
            && r.sum == Sum(p) && r.sumSq == Dot(p, p) && r.losses == CountIf(v => v < 0.0, p)
            && r.active == Sum(Active(draws, dims, s)) && r.hist == Counts(p, bins)
            && r.markets == Markets(draws, dims, s) && r.exposures == Exposures(draws, dims, s)
  {
    hide Sum, Dot, CountIf, Active, Counts, Markets, Exposures, Portfolio, AllFit;
  }

  /** The totals of two chunks add up to the totals of both. */
  lemma {:induction false} ScoresJoin(a: seq<Draw>, b: seq<Draw>, dims: Dims, s: nat, bins: seq<real>)
    requires AllFit(a, dims) && AllFit(b, dims) && s < dims.strategies && |bins| >= 2
    ensures AllFit(a + b, dims)
    ensures ScoreOf(a + b, dims, s, bins) == AddScore(ScoreOf(a, dims, s, bins), ScoreOf(b, dims, s, bins))
  {
    ColumnsJoin(a, b, dims, s);
    MarketsJoin(a, b, dims, s);
    ExposuresJoin(a, b, dims, s);
    hide *;
    ScoreIs(a, dims, s, bins);
    ScoreIs(b, dims, s, bins);
    ScoreIs(a + b, dims, s, bins);
    var p, q := Portfolio(a, dims, s), Portfolio(b, dims, s);
    SumJoins(p, q);
    DotJoins(p, p, q, q);
    CountJoins(v => v < 0.0, p, q);
    SumJoins(Active(a, dims, s), Active(b, dims, s));
    CountsJoin(p, q, bins);
  }

  lemma {:induction false} WeatherJoins(a: seq<Draw>, b: seq<Draw>, dims: Dims)
    requires AllFit(a, dims) && AllFit(b, dims)
    ensures AllFit(a + b, dims)
    ensures var x, y, r := WeatherOf(a, dims), WeatherOf(b, dims), WeatherOf(a + b, dims);
            r == Weather(Plus(x.sums, y.sums), Plus(x.sumsSq, y.sumsSq))
  {
    hide Sum, Dot, Factor, Fits;
    forall f | 0 <= f < dims.factors
      ensures Sum(Factor(a + b, dims, f)) == Sum(Factor(a, dims, f)) + Sum(Factor(b, dims, f))
      ensures Dot(Factor(a + b, dims, f), Factor(a + b, dims, f))
              == Dot(Factor(a, dims, f), Factor(a, dims, f)) + Dot(Factor(b, dims, f), Factor(b, dims, f))
    {
      FactorJoins(a, b, dims, f);
      SumJoins(Factor(a, dims, f), Factor(b, dims, f));
      DotJoins(Factor(a, dims, f), Factor(a, dims, f), Factor(b, dims, f), Factor(b, dims, f));
    }
  }

  // ----- the loops

  /** One horizon: chunk after chunk, the weather and every strategy; however the paths are cut into chunks,
      the totals are those of all paths at once. */
  method RunHorizon(draws: seq<Draw>, dims: Dims, bins: seq<real>, chunkSize: int)
    returns (weather: Weather, scores: seq<Score>)
    requires AllFit(draws, dims) && |bins| >= 2
    ensures weather == WeatherOf(draws, dims) && |scores| == dims.strategies
    ensures forall s :: 0 <= s < dims.strategies ==> scores[s] == ScoreOf(draws, dims, s, bins)
  {
    hide ScoreOf, WeatherOf, AllFit;
    var size := if chunkSize < 1 then 1 else chunkSize;
    var done := 0;
    NothingDrawn(dims, bins);
    assert draws[..0] == [];
    var zeros := seq(dims.factors, _ => 0.0);
    weather := Weather(zeros, zeros);
    scores := seq(dims.strategies, _ =>
                  Score(0.0, 0.0, 0, 0.0, seq(|bins| - 1, _ => 0), seq(dims.markets, _ => 0.0), zeros));
    while done < |draws|
      invariant done <= |draws| && |scores| == dims.strategies
      invariant AllFit(draws[..done], dims) && weather == WeatherOf(draws[..done], dims)
      invariant forall s :: 0 <= s < dims.strategies ==> scores[s] == ScoreOf(draws[..done], dims, s, bins)
    {
      var n := if size < |draws| - done then size else |draws| - done;
      var chunk := draws[done..done + n];
      PartFits(draws, dims, done, done + n);
      assert draws[..done + n] == draws[..done] + chunk;
      WeatherJoins(draws[..done], chunk, dims);
      var w := WeatherOf(chunk, dims);
      weather := Weather(Plus(weather.sums, w.sums), Plus(weather.sumsSq, w.sumsSq));
      scores := AddChunk(draws[..done], chunk, dims, bins, scores);
      done := done + n;
    }
    assert draws[..done] == draws;
  }

  lemma {:induction false} PartFits(draws: seq<Draw>, dims: Dims, i: nat, j: nat)
    requires AllFit(draws, dims) && i <= j <= |draws|
    ensures AllFit(draws[i..j], dims)
  {
    hide Fits;
  }

  /** No paths leave all totals at zero. */
  lemma {:induction false} NothingDrawn(dims: Dims, bins: seq<real>)
    requires |bins| >= 2
    ensures AllFit([], dims)
    ensures WeatherOf([], dims) == Weather(seq(dims.factors, _ => 0.0), seq(dims.factors, _ => 0.0))
    ensures forall s :: 0 <= s < dims.strategies ==>
              ScoreOf([], dims, s, bins) == Score(0.0, 0.0, 0, 0.0, seq(|bins| - 1, _ => 0),
                                                  seq(dims.markets, _ => 0.0), seq(dims.factors, _ => 0.0))
  {
    NothingCounted(bins);
    forall s | 0 <= s < dims.strategies
      ensures Portfolio([], dims, s) == [] && Active([], dims, s) == []
    {
    }
    assert Products([], []) == [];
  }

  /** The inner loop over the strategies. */
  method AddChunk(ghost before: seq<Draw>, chunk: seq<Draw>, dims: Dims, bins: seq<real>, scores: seq<Score>)
    returns (r: seq<Score>)
    requires AllFit(before, dims) && AllFit(chunk, dims) && |bins| >= 2 && |scores| == dims.strategies
    requires forall s :: 0 <= s < dims.strategies ==> scores[s] == ScoreOf(before, dims, s, bins)
    ensures AllFit(before + chunk, dims) && |r| == dims.strategies
    ensures forall s :: 0 <= s < dims.strategies ==> r[s] == ScoreOf(before + chunk, dims, s, bins)
  {
    hide ScoreOf, AddScore;
    r := scores;
    assert AllFit(before + chunk, dims);
    hide AllFit;
    for s := 0 to dims.strategies
      invariant |r| == dims.strategies
      invariant forall i :: s <= i < dims.strategies ==> r[i] == scores[i]
      invariant forall i :: 0 <= i < s ==> r[i] == ScoreOf(before + chunk, dims, i, bins)
    {
      ScoresJoin(before, chunk, dims, s, bins);
      r := r[s := AddScore(r[s], ScoreOf(chunk, dims, s, bins))];
    }
  }

  /** All horizons. */
  method Simulate(draws: seq<seq<Draw>>, dims: Dims, bins: seq<real>, chunkSize: int)
    returns (weather: seq<Weather>, scores: seq<seq<Score>>)
    requires |bins| >= 2 && forall h :: 0 <= h < |draws| ==> AllFit(draws[h], dims)
    ensures |weather| == |scores| == |draws|
    ensures forall h :: 0 <= h < |draws| ==>
              && weather[h] == WeatherOf(draws[h], dims) && |scores[h]| == dims.strategies
              && forall s :: 0 <= s < dims.strategies ==> scores[h][s] == ScoreOf(draws[h], dims, s, bins)
  {
    hide ScoreOf, WeatherOf, AllFit;
    weather, scores := [], [];
    for h := 0 to |draws|
      invariant |weather| == |scores| == h
      invariant forall i :: 0 <= i < h ==>
                  && weather[i] == WeatherOf(draws[i], dims) && |scores[i]| == dims.strategies
                  && forall s :: 0 <= s < dims.strategies ==> scores[i][s] == ScoreOf(draws[i], dims, s, bins)
    {
      var w, r := RunHorizon(draws[h], dims, bins, chunkSize);
      weather, scores := weather + [w], scores + [r];
    }
  }
}
