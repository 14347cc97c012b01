/** Fitting the coefficients of the forecast calibration, and blending a station's fit with the pooled one. */
module Calibration {
  import opened Options
  import opened NelderMead
  import opened RealPowers

  datatype Coeffs = Coeffs(a: real, b: real, c: real, d: real)

  /** Ensemble mean, ensemble spread, observation. */
  datatype Row = Row(mean: real, spread: real, obs: real)

  /** The CRPS of one row under some coefficients. */
  type Score = (Coeffs, Row) -> real

  function Total(score: Score, p: Coeffs, data: seq<Row>): real {
    if data == [] then 0.0 else Total(score, p, data[..|data| - 1]) + score(p, data[|data| - 1])
  }

  /** A mean CRPS, or infinity. */
  datatype Crps = Finite(mean: real) | Infinite

  predicate Less(x: Crps, y: Crps) {
    x.Finite? && (y.Finite? ==> x.mean < y.mean)
  }

  /** The mean CRPS; without rows it is infinite. */
  function Evaluate(score: Score, p: Coeffs, data: seq<Row>): Crps {
    if data == [] then Infinite else Finite(Total(score, p, data) / |data| as real)
  }

  method EvaluateParams(score: Score, p: Coeffs, data: seq<Row>) returns (r: Crps)
    ensures r == Evaluate(score, p, data)
  {
    if data == [] {
      return Infinite;
    }
    var total := 0.0;
    assert data[..|data|] == data;
    for i := 0 to |data|
      invariant total == Total(score, p, data[..i])
    {
      assert data[..i + 1][..i] == data[..i];
      total := total + score(p, data[i]);
    }
    r := Finite(total / |data| as real);
  }

  /** A point of the search as coefficients: the variance terms are kept away from zero. */
  function Clamped(v: Vertex): Coeffs
    requires |v| == 4
  {
    Coeffs(v[0], v[1], Max(v[2], 0.25), Max(v[3], 0.0))
  }

  const START: Vertex := [0.0, 1.0, 4.0, 0.5]
  const STEP: Vertex := [5.0, 0.3, 3.0, 0.3]

  const FIRST := Coeffs(0.0, 1.0, 4.0, 0.5)
  const TOLERANCE := 0.000001

  /** The objective of the search. Without rows it is infinite everywhere, which no comparison tells apart, and
      the spread, infinity less infinity, is below no tolerance. */
  function Cost(score: Score, data: seq<Row>): Objective {
    (v: Vertex) => if data != [] && |v| == 4 then Evaluate(score, Clamped(v), data).mean else 0.0
  }

  datatype Fit = Fit(coeffs: Coeffs, n: nat, crps: Crps)

  /** A fit is made exactly when there are enough rows; its CRPS is the one its coefficients score, no worse
      than that of the starting coefficients or of any of them moved by its step. Without rows, where none are
      asked for, it is the starting coefficients. */
  method FitEmos(score: Score, data: seq<Row>, minSamples: int) returns (fit: Option<Fit>)
    ensures fit == None <==> |data| < minSamples
    ensures fit.Some? ==>
              var p := fit.value.coeffs;
              && p.c >= 0.25 && p.d >= 0.0 && fit.value.n == |data|
              && fit.value.crps == Evaluate(score, p, data) && !Less(Evaluate(score, FIRST, data), fit.value.crps)
              && (forall i :: 0 <= i <= 4 ==>
                    !Less(Evaluate(score, Clamped(Initial(START, STEP)[i]), data), fit.value.crps))
              && (data == [] ==> fit.value == Fit(FIRST, 0, Infinite))
  {
    hide Total;
    if |data| < minSamples {
      return None;
    }
    var f := Cost(score, data);
    var best, k := Minimize(f, START, STEP, 500, if data == [] then 0.0 else TOLERANCE);
    if data == [] {
      assert Level(f);
      LevelKeepsFirst(f, Initial(START, STEP), 4, k);
    }
    var p := Clamped(best);
    var crps := EvaluateParams(score, p, data);
    forall i | 0 <= i <= 4 ensures !Less(Evaluate(score, Clamped(Initial(START, STEP)[i]), data), crps) {
      assert f(best) <= f(Initial(START, STEP)[i]);
    }
    assert Initial(START, STEP)[0] == START && Clamped(START) == FIRST;
    fit := Some(Fit(p, |data|, crps));
  }

  // ----- shrinkage

  function Weight(alpha: real): (w: real)
    ensures 0.0 <= w <= 1.0
  {
    if alpha < 0.0 then 0.0 else if alpha > 1.0 then 1.0 else alpha
  }

  function Mix(w: real, x: real, y: real): real {
    w * x + (1.0 - w) * y
  }

  /** w of the station's coefficients and the rest of the pooled ones. */
  function Blend(w: real, station: Coeffs, pooled: Coeffs): Coeffs {
    Coeffs(Mix(w, station.a, pooled.a), Mix(w, station.b, pooled.b),
           Mix(w, station.c, pooled.c), Mix(w, station.d, pooled.d))
  }

  datatype Tuned = Tuned(alpha: real, crps: Crps, params: Coeffs)

  /** The CRPS of the blend at one entry of a grid. */
  function Blended(score: Score, station: Coeffs, pooled: Coeffs, data: seq<Row>, alpha: real): Crps {
    Evaluate(score, Blend(Weight(alpha), station, pooled), data)
  }

  /** Of all the blends on the grid the first of least CRPS. */
  ghost predicate FirstLeast(score: Score, station: Coeffs, pooled: Coeffs, data: seq<Row>, alphas: seq<real>,
                             best: Tuned)
  {
    && best.params == Blend(best.alpha, station, pooled) && best.crps == Evaluate(score, best.params, data)
    && (forall i :: 0 <= i < |alphas| ==> !Less(Blended(score, station, pooled, data, alphas[i]), best.crps))
    && exists i :: 0 <= i < |alphas| && best.alpha == Weight(alphas[i])
                   && forall j :: 0 <= j < i ==> Less(best.crps, Blended(score, station, pooled, data, alphas[j]))
  }

  /** The grid search; nothing comes of an empty grid. */
  method TuneShrinkage(score: Score, station: Coeffs, pooled: Coeffs, data: seq<Row>, alphas: seq<real>)
    returns (best: Option<Tuned>)
    ensures best == None <==> alphas == []
    ensures best.Some? ==> FirstLeast(score, station, pooled, data, alphas, best.value)
  {
    hide Evaluate, Blend, Weight;
    best := None;
    var found := 0;
    for i := 0 to |alphas|
      invariant best == None <==> i == 0
      invariant best.Some? ==>
                  var b := best.value;
                  && found < i && b.alpha == Weight(alphas[found])
                  && b.params == Blend(b.alpha, station, pooled) && b.crps == Evaluate(score, b.params, data)
                  && (forall j :: 0 <= j < i ==> !Less(Blended(score, station, pooled, data, alphas[j]), b.crps))
                  && forall j :: 0 <= j < found ==>
                       Less(b.crps, Blended(score, station, pooled, data, alphas[j]))
    {
      var w := Weight(alphas[i]);
      var p := Blend(w, station, pooled);
      var crps := EvaluateParams(score, p, data);
      assert crps == Blended(score, station, pooled, data, alphas[i]);
      if best == None || Less(crps, best.value.crps) {
        best := Some(Tuned(w, crps, p));
        found := i;
      }
    }
  }

  lemma {:induction false} MixEnds(x: real, y: real)
    ensures Mix(1.0, x, y) == x && Mix(0.0, x, y) == y
  {
  }

  lemma {:induction false} BlendEnds(station: Coeffs, pooled: Coeffs)
    ensures Blend(1.0, station, pooled) == station && Blend(0.0, station, pooled) == pooled
  {
    hide Mix;
    MixEnds(station.a, pooled.a);
    MixEnds(station.b, pooled.b);
    MixEnds(station.c, pooled.c);
    MixEnds(station.d, pooled.d);
  }

  lemma {:induction false} MixAbove(w: real, x: real, y: real, low: real)
    requires 0.0 <= w <= 1.0 && x >= low && y >= low
    ensures Mix(w, x, y) >= low
  {
    assert w * (x - low) >= 0.0 && (1.0 - w) * (y - low) >= 0.0;
  }

  /** Every blend of two fits keeps the lower bounds on the variance terms. */
  lemma {:induction false} BlendStaysClamped(w: real, station: Coeffs, pooled: Coeffs)
    requires 0.0 <= w <= 1.0 && station.c >= 0.25 && pooled.c >= 0.25 && station.d >= 0.0 && pooled.d >= 0.0
    ensures Blend(w, station, pooled).c >= 0.25 && Blend(w, station, pooled).d >= 0.0
  {
    hide Mix;
    MixAbove(w, station.c, pooled.c, 0.25);
    MixAbove(w, station.d, pooled.d, 0.0);
  }

  /** The grid of the source when none is given: tenths from 0 to 1. */
  function DefaultGrid(): seq<real> {
    seq(11, i requires 0 <= i < 11 => i as real / 10.0)
  }

  /** What tuning comes to: too few rows, a crash on an empty grid, or a recommendation. */
  datatype Outcome = TooFew | EmptyGrid | Recommended(best: Tuned)

  predicate Reaches(grid: seq<real>, weight: real) {
    exists i :: 0 <= i < |grid| && Weight(grid[i]) == weight
  }

  /** Fit both, then tune on the caller's grid, or on the default one: the recommendation is the first of least
      CRPS on the grid and keeps the bounds; it is no worse on the station's data than the station's own fit and
      the starting coefficients where the grid reaches one, and than the pooled fit where it reaches zero, as
      the default grid does. */
  method TunePooledStation(score: Score, station: seq<Row>, pooled: seq<Row>, minSamples: int,
                           alphas: Option<seq<real>>)
    returns (r: Outcome, ghost own: Option<Fit>, ghost common: Option<Fit>)
    ensures r.TooFew? <==> |station| < minSamples || |pooled| < minSamples
    ensures r.EmptyGrid? <==> !r.TooFew? && alphas == Some([])
    ensures r.Recommended? ==>
              var grid := if alphas.Some? then alphas.value else DefaultGrid();
              && own.Some? && own.value.crps == Evaluate(score, own.value.coeffs, station)
              && common.Some? && common.value.crps == Evaluate(score, common.value.coeffs, pooled)
              && FirstLeast(score, own.value.coeffs, common.value.coeffs, station, grid, r.best)
              && r.best.params.c >= 0.25 && r.best.params.d >= 0.0
              && (Reaches(grid, 1.0) || alphas == None ==>
                    !Less(own.value.crps, r.best.crps) && !Less(Evaluate(score, FIRST, station), r.best.crps))
              && (Reaches(grid, 0.0) || alphas == None ==>
                    !Less(Evaluate(score, common.value.coeffs, station), r.best.crps))
  {
    hide Evaluate, Blend, Clamped, FirstLeast;
    var s := FitEmos(score, station, minSamples);
    var p := FitEmos(score, pooled, minSamples);
    own, common := s, p;
    if s == None || p == None {
      return TooFew, own, common;
    }
    var grid := if alphas.Some? then alphas.value else DefaultGrid();
    var tuned := TuneShrinkage(score, s.value.coeffs, p.value.coeffs, station, grid);
    if tuned == None {
      return EmptyGrid, own, common;
    }
    DefaultReachesEnds();
    TunedBeats(score, s.value.coeffs, p.value.coeffs, station, grid, tuned.value);
    r := Recommended(tuned.value);
  }

  lemma {:induction false} DefaultReachesEnds()
    ensures Reaches(DefaultGrid(), 1.0) && Reaches(DefaultGrid(), 0.0)
  {
    assert Weight(DefaultGrid()[10]) == 1.0 && Weight(DefaultGrid()[0]) == 0.0;
  }

  /** The ends of a grid are the two fits themselves. */
  lemma {:induction false} TunedBeats(score: Score, station: Coeffs, pooled: Coeffs, data: seq<Row>,
                                      grid: seq<real>, best: Tuned)
    requires FirstLeast(score, station, pooled, data, grid, best)
    requires station.c >= 0.25 && pooled.c >= 0.25 && station.d >= 0.0 && pooled.d >= 0.0
    ensures Reaches(grid, 1.0) ==> !Less(Evaluate(score, station, data), best.crps)
    ensures Reaches(grid, 0.0) ==> !Less(Evaluate(score, pooled, data), best.crps)
    ensures best.params.c >= 0.25 && best.params.d >= 0.0
  {
    hide Evaluate, Blend, Weight;
    BlendEnds(station, pooled);
    BlendStaysClamped(best.alpha, station, pooled);
    if Reaches(grid, 1.0) {
      var i :| 0 <= i < |grid| && Weight(grid[i]) == 1.0;
      assert Blended(score, station, pooled, data, grid[i]) == Evaluate(score, station, data);
    }
    if Reaches(grid, 0.0) {
      var i :| 0 <= i < |grid| && Weight(grid[i]) == 0.0;
      assert Blended(score, station, pooled, data, grid[i]) == Evaluate(score, pooled, data);
    }
  }
}
