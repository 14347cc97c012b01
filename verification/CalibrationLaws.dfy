/** What scores, clamps, weights and blends of the calibration are, said without their formulas. */
module CalibrationLaws {
  import opened RealPowers
  import opened NelderMead
  import opened Calibration

  // ----- the mean score

  lemma {:induction false} TotalJoins(score: Score, p: Coeffs, s: seq<Row>, t: seq<Row>)
    ensures Total(score, p, s + t) == Total(score, p, s) + Total(score, p, t)
    decreases |t|
  {
    if t == [] {
      assert s + t == s;
    } else {
      var n := |t| - 1;
      TotalJoins(score, p, s, t[..n]);
      assert (s + t)[..|s| + n] == s + t[..n];
    }
  }

  lemma {:induction false} EvaluateTimes(score: Score, p: Coeffs, data: seq<Row>)
    requires data != []
    ensures Evaluate(score, p, data).Finite?
    ensures Copies(|data|, Evaluate(score, p, data).mean) == Total(score, p, data)
  {
    hide Total, Copies;
    MeanTimes(Total(score, p, data), |data|, Evaluate(score, p, data).mean);
  }

  /** The score of one row is its own, and the score of two data sets together is theirs in the proportion of
      their rows. */
  lemma {:induction false} ScoresAverage(score: Score, p: Coeffs, row: Row, s: seq<Row>, t: seq<Row>)
    requires s != [] && t != []
    ensures Evaluate(score, p, []) == Infinite && Evaluate(score, p, [row]) == Finite(score(p, row))
    ensures Evaluate(score, p, s).Finite? && Evaluate(score, p, t).Finite? && Evaluate(score, p, s + t).Finite?
    ensures Copies(|s| + |t|, Evaluate(score, p, s + t).mean)
            == Copies(|s|, Evaluate(score, p, s).mean) + Copies(|t|, Evaluate(score, p, t).mean)
  {
    EvaluateOne(score, p, row);
    hide Evaluate, Total, Copies;
    TotalJoins(score, p, s, t);
    EvaluateTimes(score, p, s);
    EvaluateTimes(score, p, t);
    EvaluateTimes(score, p, s + t);
    assert |s + t| == |s| + |t|;
  }

  lemma {:induction false} EvaluateOne(score: Score, p: Coeffs, row: Row)
    ensures Evaluate(score, p, []) == Infinite && Evaluate(score, p, [row]) == Finite(score(p, row))
  {
    assert [row][..0] == [];
  }

  // ----- the bounds

  function Distance(x: real, y: real): real {
    if x <= y then y - x else x - y
  }

  ghost predicate Admissible(p: Coeffs) {
    p.c >= 0.25 && p.d >= 0.0
  }

  /** The coefficients of a point are the admissible ones nearest to it, in each of the four. */
  lemma {:induction false} ClampedIsNearest(v: Vertex, p: Coeffs)
    requires |v| == 4 && Admissible(p)
    ensures var q := Clamped(v);
            && Admissible(q) && q.a == v[0] && q.b == v[1]
            && Distance(q.c, v[2]) <= Distance(p.c, v[2]) && Distance(q.d, v[3]) <= Distance(p.d, v[3])
  {
  }

  /** A weight is the number between zero and one that is nearest to alpha. */
  lemma {:induction false} WeightIsNearest(alpha: real, u: real)
    requires 0.0 <= u <= 1.0
    ensures 0.0 <= Weight(alpha) <= 1.0 && Distance(Weight(alpha), alpha) <= Distance(u, alpha)
  {
  }

  // ----- blends

  lemma {:induction false} MixMoves(w: real, u: real, x: real, y: real)
    ensures Mix(w, x, y) - Mix(u, x, y) == (w - u) * (x - y)
  {
  }

  /** From the pooled coefficients to the station's a blend moves evenly with its weight. */
  lemma {:induction false} BlendMovesEvenly(w: real, u: real, station: Coeffs, pooled: Coeffs)
    ensures var p, q := Blend(w, station, pooled), Blend(u, station, pooled);
            && p.a - q.a == (w - u) * (station.a - pooled.a) && p.b - q.b == (w - u) * (station.b - pooled.b)
            && p.c - q.c == (w - u) * (station.c - pooled.c) && p.d - q.d == (w - u) * (station.d - pooled.d)
  {
    hide Mix;
    MixMoves(w, u, station.a, pooled.a);
    MixMoves(w, u, station.b, pooled.b);
    MixMoves(w, u, station.c, pooled.c);
    MixMoves(w, u, station.d, pooled.d);
  }

  /** The default grid goes from zero to one in ten equal steps. */
  lemma {:induction false} GridIsEven(i: nat)
    requires i < 10
    ensures |DefaultGrid()| == 11 && DefaultGrid()[0] == 0.0 && DefaultGrid()[10] == 1.0
    ensures DefaultGrid()[i + 1] - DefaultGrid()[i] == 0.1
  {
  }
}
