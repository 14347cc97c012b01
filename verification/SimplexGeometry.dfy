/** Where the trial points of a simplex search lie, said with midpoints. */
module SimplexGeometry {
  import opened NelderMead
  import opened RealPowers

  /** m lies midway between a and b. */
  predicate Midway(m: Vertex, a: Vertex, b: Vertex) {
    |m| == |a| == |b| && forall j :: 0 <= j < |m| ==> 2.0 * m[j] == a[j] + b[j]
  }

  /** How far the first m vertices lie from c in coordinate j, together. */
  function Off(s: seq<Vertex>, c: Vertex, m: nat, j: nat): real
    requires m <= |s| && j < |c| && forall i :: 0 <= i < m ==> j < |s[i]|
  {
    if m == 0 then 0.0 else Off(s, c, m - 1, j) + (s[m - 1][j] - c[j])
  }

  lemma {:induction false} OffIsSum(s: seq<Vertex>, c: Vertex, m: nat, j: nat)
    requires m <= |s| && j < |c| && forall i :: 0 <= i < m ==> j < |s[i]|
    ensures Off(s, c, m, j) == Sum(s, m, j) - Copies(m, c[j])
  {
    hide Copies;
    CopiesGrow(if m > 0 then m - 1 else 0, c[j]);
    if m > 0 {
      OffIsSum(s, c, m - 1, j);
    }
  }

  /** The centroid is the point from which all vertices but the worst lie equally far on either side. */
  lemma {:induction false} CentroidBalances(s: seq<Vertex>, n: nat, j: nat)
    requires IsSimplex(s, n) && j < n
    ensures Off(s, Centroid(s, n), n, j) == 0.0
  {
    hide Off, Copies, Sum;
    OffIsSum(s, Centroid(s, n), n, j);
    MeanTimes(Sum(s, n, j), n, Centroid(s, n)[j]);
  }

  lemma {:induction false} CentroidIsMidway(s: seq<Vertex>, n: nat)
    requires IsSimplex(s, n) && n >= 1
    ensures Midway(Centroid(s, n), s[n], Reflected(s, n))
  {
    hide Centroid;
  }

  lemma {:induction false} TwiceAsFar(a: Vertex, m: Vertex, b: Vertex)
    requires Midway(m, a, b)
    ensures |a| == |m| && Towards(a, m, 2.0) == b
  {
    forall j | 0 <= j < |a| ensures Towards(a, m, 2.0)[j] == b[j] {
      assert 2.0 * m[j] == a[j] + b[j];
    }
  }

  lemma {:induction false} HalfAsFar(a: Vertex, m: Vertex, b: Vertex)
    requires Midway(m, a, b)
    ensures |a| == |b| && Towards(a, b, 0.5) == m
  {
    forall j | 0 <= j < |a| ensures Towards(a, b, 0.5)[j] == m[j] {
      assert 2.0 * m[j] == a[j] + b[j];
    }
  }

  /** With the centroid midway between worst and reflected vertex, the reflected midway between centroid and
      expanded, and the contracted midway between centroid and worst: a reflection that is not below the best but
      below the second worst is taken; one below the best is taken or, if that is lower, the expansion;
      otherwise the contraction if it is below the worst, and else the simplex shrinks. */
  lemma {:induction false} ChoiceByMidpoints(f: Objective, s: seq<Vertex>, n: nat, reflected: Vertex, expanded: Vertex,
                                             contracted: Vertex)
    requires IsSimplex(s, n) && n >= 1 && Midway(Centroid(s, n), s[n], reflected)
    requires Midway(reflected, Centroid(s, n), expanded) && Midway(contracted, Centroid(s, n), s[n])
    ensures f(s[0]) <= f(reflected) < f(s[n - 1]) ==> Choose(f, s, n) == Replace(reflected)
    ensures f(reflected) < f(s[0])
            ==> Choose(f, s, n) == Replace(if f(expanded) < f(reflected) then expanded else reflected)
    ensures f(reflected) >= f(s[0]) && f(reflected) >= f(s[n - 1])
            ==> Choose(f, s, n) == if f(contracted) < f(s[n]) then Replace(contracted) else Shrink
  {
    CentroidIsMidway(s, n);
    SameOpposite(Centroid(s, n), s[n], reflected, Reflected(s, n));
    TwiceAsFar(Centroid(s, n), reflected, expanded);
    HalfAsFar(Centroid(s, n), contracted, s[n]);
    hide Midway, Centroid, Reflected, Towards;
  }

  lemma {:induction false} SameOpposite(m: Vertex, a: Vertex, b: Vertex, c: Vertex)
    requires Midway(m, a, b) && Midway(m, a, c)
    ensures b == c
  {
    forall j | 0 <= j < |b| ensures b[j] == c[j] {
      assert 2.0 * m[j] == a[j] + b[j];
    }
  }

  /** A shrink keeps the best vertex and moves every other one midway towards it. */
  lemma {:induction false} ShrinkHalves(s: seq<Vertex>, n: nat, i: nat)
    requires IsSimplex(s, n) && i <= n
    ensures Shrunk(s, n)[0] == s[0] && Midway(Shrunk(s, n)[i], s[0], s[i])
  {
  }

  /** The search starts from x0 and from x0 moved by its step along one axis each. */
  lemma {:induction false} StartAlongAxes(x0: Vertex, step: Vertex, i: nat, j: nat)
    requires |x0| == |step| && i < |x0| && j < |x0|
    ensures Initial(x0, step)[0] == x0
    ensures Initial(x0, step)[i + 1][j] - x0[j] == if i == j then step[j] else 0.0
  {
  }
}
