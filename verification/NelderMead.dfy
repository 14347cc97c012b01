/** Simplex minimisation by Nelder and Mead, for any objective. */
module NelderMead {

  type Vertex = seq<real>

  type Objective = Vertex -> real

  predicate Ordered(f: Objective, s: seq<Vertex>) {
    forall i, j :: 0 <= i <= j < |s| ==> f(s[i]) <= f(s[j])
  }

  /** n + 1 vertices of dimension n. */
  predicate IsSimplex(s: seq<Vertex>, n: nat) {
    |s| == n + 1 && forall i :: 0 <= i <= n ==> |s[i]| == n
  }

  // ----- the stable sort by value

  function Insert(f: Objective, v: Vertex, s: seq<Vertex>): seq<Vertex> {
    if s == [] || f(v) <= f(s[0]) then [v] + s else [s[0]] + Insert(f, v, s[1..])
  }

  function Sorted(f: Objective, s: seq<Vertex>): seq<Vertex> {
    if s == [] then [] else Insert(f, s[0], Sorted(f, s[1..]))
  }

  lemma {:induction false} InsertAdds(f: Objective, v: Vertex, s: seq<Vertex>)
    ensures multiset(Insert(f, v, s)) == multiset(s) + multiset{v}
  {
    if s != [] && f(v) > f(s[0]) {
      InsertAdds(f, v, s[1..]);
      assert s == [s[0]] + s[1..];
    }
  }

  predicate AboveAll(f: Objective, level: real, s: seq<Vertex>) {
    forall i :: 0 <= i < |s| ==> level <= f(s[i])
  }

  lemma {:induction false} OrderedCons(f: Objective, v: Vertex, s: seq<Vertex>)
    ensures Ordered(f, [v] + s) <==> Ordered(f, s) && AboveAll(f, f(v), s)
  {
    var t := [v] + s;
    if Ordered(f, t) {
      forall i, j | 0 <= i <= j < |s| ensures f(s[i]) <= f(s[j]) {
        assert t[i + 1] == s[i] && t[j + 1] == s[j];
      }
      forall i | 0 <= i < |s| ensures f(v) <= f(s[i]) {
        assert t[0] == v && t[i + 1] == s[i];
      }
    }
  }

  lemma {:induction false} InsertAbove(f: Objective, v: Vertex, s: seq<Vertex>, level: real)
    requires level <= f(v) && AboveAll(f, level, s)
    ensures AboveAll(f, level, Insert(f, v, s))
  {
    if s != [] && f(v) > f(s[0]) {
      InsertAbove(f, v, s[1..], level);
    }
  }

  lemma {:induction false} InsertIsOrdered(f: Objective, v: Vertex, s: seq<Vertex>)
    requires Ordered(f, s)
    ensures Ordered(f, Insert(f, v, s))
  {
    hide Ordered;
    if s == [] {
      OrderedCons(f, v, s);
      OrderedNothing(f);
    } else {
      assert s == [s[0]] + s[1..];
      OrderedCons(f, s[0], s[1..]);
      if f(v) <= f(s[0]) {
        OrderedCons(f, v, s);
        assert AboveAll(f, f(v), s);
      } else {
        InsertIsOrdered(f, v, s[1..]);
        InsertAbove(f, v, s[1..], f(s[0]));
        OrderedCons(f, s[0], Insert(f, v, s[1..]));
      }
    }
  }

  /** Sorting orders by value and loses nothing. */
  lemma {:induction false} SortedIsOrdered(f: Objective, s: seq<Vertex>)
    ensures Ordered(f, Sorted(f, s)) && multiset(Sorted(f, s)) == multiset(s) && |Sorted(f, s)| == |s|
  {
    hide Ordered;
    if s == [] {
      OrderedNothing(f);
    } else {
      SortedIsOrdered(f, s[1..]);
      InsertIsOrdered(f, s[0], Sorted(f, s[1..]));
      InsertAdds(f, s[0], Sorted(f, s[1..]));
      assert s == [s[0]] + s[1..];
    }
    assert |multiset(Sorted(f, s))| == |multiset(s)|;
  }

  lemma {:induction false} OrderedNothing(f: Objective)
    ensures Ordered(f, [])
  {
  }

  lemma {:induction false} SortedHas(f: Objective, s: seq<Vertex>, i: nat)
    requires i < |s|
    ensures s[i] in Sorted(f, s)
  {
    hide Sorted, Ordered;
    SortedIsOrdered(f, s);
    assert s[i] in multiset(s);
  }

  lemma {:induction false} SortedFrom(f: Objective, s: seq<Vertex>, i: nat)
    requires i < |Sorted(f, s)|
    ensures Sorted(f, s)[i] in s
  {
    hide Sorted, Ordered;
    SortedIsOrdered(f, s);
    assert Sorted(f, s)[i] in multiset(Sorted(f, s));
  }

  /** The first after sorting is a vertex of least value. */
  lemma {:induction false} FirstIsLeast(f: Objective, s: seq<Vertex>, i: nat)
    requires i < |s|
    ensures |Sorted(f, s)| == |s| && f(Sorted(f, s)[0]) <= f(s[i])
  {
    hide Sorted;
    SortedIsOrdered(f, s);
    SortedHas(f, s, i);
    var t := Sorted(f, s);
    var j :| 0 <= j < |t| && t[j] == s[i];
  }

  lemma {:induction false} SortedIsSimplex(f: Objective, s: seq<Vertex>, n: nat)
    requires IsSimplex(s, n)
    ensures IsSimplex(Sorted(f, s), n)
  {
    hide Sorted, Ordered;
    SortedIsOrdered(f, s);
    forall i | 0 <= i <= n ensures |Sorted(f, s)[i]| == n {
      SortedFrom(f, s, i);
    }
  }

  // ----- one iteration, on a sorted simplex

  /** From a, t of the way to b. */
  function Towards(a: Vertex, b: Vertex, t: real): (r: Vertex)
    requires |a| == |b|
    ensures |r| == |a|
  {
    seq(|a|, j requires 0 <= j < |a| => a[j] + t * (b[j] - a[j]))
  }

  function Sum(s: seq<Vertex>, m: nat, j: nat): real
    requires m <= |s| && forall i :: 0 <= i < m ==> j < |s[i]|
  {
    if m == 0 then 0.0 else Sum(s, m - 1, j) + s[m - 1][j]
  }

  /** The mean of all vertices but the last. */
  function Centroid(s: seq<Vertex>, n: nat): (r: Vertex)
    requires IsSimplex(s, n) && n >= 1
    ensures |r| == n
  {
    seq(n, j requires 0 <= j < n => Sum(s, n, j) / n as real)
  }

  datatype Move = Replace(v: Vertex) | Shrink

  function Reflected(s: seq<Vertex>, n: nat): (r: Vertex)
    requires IsSimplex(s, n) && n >= 1
    ensures |r| == n
  {
    var c := Centroid(s, n);
    seq(n, j requires 0 <= j < n => c[j] + (c[j] - s[n][j]))
  }

  function Choose(f: Objective, s: seq<Vertex>, n: nat): (r: Move)
    requires IsSimplex(s, n) && n >= 1
    ensures r.Replace? ==> |r.v| == n
  {
    var c := Centroid(s, n);
    var reflected := Reflected(s, n);
    if f(s[0]) <= f(reflected) < f(s[n - 1]) then Replace(reflected)
    else if f(reflected) < f(s[0]) then
      var expanded := Towards(c, reflected, 2.0);
      Replace(if f(expanded) < f(reflected) then expanded else reflected)
    else
      var contracted := Towards(c, s[n], 0.5);
      if f(contracted) < f(s[n]) then Replace(contracted) else Shrink
  }

  function Shrunk(s: seq<Vertex>, n: nat): (r: seq<Vertex>)
    requires IsSimplex(s, n)
    ensures IsSimplex(r, n) && r[0] == s[0]
  {
    seq(n + 1, i requires 0 <= i <= n => if i == 0 then s[0] else Towards(s[0], s[i], 0.5))
  }

  function Next(f: Objective, s: seq<Vertex>, n: nat): (r: seq<Vertex>)
    requires IsSimplex(s, n) && n >= 1
    ensures IsSimplex(r, n)
  {
    match Choose(f, s, n)
    case Replace(v) => s[n := v]
    case Shrink => Shrunk(s, n)
  }

  /** A move that is no shrink puts strictly less in the place of the worst vertex. */
  lemma {:induction false} ReplacesByLess(f: Objective, s: seq<Vertex>, n: nat)
    requires IsSimplex(s, n) && n >= 1 && Ordered(f, s) && Choose(f, s, n).Replace?
    ensures f(Choose(f, s, n).v) < f(s[n])
  {
    hide Centroid, Towards, Reflected;
    assert f(s[n - 1]) <= f(s[n]) && f(s[0]) <= f(s[n]);
  }

  /** The best value never goes up. */
  lemma {:induction false} NextKeepsBest(f: Objective, s: seq<Vertex>, n: nat)
    requires IsSimplex(s, n) && n >= 1 && Ordered(f, s)
    ensures var t := Sorted(f, Next(f, s, n)); |t| == n + 1 && f(t[0]) <= f(s[0])
  {
    hide Choose, Sorted, Ordered;
    FirstIsLeast(f, Next(f, s, n), 0);
  }

  function AtMost(f: Objective, s: seq<Vertex>, level: real): nat {
    if s == [] then 0 else (if f(s[0]) <= level then 1 else 0) + AtMost(f, s[1..], level)
  }

  lemma {:induction false} AtMostUpdate(f: Objective, s: seq<Vertex>, i: nat, v: Vertex, level: real)
    requires i < |s| && f(v) <= f(s[i])
    ensures AtMost(f, s[i := v], level) >= AtMost(f, s, level)
    ensures f(v) <= level < f(s[i]) ==> AtMost(f, s[i := v], level) == AtMost(f, s, level) + 1
  {
    if i == 0 {
      assert s[i := v][1..] == s[1..];
    } else {
      assert s[i := v][1..] == s[1..][i - 1 := v];
      AtMostUpdate(f, s[1..], i - 1, v, level);
    }
  }

  /** Without a shrink, no order statistic of the values goes up: at every level at least as many vertices
      lie at or below it as before, and one more at the level of the vertex that came in. */
  lemma {:induction false} ReplaceLowersValues(f: Objective, s: seq<Vertex>, n: nat, level: real)
    requires IsSimplex(s, n) && n >= 1 && Ordered(f, s) && Choose(f, s, n).Replace?
    ensures AtMost(f, Next(f, s, n), level) >= AtMost(f, s, level)
    ensures level == f(Choose(f, s, n).v) ==> AtMost(f, Next(f, s, n), level) == AtMost(f, s, level) + 1
  {
    hide Choose, AtMost, Ordered;
    ReplacesByLess(f, s, n);
    AtMostUpdate(f, s, n, Choose(f, s, n).v, level);
  }

  // ----- the whole run

  function Iterate(f: Objective, s: seq<Vertex>, n: nat, k: nat): (r: seq<Vertex>)
    requires IsSimplex(s, n) && n >= 1
    ensures IsSimplex(r, n)
  {
    if k == 0 then s
    else
      var t := Iterate(f, s, n, k - 1);
      SortedIsSimplex(f, t, n);
      Next(f, Sorted(f, t), n)
  }

  function Best(f: Objective, s: seq<Vertex>): (r: Vertex)
    requires s != []
  {
    SortedIsOrdered(f, s);
    Sorted(f, s)[0]
  }

  lemma {:induction false} IterateKeepsBest(f: Objective, s: seq<Vertex>, n: nat, j: nat, k: nat)
    requires IsSimplex(s, n) && n >= 1 && j <= k
    ensures f(Best(f, Iterate(f, s, n, k))) <= f(Best(f, Iterate(f, s, n, j)))
  {
    hide Next, Sorted, Ordered;
    if j < k {
      IterateKeepsBest(f, s, n, j, k - 1);
      var t := Iterate(f, s, n, k - 1);
      SortedIsOrdered(f, t);
      SortedIsSimplex(f, t, n);
      NextKeepsBest(f, Sorted(f, t), n);
    }
  }

  /** After any number of iterations the best vertex is no worse than any vertex of the start. */
  lemma {:induction false} NoWorseThanStart(f: Objective, s: seq<Vertex>, n: nat, k: nat, i: nat)
    requires IsSimplex(s, n) && n >= 1 && i <= n
    ensures f(Best(f, Iterate(f, s, n, k))) <= f(s[i])
  {
    hide Sorted;
    IterateKeepsBest(f, s, n, 0, k);
    FirstIsLeast(f, s, i);
  }

  // ----- an objective that tells no two points apart

  ghost predicate Level(f: Objective) {
    forall v, w :: f(v) == f(w)
  }

  lemma {:induction false} LevelSorted(f: Objective, s: seq<Vertex>)
    requires Level(f)
    ensures Sorted(f, s) == s
    decreases |s|
  {
    if s != [] {
      LevelSorted(f, s[1..]);
      assert s == [s[0]] + s[1..];
      assert s[1..] != [] ==> f(s[0]) == f(s[1..][0]);
    }
  }

  /** Then every turn is a shrink towards the first vertex, and that is where the search ends. */
  lemma {:induction false} LevelKeepsFirst(f: Objective, s: seq<Vertex>, n: nat, k: nat)
    requires IsSimplex(s, n) && n >= 1 && Level(f)
    ensures Iterate(f, s, n, k)[0] == s[0] == Best(f, Iterate(f, s, n, k))
  {
    hide Sorted, Next, Shrunk, Level, Choose;
    LevelSorted(f, Iterate(f, s, n, k));
    if k > 0 {
      LevelKeepsFirst(f, s, n, k - 1);
      var t := Iterate(f, s, n, k - 1);
      LevelSorted(f, t);
      LevelShrinks(f, t, n);
    }
  }

  lemma {:induction false} LevelShrinks(f: Objective, s: seq<Vertex>, n: nat)
    requires IsSimplex(s, n) && n >= 1 && Level(f)
    ensures Next(f, s, n) == Shrunk(s, n)
  {
    hide Centroid, Reflected, Towards;
    var c := Centroid(s, n);
    assert f(s[0]) == f(Reflected(s, n)) == f(s[n - 1]);
    assert f(Towards(c, s[n], 0.5)) == f(s[n]);
  }

  // ----- only the order of the values matters

  ghost predicate SameOrder(f: Objective, g: Objective) {
    forall u: Vertex, v: Vertex :: f(u) <= f(v) <==> g(u) <= g(v)
  }

  lemma {:induction false} SameSorted(f: Objective, g: Objective, s: seq<Vertex>)
    requires SameOrder(f, g)
    ensures Sorted(f, s) == Sorted(g, s)
  {
    if s != [] {
      SameSorted(f, g, s[1..]);
      SameInserted(f, g, s[0], Sorted(f, s[1..]));
    }
  }

  lemma {:induction false} SameInserted(f: Objective, g: Objective, v: Vertex, s: seq<Vertex>)
    requires SameOrder(f, g)
    ensures Insert(f, v, s) == Insert(g, v, s)
  {
    if s != [] {
      assert f(v) <= f(s[0]) <==> g(v) <= g(s[0]);
      if f(v) > f(s[0]) {
        SameInserted(f, g, v, s[1..]);
      }
    }
  }

  lemma {:induction false} SameChosen(f: Objective, g: Objective, s: seq<Vertex>, n: nat)
    requires SameOrder(f, g) && IsSimplex(s, n) && n >= 1
    ensures Choose(f, s, n) == Choose(g, s, n)
  {
    hide Centroid, Towards, Reflected;
    var c := Centroid(s, n);
    var r := Reflected(s, n);
    assert f(s[0]) <= f(r) <==> g(s[0]) <= g(r);
    assert f(s[n - 1]) <= f(r) <==> g(s[n - 1]) <= g(r);
    assert f(r) <= f(Towards(c, r, 2.0)) <==> g(r) <= g(Towards(c, r, 2.0));
    assert f(s[n]) <= f(Towards(c, s[n], 0.5)) <==> g(s[n]) <= g(Towards(c, s[n], 0.5));
  }

  /** Two objectives that order all points alike take the simplex along the same path. */
  lemma {:induction false} OnlyOrderMatters(f: Objective, g: Objective, s: seq<Vertex>, n: nat, k: nat)
    requires SameOrder(f, g) && IsSimplex(s, n) && n >= 1
    ensures Iterate(f, s, n, k) == Iterate(g, s, n, k)
  {
    hide SameOrder, Sorted, Choose, Shrunk;
    if k > 0 {
      OnlyOrderMatters(f, g, s, n, k - 1);
      var t := Iterate(f, s, n, k - 1);
      SameSorted(f, g, t);
      SortedIsSimplex(f, t, n);
      SameChosen(f, g, Sorted(f, t), n);
    }
  }

  // ----- the method

  /** The start: x0, and x0 moved along each axis. */
  function Initial(x0: Vertex, step: Vertex): (r: seq<Vertex>)
    requires |x0| == |step|
    ensures IsSimplex(r, |x0|) && r[0] == x0
  {
    seq(|x0| + 1, i requires 0 <= i <= |x0| => if i == 0 then x0 else x0[i - 1 := x0[i - 1] + step[i - 1]])
  }

  /** All values lie less than tol above the least. */
  predicate Close(f: Objective, s: seq<Vertex>, tol: real) {
    s != [] && forall i :: 0 <= i < |s| ==> f(s[i]) - f(s[0]) < tol
  }

  method SpreadBelow(f: Objective, s: seq<Vertex>, tol: real) returns (close: bool)
    requires Ordered(f, s) && s != []
    ensures close <==> Close(f, s, tol)
  {
    var spread := 0.0;
    for i := 0 to |s|
      invariant spread >= 0.0
      invariant forall j :: 0 <= j < i ==> f(s[j]) - f(s[0]) <= spread
      invariant spread == 0.0 || exists j :: 0 <= j < i && f(s[j]) - f(s[0]) == spread
    {
      assert f(s[0]) <= f(s[i]);
      if f(s[i]) - f(s[0]) > spread {
        spread := f(s[i]) - f(s[0]);
      }
    }
    close := spread < tol;
    assert f(s[0]) - f(s[0]) == 0.0;
  }

  /** Minimise: the result is the best vertex after k iterations, k at most maxIter, and fewer only when the
      values have come together to within tol. */
  method Minimize(f: Objective, x0: Vertex, step: Vertex, maxIter: nat, tol: real)
    returns (best: Vertex, ghost k: nat)
    requires |x0| == |step| && |x0| >= 1
    ensures k <= maxIter && best == Best(f, Iterate(f, Initial(x0, step), |x0|, k))
    ensures k < maxIter ==> Close(f, Sorted(f, Iterate(f, Initial(x0, step), |x0|, k)), tol)
    ensures forall j :: 0 <= j < k ==> !Close(f, Sorted(f, Iterate(f, Initial(x0, step), |x0|, j)), tol)
    ensures |best| == |x0|
    ensures forall i :: 0 <= i <= |x0| ==> f(best) <= f(Initial(x0, step)[i])
  {
    hide Ordered, Sorted, Initial, Choose, Shrunk, Towards;
    var n := |x0|;
    ghost var start := Initial(x0, step);
    var simplex := Initial(x0, step);
    k := 0;
    var turn := 0;
    while turn < maxIter
      invariant turn <= maxIter && k == turn
      invariant IsSimplex(simplex, n) && simplex == Iterate(f, start, n, k)
      invariant forall j :: 0 <= j < k ==> !Close(f, Sorted(f, Iterate(f, start, n, j)), tol)
    {
      ghost var before := simplex;
      SortedIsOrdered(f, simplex);
      SortedIsSimplex(f, simplex, n);
      simplex := Sorted(f, simplex);
      var close := SpreadBelow(f, simplex, tol);
      if close {
        best := simplex[0];
        StartBound(f, x0, step, k);
        return;
      }
      match Choose(f, simplex, n) {
        case Replace(v) =>
          simplex := simplex[n := v];
        case Shrink =>
          simplex := Shrunk(simplex, n);
      }
      k := k + 1;
      turn := turn + 1;
    }
    StartBound(f, x0, step, k);
    SortedIsOrdered(f, simplex);
    SortedIsSimplex(f, simplex, n);
    simplex := Sorted(f, simplex);
    best := simplex[0];
  }

  lemma {:induction false} StartBound(f: Objective, x0: Vertex, step: Vertex, k: nat)
    requires |x0| == |step| && |x0| >= 1
    ensures var s := Initial(x0, step);
            forall i :: 0 <= i <= |x0| ==> f(Best(f, Iterate(f, s, |x0|, k))) <= f(s[i])
  {
    hide Sorted, Initial, Iterate;
    var s := Initial(x0, step);
    forall i | 0 <= i <= |x0| ensures f(Best(f, Iterate(f, s, |x0|, k))) <= f(s[i]) {
      NoWorseThanStart(f, s, |x0|, k, i);
    }
  }
}
