/** Moving the start of a simplex search moves the whole search. */
module SimplexShift {
  import opened NelderMead
  import opened RealPowers

  function Shift(v: Vertex, d: Vertex): (r: Vertex)
    requires |v| == |d|
    ensures |r| == |v|
  {
    seq(|v|, j requires 0 <= j < |v| => v[j] + d[j])
  }

  function ShiftAll(s: seq<Vertex>, d: Vertex): (r: seq<Vertex>)
    requires forall i :: 0 <= i < |s| ==> |s[i]| == |d|
    ensures |r| == |s| && forall i :: 0 <= i < |s| ==> r[i] == Shift(s[i], d)
  {
    seq(|s|, i requires 0 <= i < |s| => Shift(s[i], d))
  }

  /** g takes at the moved point the value that f takes at the point. */
  ghost predicate Follows(g: Objective, f: Objective, d: Vertex) {
    forall v: Vertex :: |v| == |d| ==> g(Shift(v, d)) == f(v)
  }

  predicate Flat(s: seq<Vertex>, n: nat) {
    forall i :: 0 <= i < |s| ==> |s[i]| == n
  }

  lemma {:induction false} InsertFlat(f: Objective, v: Vertex, s: seq<Vertex>, n: nat)
    requires Flat(s, n) && |v| == n
    ensures Flat(Insert(f, v, s), n)
  {
    if s != [] && f(v) > f(s[0]) {
      InsertFlat(f, v, s[1..], n);
    }
  }

  lemma {:induction false} SortedFlat(f: Objective, s: seq<Vertex>, n: nat)
    requires Flat(s, n)
    ensures Flat(Sorted(f, s), n)
  {
    if s != [] {
      SortedFlat(f, s[1..], n);
      InsertFlat(f, s[0], Sorted(f, s[1..]), n);
    }
  }

  lemma {:induction false} ShiftCons(v: Vertex, s: seq<Vertex>, d: Vertex)
    requires |v| == |d| && Flat(s, |d|)
    ensures ShiftAll([v] + s, d) == [Shift(v, d)] + ShiftAll(s, d)
  {
    hide Shift;
  }

  lemma {:induction false} ShiftTail(s: seq<Vertex>, d: Vertex)
    requires Flat(s, |d|) && s != []
    ensures ShiftAll(s, d)[1..] == ShiftAll(s[1..], d) && ShiftAll(s, d)[0] == Shift(s[0], d)
  {
    hide Shift;
  }

  lemma {:induction false} InsertShifts(g: Objective, f: Objective, v: Vertex, s: seq<Vertex>, d: Vertex)
    requires Follows(g, f, d) && |v| == |d| && Flat(s, |d|)
    ensures Flat(Insert(f, v, s), |d|)
    ensures Insert(g, Shift(v, d), ShiftAll(s, d)) == ShiftAll(Insert(f, v, s), d)
    decreases |s|
  {
    hide Shift;
    InsertFlat(f, v, s, |d|);
    ShiftCons(v, s, d);
    if s != [] && f(v) > f(s[0]) {
      InsertShifts(g, f, v, s[1..], d);
      ShiftTail(s, d);
      ShiftCons(s[0], Insert(f, v, s[1..]), d);
    }
  }

  lemma {:induction false} SortedShifts(g: Objective, f: Objective, s: seq<Vertex>, d: Vertex)
    requires Follows(g, f, d) && Flat(s, |d|)
    ensures Flat(Sorted(f, s), |d|)
    ensures Sorted(g, ShiftAll(s, d)) == ShiftAll(Sorted(f, s), d)
  {
    hide Shift, Follows, Insert;
    SortedFlat(f, s, |d|);
    if s != [] {
      SortedShifts(g, f, s[1..], d);
      ShiftTail(s, d);
      InsertShifts(g, f, s[0], Sorted(f, s[1..]), d);
    }
  }

  // ----- the trial points

  lemma {:induction false} SumShifts(s: seq<Vertex>, d: Vertex, m: nat, j: nat)
    requires Flat(s, |d|) && m <= |s| && j < |d|
    ensures Sum(ShiftAll(s, d), m, j) == Sum(s, m, j) + Copies(m, d[j])
  {
    if m > 0 {
      SumShifts(s, d, m - 1, j);
      CopiesGrow(m - 1, d[j]);
    }
  }

  lemma {:induction false} MeanShifts(sum: real, x: real, m: nat)
    requires m >= 1
    ensures (sum + Copies(m, x)) / m as real == sum / m as real + x
  {
    var n := m as real;
    assert (sum + n * x) / n == sum / n + (n * x) / n;
  }

  lemma {:induction false} MeanAt(s: seq<Vertex>, d: Vertex, j: nat)
    requires j < |d| && IsSimplex(s, |d|)
    ensures IsSimplex(ShiftAll(s, d), |d|)
    ensures Sum(ShiftAll(s, d), |d|, j) / |d| as real == Sum(s, |d|, j) / |d| as real + d[j]
  {
    hide Sum, Shift, Copies;
    SumShifts(s, d, |d|, j);
    MeanShifts(Sum(s, |d|, j), d[j], |d|);
  }

  lemma {:induction false} CentroidShifts(s: seq<Vertex>, d: Vertex)
    requires |d| >= 1 && IsSimplex(s, |d|)
    ensures IsSimplex(ShiftAll(s, d), |d|)
    ensures Centroid(ShiftAll(s, d), |d|) == Shift(Centroid(s, |d|), d)
  {
    hide Sum;
    var n := |d|;
    forall j | 0 <= j < n ensures Sum(ShiftAll(s, d), n, j) / n as real == Sum(s, n, j) / n as real + d[j] {
      MeanAt(s, d, j);
    }
  }

  lemma {:induction false} StepShifts(a: real, b: real, x: real, t: real)
    ensures (a + x) + t * ((b + x) - (a + x)) == (a + t * (b - a)) + x
  {
    assert (b + x) - (a + x) == b - a;
  }

  lemma {:induction false} TowardsShifts(a: Vertex, b: Vertex, t: real, d: Vertex)
    requires |a| == |b| == |d|
    ensures Towards(Shift(a, d), Shift(b, d), t) == Shift(Towards(a, b, t), d)
  {
    forall j | 0 <= j < |d| ensures Towards(Shift(a, d), Shift(b, d), t)[j] == Shift(Towards(a, b, t), d)[j] {
      StepShifts(a[j], b[j], d[j], t);
    }
  }

  lemma {:induction false} ReflectedShifts(s: seq<Vertex>, d: Vertex)
    requires |d| >= 1 && IsSimplex(s, |d|)
    ensures IsSimplex(ShiftAll(s, d), |d|)
    ensures Reflected(ShiftAll(s, d), |d|) == Shift(Reflected(s, |d|), d)
  {
    hide Centroid;
    CentroidShifts(s, d);
  }

  lemma {:induction false} FollowsAt(g: Objective, f: Objective, v: Vertex, d: Vertex)
    requires Follows(g, f, d) && |v| == |d|
    ensures g(Shift(v, d)) == f(v)
  {
    hide Shift;
  }

  /** The same kind of move, to the moved point. */
  lemma {:induction false} ChoiceShifts(g: Objective, f: Objective, s: seq<Vertex>, d: Vertex)
    requires Follows(g, f, d) && |d| >= 1 && IsSimplex(s, |d|)
    ensures IsSimplex(ShiftAll(s, d), |d|)
    ensures Choose(g, ShiftAll(s, d), |d|) == match Choose(f, s, |d|)
                                               case Replace(v) => Replace(Shift(v, d))
                                               case Shrink => Shrink
  {
    hide Shift, Centroid, Towards, Reflected, Follows;
    CentroidShifts(s, d);
    ReflectedShifts(s, d);
    var n := |d|;
    var c, r := Centroid(s, n), Reflected(s, n);
    var e, k := Towards(c, r, 2.0), Towards(c, s[n], 0.5);
    TowardsShifts(c, r, 2.0, d);
    TowardsShifts(c, s[n], 0.5, d);
    FollowsAt(g, f, s[0], d);
    FollowsAt(g, f, s[n - 1], d);
    FollowsAt(g, f, s[n], d);
    FollowsAt(g, f, r, d);
    FollowsAt(g, f, e, d);
    FollowsAt(g, f, k, d);
  }

  lemma {:induction false} ShrunkShifts(s: seq<Vertex>, d: Vertex)
    requires IsSimplex(s, |d|)
    ensures IsSimplex(ShiftAll(s, d), |d|)
    ensures Shrunk(ShiftAll(s, d), |d|) == ShiftAll(Shrunk(s, |d|), d)
  {
    hide Shift, Towards;
    forall i | 0 <= i <= |d| ensures Shrunk(ShiftAll(s, d), |d|)[i] == ShiftAll(Shrunk(s, |d|), d)[i] {
      TowardsShifts(s[0], s[i], 0.5, d);
    }
  }

  lemma {:induction false} NextShifts(g: Objective, f: Objective, s: seq<Vertex>, d: Vertex)
    requires Follows(g, f, d) && |d| >= 1 && IsSimplex(s, |d|)
    ensures IsSimplex(ShiftAll(s, d), |d|)
    ensures Next(g, ShiftAll(s, d), |d|) == ShiftAll(Next(f, s, |d|), d)
  {
    hide Shift, Choose, Shrunk, Follows;
    ChoiceShifts(g, f, s, d);
    ShrunkShifts(s, d);
  }

  /** A search for the moved objective from the moved start is, iteration by iteration, the search moved:
      the trial points depend on where the vertices lie to each other and on nothing else. */
  lemma {:induction false} SearchShifts(g: Objective, f: Objective, s: seq<Vertex>, d: Vertex, k: nat)
    requires Follows(g, f, d) && |d| >= 1 && IsSimplex(s, |d|)
    ensures IsSimplex(ShiftAll(s, d), |d|)
    ensures Iterate(g, ShiftAll(s, d), |d|, k) == ShiftAll(Iterate(f, s, |d|, k), d)
  {
    hide Shift, Sorted, Next, Follows;
    if k > 0 {
      SearchShifts(g, f, s, d, k - 1);
      var t := Iterate(f, s, |d|, k - 1);
      SortedShifts(g, f, t, d);
      SortedIsSimplex(f, t, |d|);
      NextShifts(g, f, Sorted(f, t), d);
    }
  }
}
