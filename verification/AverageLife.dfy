/** What the average life of a list of flows comes to. */
module AverageLife {
  import opened RealPowers
  import opened Waterfall
  import opened Seniority

  // ----- one month

  /** The months with principal are this one alone. */
  ghost predicate AllIn(flows: seq<Flow>, i: nat) {
    i < |flows| && forall k :: 0 <= k < |flows| && k != i ==> flows[k].principal == 0.0
  }

  lemma {:induction false} NoPrincipal(flows: seq<Flow>)
    requires forall k :: 0 <= k < |flows| ==> flows[k].principal == 0.0
    ensures PrincipalOf(flows) == 0.0 && Weighted(flows) == 0.0
  {
    if flows != [] {
      var n := |flows| - 1;
      NoPrincipal(flows[..n]);
      MulOfZero(flows[n].principal, |flows| as real);
    }
  }

  lemma {:induction false} AllInOne(flows: seq<Flow>, i: nat)
    requires AllIn(flows, i)
    ensures PrincipalOf(flows) == flows[i].principal
    ensures Weighted(flows) == (i + 1) as real * flows[i].principal
  {
    var n := |flows| - 1;
    if i == n {
      NoPrincipal(flows[..n]);
    } else {
      AllInOne(flows[..n], i);
      MulOfZero(flows[n].principal, |flows| as real);
    }
  }

  lemma {:induction false} Yearly(c: real, p: real)
    requires p > 0.0
    ensures (c * p) / p / 12.0 == c / 12.0
  {
    assert (c * p) / p == c;
  }

  /** Principal that is all paid in month m has an average life of m twelfths of a year. */
  lemma {:induction false} LifeOfOneMonth(flows: seq<Flow>, m: nat)
    requires 1 <= m <= |flows| && AllIn(flows, m - 1) && flows[m - 1].principal > 0.0
    ensures Wal(flows) == m as real / 12.0
  {
    hide Weighted, PrincipalOf, AllIn;
    AllInOne(flows, m - 1);
    Yearly(m as real, flows[m - 1].principal);
    LifeIs(flows, m as real * flows[m - 1].principal, flows[m - 1].principal);
  }

  lemma {:induction false} LifeIs(flows: seq<Flow>, weighted: real, total: real)
    requires Weighted(flows) == weighted && PrincipalOf(flows) == total > 0.0
    ensures Wal(flows) == weighted / total / 12.0
  {
    hide Weighted, PrincipalOf;
  }

  /** Without principal there is no life. */
  lemma {:induction false} LifeOfNothing(flows: seq<Flow>)
    requires forall k :: 0 <= k < |flows| ==> flows[k].principal == 0.0
    ensures Wal(flows) == 0.0
  {
    hide Weighted, PrincipalOf;
    NoPrincipal(flows);
  }

  // ----- a month more

  lemma {:induction false} OneMonthLater(f: Flow, flows: seq<Flow>)
    ensures PrincipalOf([f] + flows) == f.principal + PrincipalOf(flows)
    ensures Weighted([f] + flows) == Weighted(flows) + PrincipalOf(flows) + f.principal
    decreases |flows|
  {
    if flows == [] {
      assert [f] + flows == [f] && [f][..0] == [];
    } else {
      var n := |flows| - 1;
      OneMonthLater(f, flows[..n]);
      assert ([f] + flows)[..n + 1] == [f] + flows[..n];
      hide PrincipalOf, Weighted;
      Later(flows[n].principal, |flows| as real);
      assert (|flows| + 1) as real == |flows| as real + 1.0;
    }
  }

  lemma {:induction false} Later(p: real, w: real)
    ensures (w + 1.0) * p == w * p + p
  {
  }

  lemma {:induction false} LifeGrows(weighted: real, total: real)
    requires total > 0.0
    ensures (weighted + total) / total / 12.0 == weighted / total / 12.0 + 1.0 / 12.0
  {
    var q, r := (weighted + total) / total, weighted / total;
    assert q * total == weighted + total && r * total == weighted;
    assert (r + 1.0) * total == r * total + total;
    CancelPositive(q, r + 1.0, total);
    CancelPositive(r + 1.0, q, total);
  }

  /** A month without principal put in front adds one twelfth of a year. */
  lemma {:induction false} EmptyMonthAddsOne(f: Flow, flows: seq<Flow>)
    requires f.principal == 0.0 && PrincipalOf(flows) > 0.0
    ensures Wal([f] + flows) == Wal(flows) + 1.0 / 12.0
  {
    hide Weighted, PrincipalOf;
    OneMonthLater(f, flows);
    LifeGrows(Weighted(flows), PrincipalOf(flows));
    LifeIs([f] + flows, Weighted(flows) + PrincipalOf(flows), PrincipalOf(flows));
  }

  // ----- two classes together

  function Together(x: seq<Flow>, y: seq<Flow>): (r: seq<Flow>)
    requires |x| == |y|
    ensures |r| == |x|
  {
    seq(|x|, k requires 0 <= k < |x| => Flow(x[k].interest + y[k].interest, x[k].principal + y[k].principal))
  }

  lemma {:induction false} TotalsAdd(x: seq<Flow>, y: seq<Flow>)
    requires |x| == |y|
    ensures PrincipalOf(Together(x, y)) == PrincipalOf(x) + PrincipalOf(y)
    ensures Weighted(Together(x, y)) == Weighted(x) + Weighted(y)
    decreases |x|
  {
    hide *;
    TotalsUnfold(x);
    TotalsUnfold(y);
    TotalsUnfold(Together(x, y));
    TogetherUnfolds(x, y);
    if x != [] {
      var n := |x| - 1;
      TotalsAdd(x[..n], y[..n]);
      Distributes(|x| as real, x[n].principal, y[n].principal, Together(x, y)[n].principal);
    }
  }

  lemma {:induction false} TotalsUnfold(flows: seq<Flow>)
    ensures flows == [] ==> PrincipalOf(flows) == Weighted(flows) == 0.0
    ensures flows != [] ==>
              var n := |flows| - 1;
              && PrincipalOf(flows) == PrincipalOf(flows[..n]) + flows[n].principal
              && Weighted(flows) == Weighted(flows[..n]) + |flows| as real * flows[n].principal
  {
  }

  lemma {:induction false} TogetherUnfolds(x: seq<Flow>, y: seq<Flow>)
    requires |x| == |y|
    ensures |Together(x, y)| == |x|
    ensures x != [] ==>
              var n := |x| - 1;
              && Together(x, y)[..n] == Together(x[..n], y[..n])
              && Together(x, y)[n].principal == x[n].principal + y[n].principal
  {
  }

  lemma {:induction false} Distributes(c: real, u: real, v: real, sum: real)
    requires sum == u + v
    ensures c * sum == c * u + c * v
  {
  }

  lemma {:induction false} MeanOfLives(wx: real, tx: real, wy: real, ty: real)
    requires tx > 0.0 && ty > 0.0
    ensures ((wx + wy) / (tx + ty) / 12.0) * (tx + ty) == (wx / tx / 12.0) * tx + (wy / ty / 12.0) * ty
  {
    LifeTimes(wx, tx);
    LifeTimes(wy, ty);
    LifeTimes(wx + wy, tx + ty);
  }

  lemma {:induction false} LifeTimes(w: real, t: real)
    requires t > 0.0
    ensures (w / t / 12.0) * t == w / 12.0
  {
    assert (w / t) * t == w;
  }

  /** The average life of two classes together is the mean of theirs, weighted by principal. */
  lemma {:induction false} LifeOfBoth(x: seq<Flow>, y: seq<Flow>)
    requires |x| == |y| && PrincipalOf(x) > 0.0 && PrincipalOf(y) > 0.0
    ensures Wal(Together(x, y)) * (PrincipalOf(x) + PrincipalOf(y)) == Wal(x) * PrincipalOf(x) + Wal(y) * PrincipalOf(y)
  {
    hide Weighted, PrincipalOf;
    TotalsAdd(x, y);
    MeanOfLives(Weighted(x), PrincipalOf(x), Weighted(y), PrincipalOf(y));
    LifeIs(Together(x, y), Weighted(x) + Weighted(y), PrincipalOf(x) + PrincipalOf(y));
    LifeIs(x, Weighted(x), PrincipalOf(x));
    LifeIs(y, Weighted(y), PrincipalOf(y));
  }
}
