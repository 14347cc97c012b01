/** How a deal ends: what may be left of the bonds, and exactly when recoveries come too late for them. */
module Settlement {
  import opened RealPowers
  import opened Waterfall
  import opened Seniority
  import opened Deal
  import Pool

  lemma {:induction false} OneAtMostTotal(ts: Stack, i: nat)
    requires Solid(ts) && i < |ts|
    ensures ts[i].bal <= Total(ts)
  {
    var n := |ts| - 1;
    NothingLeft(ts[..n]);
    if i < n {
      OneAtMostTotal(ts[..n], i);
    }
  }

  /** What may be left of the bonds when the pool is done: the stopping balance, the tolerances of the
      loss loop, and the recoveries that were still on their way. */
  function Slack(t: Pool.Terms, balance: real, months: nat): real
    requires months == 0 || months <= t.months
  {
    Pool.STOP + Pool.Waiting(Pool.After(t, balance, months).pending) + months as real * EPS
  }

  /** The run ends with every class repaid or written down up to that slack. */
  lemma {:induction false} EndsSettled(t: Pool.Terms, balance: real, rows: seq<Pool.Row>, ts: Stack, i: nat)
    requires Pool.IsRun(t, balance, rows) && t.Sane() && balance >= 0.0 && t.months >= 1
    requires FreshStack(ts) && Total(ts) <= balance && i < |ts|
    ensures var (b, slack) := (Run(ts, rows)[i], Slack(t, balance, |rows|));
            && 0.0 <= b.bal <= slack
            && ts[i].orig - slack <= PrincipalOf(b.flows) + b.writedown <= ts[i].orig
  {
    hide Run, Total, Pool.After, PrincipalOf, Pool.RowOf;
    assert rows[..|rows|] == rows;
    BondsStayBacked(t, balance, rows, ts, |rows|);
    Pool.RunEndsAtStop(t, balance, rows);
    RowsAreCash(t, balance, rows);
    RunKeepsSolid(ts, rows);
    OneAtMostTotal(Run(ts, rows), i);
    FaceIsAccountedFor(ts, rows, i);
  }

  // ----- when nothing is left waiting

  lemma {:induction false} DeferredPositive(t: Pool.Terms, balance: real, first: nat, last: nat)
    requires 1 <= first <= last <= t.months
    requires t.Sane() && t.mdr > 0.0 && t.severity < 1.0
    requires forall k :: first - 1 <= k < last ==> Pool.After(t, balance, k).bal > 0.0
    ensures Pool.Waiting(Pool.Deferred(t, balance, first, last)) > 0.0
    decreases last
  {
    hide Pool.After, Pool.Recovered;
    var front := Pool.Deferred(t, balance, first, last - 1);
    var due := Pool.Recovered(t, Pool.After(t, balance, last - 1).bal);
    assert (front + [Pool.Recovery(last + t.lag, due)])[..|front|] == front;
    RecoversSome(t, Pool.After(t, balance, last - 1).bal);
    if first < last {
      DeferredPositive(t, balance, first, last - 1);
    } else {
      assert front == [];
    }
  }

  lemma {:induction false} RecoversSome(t: Pool.Terms, bal: real)
    requires t.mdr > 0.0 && t.severity < 1.0 && bal > 0.0
    ensures Pool.Recovered(t, bal) > 0.0
  {
    MulPositive(bal, t.mdr);
    MulPositive(bal * t.mdr, 1.0 - t.severity);
  }

  lemma {:induction false} RecoversNothing(t: Pool.Terms, bal: real)
    requires t.mdr == 0.0 || t.severity == 1.0
    ensures Pool.Recovered(t, bal) == 0.0
  {
    if t.mdr == 0.0 {
      MulOfZero(t.mdr, bal);
      MulOfZero(bal * t.mdr, 1.0 - t.severity);
    } else {
      MulOfZero(1.0 - t.severity, bal * t.mdr);
    }
  }

  lemma {:induction false} DeferredNothing(t: Pool.Terms, balance: real, first: nat, last: nat)
    requires 1 <= first && (last == 0 || last <= t.months) && (t.mdr == 0.0 || t.severity == 1.0)
    ensures Pool.Waiting(Pool.Deferred(t, balance, first, last)) == 0.0
    decreases last
  {
    hide Pool.After, Pool.Recovered;
    if first <= last {
      var front := Pool.Deferred(t, balance, first, last - 1);
      var due := Pool.Recovered(t, Pool.After(t, balance, last - 1).bal);
      assert (front + [Pool.Recovery(last + t.lag, due)])[..|front|] == front;
      RecoversNothing(t, Pool.After(t, balance, last - 1).bal);
      DeferredNothing(t, balance, first, last - 1);
    }
  }

  /** When the pool is done no recovery is still on its way exactly when there is no lag, nothing is ever
      recovered, or there is no pool to speak of. */
  lemma {:induction false} NothingWaitsExactlyWhen(t: Pool.Terms, balance: real, rows: seq<Pool.Row>)
    requires Pool.IsRun(t, balance, rows) && t.Sane() && balance >= 0.0 && t.months >= 1
    ensures Pool.Waiting(Pool.After(t, balance, |rows|).pending) == 0.0
            <==> t.lag <= 0 || t.mdr == 0.0 || t.severity == 1.0 || balance <= Pool.STOP
  {
    hide Pool.RowOf, Pool.Next, Pool.Deferred, Pool.Waiting, Pool.Terms.Sane;
    var n := |rows|;
    NoneWaiting();
    RunStarts(t, balance, rows);
    if t.lag <= 0 {
      Pool.NoLagNoQueue(t, balance, n);
    } else if n > 0 {
      Pool.QueueIsLastMonths(t, balance, n);
      var first: nat := if n > t.lag then n - t.lag + 1 else 1;
      if t.mdr == 0.0 || t.severity == 1.0 {
        DeferredNothing(t, balance, first, n);
      } else {
        RatesApart(t);
        forall k | first - 1 <= k < n ensures Pool.After(t, balance, k).bal > 0.0 {
          assert rows[k] == Pool.RowOf(t, k + 1, Pool.After(t, balance, k));
        }
        DeferredPositive(t, balance, first, n);
      }
    }
  }

  lemma {:induction false} RatesApart(t: Pool.Terms)
    requires t.Sane() && t.mdr != 0.0 && t.severity != 1.0
    ensures t.mdr > 0.0 && t.severity < 1.0
  {
  }

  lemma {:induction false} NoneWaiting()
    ensures Pool.Waiting([]) == 0.0
  {
  }

  /** There is a first row exactly when the pool opens above the stopping balance. */
  lemma {:induction false} RunStarts(t: Pool.Terms, balance: real, rows: seq<Pool.Row>)
    requires Pool.IsRun(t, balance, rows) && t.months >= 1
    ensures rows == [] <==> balance <= Pool.STOP
    ensures rows == [] ==> Pool.After(t, balance, |rows|) == Pool.State(balance, [])
  {
    hide Pool.RowOf, Pool.Next;
    assert Pool.After(t, balance, 0) == Pool.State(balance, []);
  }

  /** The slack that EndsSettled allows is down to the two tolerances of the code exactly then. */
  lemma {:induction false} OnlyTolerancesLeftExactlyWhen(t: Pool.Terms, balance: real, rows: seq<Pool.Row>)
    requires Pool.IsRun(t, balance, rows) && t.Sane() && balance >= 0.0 && t.months >= 1
    ensures Slack(t, balance, |rows|) == Pool.STOP + |rows| as real * EPS
            <==> t.lag <= 0 || t.mdr == 0.0 || t.severity == 1.0 || balance <= Pool.STOP
  {
    hide Pool.IsRun, Pool.After, Pool.Waiting, Pool.Terms.Sane;
    NothingWaitsExactlyWhen(t, balance, rows);
    RunLength(t, balance, rows);
  }

  lemma {:induction false} RunLength(t: Pool.Terms, balance: real, rows: seq<Pool.Row>)
    requires Pool.IsRun(t, balance, rows)
    ensures |rows| == 0 || |rows| <= t.months
  {
  }

  // ----- bonds do not fall faster than their backing

  ghost predicate NoNegativeCoupon(ts: Stack) {
    forall i :: 0 <= i < |ts| ==> ts[i].coupon >= 0.0
  }

  /** The interest the pool has collected. */
  function Collected(rows: seq<Pool.Row>): real {
    if rows == [] then 0.0 else Collected(rows[..|rows| - 1]) + rows[|rows| - 1].interest
  }

  lemma {:induction false} DueNotNegative(b: Bond)
    requires b.bal >= 0.0 && b.coupon >= 0.0
    ensures b.Due() >= 0.0
  {
    MulNotNegative(b.bal, b.coupon);
  }

  lemma {:induction false} InterestTakesFromCash(ts: Stack, cash: real)
    requires forall i :: 0 <= i < |ts| ==> ts[i].Due() >= 0.0
    requires cash >= 0.0
    ensures 0.0 <= PayInterest(ts, cash).1 <= cash
  {
    hide Bond.Due;
    if ts != [] {
      InterestTakesFromCash(ts[..|ts| - 1], cash);
    }
  }

  /** A month lowers the stack by no more than the row's interest, principal and loss. */
  lemma {:induction false} MonthTotalAtLeast(ts: Stack, row: Pool.Row)
    requires Solid(ts) && CashRow(row) && NoNegativeCoupon(ts)
    ensures Total(Month(ts, row)) >= Total(ts) - row.interest - row.principal - row.loss
  {
    hide Bond.Due, PayInterest, PayPrincipal, WriteDown, Total, Solid, NoNegativeCoupon;
    DuesNotNegative(ts);
    var (interest, excess) := PayInterest(ts, row.interest);
    InterestTakesFromCash(ts, row.interest);
    PrincipalRetires(ts, interest, row.principal + excess);
    MonthKeepsSolid(ts, row);
    LossIsAbsorbed(AfterPrincipal(ts, row), row.loss);
  }

  lemma {:induction false} DuesNotNegative(ts: Stack)
    requires Solid(ts) && NoNegativeCoupon(ts)
    ensures forall i :: 0 <= i < |ts| ==> ts[i].Due() >= 0.0
  {
    hide Bond.Due;
    forall i | 0 <= i < |ts| ensures ts[i].Due() >= 0.0 {
      DueNotNegative(ts[i]);
    }
  }

  lemma {:induction false} RunKeepsCoupons(ts: Stack, rows: seq<Pool.Row>)
    requires NoNegativeCoupon(ts)
    ensures NoNegativeCoupon(Run(ts, rows))
  {
    hide Run;
    forall i | 0 <= i < |ts| ensures Run(ts, rows)[i].coupon >= 0.0 {
      RunShape(ts, rows, i);
    }
  }

  /** What backed the bonds and has gone from the pool and its queue is all that can have gone from the
      bonds, interest apart: recoveries that wait are owed still. */
  lemma {:induction false} BondsFallNoFaster(t: Pool.Terms, balance: real, rows: seq<Pool.Row>, ts: Stack, k: nat)
    requires Pool.IsRun(t, balance, rows) && t.Sane() && balance >= 0.0 && k <= |rows|
    requires Solid(ts) && NoNegativeCoupon(ts)
    ensures k == 0 || k <= t.months
    ensures Total(Run(ts, rows[..k])) + Collected(rows[..k]) >= Total(ts) - balance + Backing(t, balance, k)
  {
    hide *;
    RunLength(t, balance, rows);
    if k == 0 {
      assert rows[..0] == [];
      RunOfNothing(ts);
      FullBacking(t, balance);
      NothingCollected();
    } else {
      BondsFallNoFaster(t, balance, rows, ts, k - 1);
      RowsAreCash(t, balance, rows);
      RunUnfolds(ts, rows, k - 1);
      CashPrefix(rows, k - 1);
      RunKeepsSolid(ts, rows[..k - 1]);
      RunKeepsCoupons(ts, rows[..k - 1]);
      RowOfRun(t, balance, rows, k - 1);
      MonthTotalAtLeast(Run(ts, rows[..k - 1]), rows[k - 1]);
      BackingMoves(t, balance, k);
      MoreCollected(rows, k);
    }
  }

  lemma {:induction false} NothingCollected()
    ensures Collected([]) == 0.0
  {
  }

  lemma {:induction false} MoreCollected(rows: seq<Pool.Row>, k: nat)
    requires 0 < k <= |rows|
    ensures Collected(rows[..k]) == Collected(rows[..k - 1]) + rows[k - 1].interest
  {
    assert rows[..k][..k - 1] == rows[..k - 1];
  }

  lemma {:induction false} NoRateNoInterest(t: Pool.Terms, balance: real, rows: seq<Pool.Row>, k: nat)
    requires Pool.IsRun(t, balance, rows) && t.rate == 0.0 && k <= |rows|
    ensures Collected(rows[..k]) == 0.0
  {
    hide Pool.After, Pool.RowOf;
    if k > 0 {
      NoRateNoInterest(t, balance, rows, k - 1);
      assert rows[..k][..k - 1] == rows[..k - 1];
      RowInterest(t, k, Pool.After(t, balance, k - 1));
    }
  }

  lemma {:induction false} RowInterest(t: Pool.Terms, m: int, s: Pool.State)
    requires t.rate == 0.0 && m <= t.months
    ensures Pool.RowOf(t, m, s).interest == 0.0
  {
    hide Pool.Scheduled, Pool.Prepaid, Pool.Performing, Pool.SumDue;
    MulOfZero(t.rate, Pool.Performing(t, s.bal));
  }

  /** Without interest, bonds that the pool just covers stay within the tolerances of their backing; so a
      recovery that is still on its way at the end is neither repaid to any class nor written off any. */
  lemma {:induction false} LateRecoveriesStayOwed(t: Pool.Terms, balance: real, rows: seq<Pool.Row>, ts: Stack)
    requires Pool.IsRun(t, balance, rows) && t.Sane() && t.rate == 0.0 && balance >= 0.0
    requires Solid(ts) && NoNegativeCoupon(ts) && Total(ts) == balance
    ensures |rows| == 0 || |rows| <= t.months
    ensures Backing(t, balance, |rows|) <= Total(Run(ts, rows)) <= Backing(t, balance, |rows|) + |rows| as real * EPS
  {
    RunLength(t, balance, rows);
    hide Run, Total, Backing, Pool.IsRun, Collected, Solid, NoNegativeCoupon, Pool.Terms.Sane;
    assert rows[..|rows|] == rows;
    BondsFallNoFaster(t, balance, rows, ts, |rows|);
    NoRateNoInterest(t, balance, rows, |rows|);
    BondsStayBacked(t, balance, rows, ts, |rows|);
  }

  // ----- an instance

  const LATE := Pool.Terms(0.0, 1, 0.0, 1.0, 0.0, 1)

  lemma {:induction false} LateBacking(rows: seq<Pool.Row>)
    requires Pool.IsRun(LATE, 100.0, rows)
    ensures |rows| == 1 && Backing(LATE, 100.0, 1) >= 100.0
  {
    hide Pool.RowOf, Pool.Factor;
    RunStarts(LATE, 100.0, rows);
    Pool.QueueIsLastMonths(LATE, 100.0, 1);
    Pool.BalanceClosedForm(LATE, 100.0, 1);
    var queue := Pool.Deferred(LATE, 100.0, 1, 1);
    assert Pool.Deferred(LATE, 100.0, 1, 0) == [];
    assert Pool.Recovered(LATE, 100.0) == 100.0;
    assert queue == [Pool.Recovery(2, 100.0)];
    assert queue[..0] == [];
  }

  /** Here the whole pool defaults, all of it is recovered a month later, and the bond is neither repaid nor
      written down. */
  lemma {:induction false} LateRecoveryReachesNobody(rows: seq<Pool.Row>)
    requires Pool.IsRun(LATE, 100.0, rows)
    ensures var b := Run([Bond(100.0, 100.0, 0.0, 0.0, [])], rows)[0]; b.bal == 100.0 && b.writedown == 0.0
  {
    hide Run, Backing, Pool.IsRun, CashRows;
    var ts := [Bond(100.0, 100.0, 0.0, 0.0, [])];
    LateBacking(rows);
    OneBond(ts[0]);
    LateRecoveriesStayOwed(LATE, 100.0, rows, ts);
    OneBond(Run(ts, rows)[0]);
    assert Run(ts, rows) == [Run(ts, rows)[0]];
    RowsAreCash(LATE, 100.0, rows);
    FaceIsAccountedFor(ts, rows, 0);
    PrincipalNotNegative(ts, rows, 0);
    NoPrincipalAtAll(Run(ts, rows)[0].flows);
    WritedownsNotNegative(ts, rows, 0);
  }

  lemma {:induction false} OneBond(b: Bond)
    ensures Total([b]) == b.bal
  {
    assert [b][..0] == [];
  }
}
