/** What a whole run of the waterfall guarantees to the classes of a stack, whatever the rows. */
module Seniority {
  import opened RealPowers
  import opened Waterfall
  import Pool

  function PrincipalOf(flows: seq<Flow>): real {
    if flows == [] then 0.0 else PrincipalOf(flows[..|flows| - 1]) + flows[|flows| - 1].principal
  }

  ghost predicate NoNegativePrincipal(flows: seq<Flow>) {
    forall k :: 0 <= k < |flows| ==> flows[k].principal >= 0.0
  }

  lemma {:induction false} PrincipalOfSnoc(flows: seq<Flow>, f: Flow)
    ensures PrincipalOf(flows + [f]) == PrincipalOf(flows) + f.principal
  {
    assert (flows + [f])[..|flows|] == flows;
  }

  lemma {:induction false} NoPrincipalAtAll(flows: seq<Flow>)
    requires NoNegativePrincipal(flows)
    ensures PrincipalOf(flows) >= 0.0
    ensures PrincipalOf(flows) == 0.0 ==> forall k :: 0 <= k < |flows| ==> flows[k].principal == 0.0
  {
    if flows != [] {
      NoPrincipalAtAll(flows[..|flows| - 1]);
      forall k | 0 <= k < |flows| && PrincipalOf(flows) == 0.0 ensures flows[k].principal == 0.0 {
        if k < |flows| - 1 {
          assert flows[k] == flows[..|flows| - 1][k];
        }
      }
    }
  }

  // ----- one month, class by class

  function InterestPaid(ts: Stack, row: Pool.Row, i: nat): real
    requires i < |ts|
  {
    PayInterest(ts, row.interest).0[i]
  }

  function PrincipalPaid(ts: Stack, row: Pool.Row, i: nat): real
    requires i < |ts|
  {
    ts[i].bal - AfterPrincipal(ts, row)[i].bal
  }

  function LossTaken(ts: Stack, row: Pool.Row, i: nat): real
    requires i < |ts|
  {
    AfterPrincipal(ts, row)[i].bal - Month(ts, row)[i].bal
  }

  lemma {:induction false} LossShape(ts: Stack, loss: real, i: nat)
    requires i < |ts|
    ensures var r := WriteDown(ts, loss).0; r[i] == Hit(ts[i], ts[i].bal - r[i].bal)
  {
    var r := WriteDown(ts, loss).0;
    assert r[1..] == WriteDown(ts[1..], loss).0;
    if i > 0 {
      LossShape(ts[1..], loss, i - 1);
    }
  }

  /** A month books one flow, lowers the balance by principal and loss, and adds the loss to the
      write-down: for every row, sane or not. */
  lemma {:induction false} MonthShape(ts: Stack, row: Pool.Row, i: nat)
    requires i < |ts|
    ensures var p, l := PrincipalPaid(ts, row, i), LossTaken(ts, row, i);
            Month(ts, row)[i] == Bond(ts[i].orig, ts[i].bal - p - l, ts[i].coupon, ts[i].writedown + l,
                                      ts[i].flows + [Flow(InterestPaid(ts, row, i), p)])
  {
    hide Bond.Due, PayInterest, PayPrincipal, WriteDown;
    var (interest, excess) := PayInterest(ts, row.interest);
    PrincipalAt(ts, interest, row.principal + excess, i);
    LossShape(AfterPrincipal(ts, row), row.loss, i);
  }

  lemma {:induction false} MonthKeepsSolid(ts: Stack, row: Pool.Row)
    requires Solid(ts) && CashRow(row)
    ensures Solid(AfterPrincipal(ts, row)) && Solid(Month(ts, row))
    ensures forall i :: 0 <= i < |ts| ==> PrincipalPaid(ts, row, i) >= 0.0 && LossTaken(ts, row, i) >= 0.0
  {
    hide Bond.Due, PayInterest, PayPrincipal, WriteDown;
    var (interest, excess) := PayInterest(ts, row.interest);
    var cash := row.principal + excess;
    InterestLeavesCash(ts, row.interest);
    var mid := AfterPrincipal(ts, row);
    forall i | 0 <= i < |ts| ensures 0.0 <= mid[i].bal <= ts[i].bal {
      PrincipalAt(ts, interest, cash, i);
      PrincipalCashShrinks(ts, interest, cash, i, i);
    }
    forall i | 0 <= i < |ts| ensures 0.0 <= Month(ts, row)[i].bal <= mid[i].bal {
      LossAt(mid, row.loss, i);
    }
  }

  /** In one month, a class with a balance left shuts off principal below it, and a class that takes
      a loss finds every class below it already at zero. */
  lemma {:induction false} MonthSeniority(ts: Stack, row: Pool.Row, i: nat, j: nat)
    requires i < j < |ts| && Solid(ts) && CashRow(row)
    ensures Month(ts, row)[i].bal > 0.0 ==> PrincipalPaid(ts, row, j) == 0.0
    ensures LossTaken(ts, row, i) > 0.0 ==> PrincipalPaid(ts, row, j) == 0.0 && Month(ts, row)[j].bal == 0.0
  {
    hide Bond.Due, PayInterest, PayPrincipal, WriteDown;
    var (interest, excess) := PayInterest(ts, row.interest);
    var cash := row.principal + excess;
    InterestLeavesCash(ts, row.interest);
    MonthKeepsSolid(ts, row);
    if AfterPrincipal(ts, row)[i].bal > 0.0 {
      PrincipalIsSequential(ts, interest, cash, i, j);
    }
    LossAt(AfterPrincipal(ts, row), row.loss, i);
  }

  // ----- whole runs

  lemma {:induction false} RunUnfolds(ts: Stack, rows: seq<Pool.Row>, k: nat)
    requires k < |rows|
    ensures Run(ts, rows[..k + 1]) == Month(Run(ts, rows[..k]), rows[k])
  {
    assert rows[..k + 1][..k] == rows[..k];
  }

  lemma {:induction false} RunKeepsSolid(ts: Stack, rows: seq<Pool.Row>)
    requires Solid(ts) && CashRows(rows)
    ensures Solid(Run(ts, rows))
  {
    hide Month;
    if rows != [] {
      RunKeepsSolid(ts, rows[..|rows| - 1]);
      MonthKeepsSolid(Run(ts, rows[..|rows| - 1]), rows[|rows| - 1]);
    }
  }

  /** Face, coupon and the length of the flow list after a run. */
  lemma {:induction false} RunShape(ts: Stack, rows: seq<Pool.Row>, i: nat)
    requires i < |ts|
    ensures var b := Run(ts, rows)[i];
            b.orig == ts[i].orig && b.coupon == ts[i].coupon && |b.flows| == |ts[i].flows| + |rows|
  {
    hide Month, PrincipalPaid, LossTaken, InterestPaid;
    if rows != [] {
      RunShape(ts, rows[..|rows| - 1], i);
      MonthShape(Run(ts, rows[..|rows| - 1]), rows[|rows| - 1], i);
    }
  }

  /** Every face is accounted for: principal received, write-down and balance, for all rows whatever. */
  lemma {:induction false} FaceIsAccountedFor(ts: Stack, rows: seq<Pool.Row>, i: nat)
    requires FreshStack(ts) && i < |ts|
    ensures var b := Run(ts, rows)[i]; ts[i].orig == PrincipalOf(b.flows) + b.writedown + b.bal
  {
    hide Month, PrincipalPaid, LossTaken, InterestPaid;
    if rows != [] {
      var n := |rows| - 1;
      var before := Run(ts, rows[..n]);
      FaceIsAccountedFor(ts, rows[..n], i);
      MonthShape(before, rows[n], i);
      PrincipalOfSnoc(before[i].flows, Flow(InterestPaid(before, rows[n], i), PrincipalPaid(before, rows[n], i)));
    }
  }

  /** What seniority means between two classes at one moment. */
  ghost predicate Ranked(senior: Bond, junior: Bond) {
    && (senior.bal > 0.0 ==> PrincipalOf(junior.flows) == 0.0)
    && (senior.writedown > 0.0 ==> PrincipalOf(junior.flows) == 0.0 && junior.bal == 0.0)
    && senior.writedown >= 0.0
    && NoNegativePrincipal(junior.flows)
  }

  lemma {:induction false} RunKeepsRanks(ts: Stack, rows: seq<Pool.Row>, i: nat, j: nat)
    requires FreshStack(ts) && CashRows(rows) && i < j < |ts|
    ensures Ranked(Run(ts, rows)[i], Run(ts, rows)[j])
  {
    hide Month, PrincipalPaid, LossTaken, InterestPaid, PrincipalOf;
    if rows == [] {
      NoPrincipalAtAll(ts[j].flows);
      EmptyPrincipal();
    } else {
      var n := |rows| - 1;
      var before, row := Run(ts, rows[..n]), rows[n];
      RunKeepsRanks(ts, rows[..n], i, j);
      RunKeepsSolid(ts, rows[..n]);
      MonthKeepsSolid(before, row);
      MonthShape(before, row, i);
      MonthShape(before, row, j);
      MonthSeniority(before, row, i, j);
      PrincipalOfSnoc(before[j].flows, Flow(InterestPaid(before, row, j), PrincipalPaid(before, row, j)));
    }
  }

  lemma {:induction false} EmptyPrincipal()
    ensures PrincipalOf([]) == 0.0
  {
  }

  /** A class is written down only when every class junior to it has received no principal in any
      month and has been written down by its full face. */
  lemma {:induction false} SubordinationProtects(ts: Stack, rows: seq<Pool.Row>, i: nat, j: nat)
    requires FreshStack(ts) && CashRows(rows) && i < j < |ts|
    requires Run(ts, rows)[i].writedown > 0.0
    ensures var junior := Run(ts, rows)[j];
            && junior.writedown == ts[j].orig && junior.bal == 0.0
            && forall k :: 0 <= k < |junior.flows| ==> junior.flows[k].principal == 0.0
  {
    hide Run, PrincipalOf;
    RunKeepsRanks(ts, rows, i, j);
    FaceIsAccountedFor(ts, rows, j);
    NoPrincipalAtAll(Run(ts, rows)[j].flows);
  }

  // ----- losses against the faces below

  function TotalLoss(rows: seq<Pool.Row>): real {
    if rows == [] then 0.0 else TotalLoss(rows[..|rows| - 1]) + rows[|rows| - 1].loss
  }

  function TotalWritedown(ts: Stack): real {
    if ts == [] then 0.0 else TotalWritedown(ts[1..]) + ts[0].writedown
  }

  function TotalFace(ts: Stack): real {
    if ts == [] then 0.0 else TotalFace(ts[1..]) + ts[0].orig
  }

  lemma {:induction false} WritedownMatchesDrop(ts: Stack, loss: real)
    requires Solid(ts) && loss >= 0.0
    ensures TotalWritedown(WriteDown(ts, loss).0) == TotalWritedown(ts) + (loss - WriteDown(ts, loss).1)
  {
    if ts != [] {
      WritedownMatchesDrop(ts[1..], loss);
      assert WriteDown(ts, loss).0[1..] == WriteDown(ts[1..], loss).0;
    }
  }

  lemma {:induction false} PrincipalLeavesWritedown(ts: Stack, us: Stack)
    requires |ts| == |us| && forall i :: 0 <= i < |ts| ==> us[i].writedown == ts[i].writedown
    ensures TotalWritedown(us) == TotalWritedown(ts)
  {
    if ts != [] {
      PrincipalLeavesWritedown(ts[1..], us[1..]);
    }
  }

  lemma {:induction false} WritedownsWithinLosses(ts: Stack, rows: seq<Pool.Row>)
    requires FreshStack(ts) && CashRows(rows)
    ensures TotalWritedown(Run(ts, rows)) <= TotalLoss(rows)
  {
    hide Bond.Due, PayInterest, PayPrincipal, WriteDown, Run;
    if rows == [] {
      RunOfNothing(ts);
      FreshHasNoWritedown(ts);
    } else {
      var n := |rows| - 1;
      var before, row := Run(ts, rows[..n]), rows[n];
      RunUnfolds(ts, rows, n);
      assert rows[..n + 1] == rows;
      WritedownsWithinLosses(ts, rows[..n]);
      RunKeepsSolid(ts, rows[..n]);
      MonthKeepsSolid(before, row);
      var mid := AfterPrincipal(before, row);
      forall i | 0 <= i < |ts| ensures mid[i].writedown == before[i].writedown {
        PrincipalAt(before, PayInterest(before, row.interest).0,
                    row.principal + PayInterest(before, row.interest).1, i);
      }
      PrincipalLeavesWritedown(before, mid);
      WritedownMatchesDrop(mid, row.loss);
      LossIsAbsorbed(mid, row.loss);
    }
  }

  lemma {:induction false} RunOfNothing(ts: Stack)
    ensures Run(ts, []) == ts
  {
  }

  lemma {:induction false} FreshHasNoWritedown(ts: Stack)
    requires FreshStack(ts)
    ensures TotalWritedown(ts) == 0.0
  {
    if ts != [] {
      FreshHasNoWritedown(ts[1..]);
    }
  }

  lemma {:induction false} WritedownsFromHere(ts: Stack, us: Stack, i: nat)
    requires |ts| == |us| && i < |ts|
    requires forall j :: 0 <= j < |us| ==> us[j].writedown >= 0.0
    requires forall j :: i < j < |us| ==> us[j].writedown == ts[j].orig
    ensures TotalWritedown(us) >= us[i].writedown + TotalFace(ts[i + 1..])
    decreases |ts|
  {
    if i > 0 {
      WritedownsFromHere(ts[1..], us[1..], i - 1);
      assert ts[1..][i..] == ts[i + 1..];
    } else {
      WritedownsAreFaces(ts[1..], us[1..]);
    }
  }

  lemma {:induction false} WritedownsAreFaces(ts: Stack, us: Stack)
    requires |ts| == |us| && forall j :: 0 <= j < |us| ==> us[j].writedown == ts[j].orig
    ensures TotalWritedown(us) == TotalFace(ts)
  {
    if ts != [] {
      WritedownsAreFaces(ts[1..], us[1..]);
    }
  }

  lemma {:induction false} WritedownsNotNegative(ts: Stack, rows: seq<Pool.Row>, i: nat)
    requires FreshStack(ts) && CashRows(rows) && i < |ts|
    ensures Run(ts, rows)[i].writedown >= 0.0
  {
    hide Month, PrincipalPaid, LossTaken, InterestPaid;
    if rows != [] {
      var n := |rows| - 1;
      WritedownsNotNegative(ts, rows[..n], i);
      RunKeepsSolid(ts, rows[..n]);
      MonthKeepsSolid(Run(ts, rows[..n]), rows[n]);
      MonthShape(Run(ts, rows[..n]), rows[n], i);
    }
  }

  /** Losses up to the faces below a class leave it untouched. */
  lemma {:induction false} JuniorFacesAbsorbLosses(ts: Stack, rows: seq<Pool.Row>, i: nat)
    requires FreshStack(ts) && CashRows(rows) && i < |ts|
    requires TotalLoss(rows) <= TotalFace(ts[i + 1..])
    ensures Run(ts, rows)[i].writedown == 0.0
  {
    hide Run, TotalLoss, TotalFace, TotalWritedown;
    var end := Run(ts, rows);
    forall j | 0 <= j < |ts| ensures end[j].writedown >= 0.0 {
      WritedownsNotNegative(ts, rows, j);
    }
    if end[i].writedown > 0.0 {
      forall j | i < j < |ts| ensures end[j].writedown == ts[j].orig {
        SubordinationProtects(ts, rows, i, j);
      }
      WritedownsFromHere(ts, end, i);
      WritedownsWithinLosses(ts, rows);
    }
  }

  // ----- the order in which classes are retired

  /** A balance of zero stays zero. */
  lemma {:induction false} RetiredStaysRetired(ts: Stack, rows: seq<Pool.Row>, i: nat, m: nat, n: nat)
    requires Solid(ts) && CashRows(rows) && i < |ts| && m <= n <= |rows|
    ensures Run(ts, rows[..n])[i].bal <= Run(ts, rows[..m])[i].bal
    decreases n
  {
    hide Month, Run, PrincipalPaid, LossTaken, InterestPaid;
    if m < n {
      RetiredStaysRetired(ts, rows, i, m, n - 1);
      RunUnfolds(ts, rows, n - 1);
      RunKeepsSolid(ts, rows[..n - 1]);
      MonthKeepsSolid(Run(ts, rows[..n - 1]), rows[n - 1]);
      MonthShape(Run(ts, rows[..n - 1]), rows[n - 1], i);
    }
  }

  /** Flow k of a fresh class is what month k paid it. */
  lemma {:induction false} FlowOfMonth(ts: Stack, rows: seq<Pool.Row>, i: nat, k: nat)
    requires FreshStack(ts) && i < |ts| && k < |rows|
    ensures |Run(ts, rows)[i].flows| == |rows|
    ensures var before := Run(ts, rows[..k]);
            Run(ts, rows)[i].flows[k]
            == Flow(InterestPaid(before, rows[k], i), PrincipalPaid(before, rows[k], i))
    decreases |rows|
  {
    hide Month, Run, PrincipalPaid, LossTaken, InterestPaid;
    var n := |rows| - 1;
    RunShape(ts, rows, i);
    RunShape(ts, rows[..n], i);
    RunUnfolds(ts, rows, n);
    assert rows[..n + 1] == rows;
    MonthShape(Run(ts, rows[..n]), rows[n], i);
    if k < n {
      FlowOfMonth(ts, rows[..n], i, k);
      assert rows[..n][..k] == rows[..k];
    }
  }

  /** From the month in which a class first receives principal, every class above it has no balance. */
  lemma {:induction false} SeniorsRetiredFirst(ts: Stack, rows: seq<Pool.Row>, i: nat, j: nat, k: nat, n: nat)
    requires FreshStack(ts) && CashRows(rows) && i < j < |ts| && k < n <= |rows|
    requires |Run(ts, rows)[j].flows| == |rows| && Run(ts, rows)[j].flows[k].principal > 0.0
    ensures Run(ts, rows[..n])[i].bal == 0.0
  {
    hide Month, Run, PrincipalPaid, LossTaken, InterestPaid;
    FlowOfMonth(ts, rows, j, k);
    RunKeepsSolid(ts, rows[..k]);
    RunKeepsSolid(ts, rows[..n]);
    RunKeepsSolid(ts, rows[..k + 1]);
    MonthSeniority(Run(ts, rows[..k]), rows[k], i, j);
    RunUnfolds(ts, rows, k);
    RetiredStaysRetired(ts, rows, i, k + 1, n);
  }

  /** After a class has received principal, no class above it receives any more. */
  lemma {:induction false} NoPrincipalAfterJunior(ts: Stack, rows: seq<Pool.Row>, i: nat, j: nat, k: nat, n: nat)
    requires FreshStack(ts) && CashRows(rows) && i < j < |ts| && k < n < |rows|
    requires |Run(ts, rows)[j].flows| == |rows| == |Run(ts, rows)[i].flows|
    requires Run(ts, rows)[j].flows[k].principal > 0.0
    ensures Run(ts, rows)[i].flows[n].principal == 0.0
  {
    hide Month, Run, PrincipalPaid, LossTaken, InterestPaid;
    SeniorsRetiredFirst(ts, rows, i, j, k, n);
    FlowOfMonth(ts, rows, i, n);
    RunKeepsSolid(ts, rows[..n]);
    MonthKeepsSolid(Run(ts, rows[..n]), rows[n]);
    MonthShape(Run(ts, rows[..n]), rows[n], i);
  }

  // ----- weighted average life

  function Weighted(flows: seq<Flow>): real {
    if flows == [] then 0.0
    else Weighted(flows[..|flows| - 1]) + |flows| as real * flows[|flows| - 1].principal
  }

  /** Weighted-average life in years. */
  function Wal(flows: seq<Flow>): real {
    var tot := PrincipalOf(flows);
    if tot <= 0.0 then 0.0 else Weighted(flows) / tot / 12.0
  }

  lemma {:induction false} FlowsUnfold(flows: seq<Flow>)
    requires NoNegativePrincipal(flows)
    ensures flows == [] ==> Weighted(flows) == 0.0 && PrincipalOf(flows) == 0.0
    ensures flows != [] ==>
              var n := |flows| - 1;
              && NoNegativePrincipal(flows[..n]) && flows[n].principal >= 0.0
              && PrincipalOf(flows) == PrincipalOf(flows[..n]) + flows[n].principal
              && Weighted(flows) == Weighted(flows[..n]) + |flows| as real * flows[n].principal
  {
  }

  lemma {:induction false} NothingPaidAfter(flows: seq<Flow>, m: nat)
    requires NoNegativePrincipal(flows) && forall k :: m < k < |flows| ==> flows[k].principal == 0.0
    ensures Weighted(flows) <= (m + 1) as real * PrincipalOf(flows)
  {
    hide *;
    FlowsUnfold(flows);
    if flows != [] {
      var n := |flows| - 1;
      forall k | m < k < n ensures flows[..n][k].principal == 0.0 {
        assert flows[..n][k] == flows[k];
      }
      NothingPaidAfter(flows[..n], m);
      WeighUp(flows[n].principal, |flows| as real, (m + 1) as real, Weighted(flows[..n]), PrincipalOf(flows[..n]));
    }
  }

  lemma {:induction false} WeighUp(p: real, w: real, m: real, weighted: real, rest: real)
    requires p >= 0.0 && weighted <= m * rest && (w > m ==> p == 0.0)
    ensures weighted + w * p <= m * (rest + p)
  {
    if w <= m {
      MulMonotone(p, w, m);
    } else {
      MulOfZero(p, w);
      MulOfZero(p, m);
    }
    assert m * (rest + p) == m * rest + m * p;
  }

  lemma {:induction false} WeighDown(p: real, w: real, m: real, weighted: real, rest: real)
    requires p >= 0.0 && weighted >= m * rest && (w < m ==> p == 0.0)
    ensures weighted + w * p >= m * (rest + p)
  {
    if w >= m {
      MulMonotone(p, m, w);
    } else {
      MulOfZero(p, w);
      MulOfZero(p, m);
    }
    assert m * (rest + p) == m * rest + m * p;
  }

  lemma {:induction false} NothingPaidBefore(flows: seq<Flow>, m: nat)
    requires NoNegativePrincipal(flows) && forall k :: 0 <= k < m && k < |flows| ==> flows[k].principal == 0.0
    ensures Weighted(flows) >= (m + 1) as real * PrincipalOf(flows)
  {
    hide *;
    FlowsUnfold(flows);
    if flows != [] {
      var n := |flows| - 1;
      forall k | 0 <= k < m && k < n ensures flows[..n][k].principal == 0.0 {
        assert flows[..n][k] == flows[k];
      }
      NothingPaidBefore(flows[..n], m);
      WeighDown(flows[n].principal, |flows| as real, (m + 1) as real, Weighted(flows[..n]), PrincipalOf(flows[..n]));
    }
  }

  lemma {:induction false} FirstPayment(flows: seq<Flow>) returns (m: nat)
    requires NoNegativePrincipal(flows) && PrincipalOf(flows) > 0.0
    ensures m < |flows| && flows[m].principal > 0.0
    ensures forall k :: 0 <= k < m ==> flows[k].principal == 0.0
  {
    var n := |flows| - 1;
    NoPrincipalAtAll(flows[..n]);
    if PrincipalOf(flows[..n]) > 0.0 {
      m := FirstPayment(flows[..n]);
    } else {
      m := n;
      forall k | 0 <= k < n ensures flows[k].principal == 0.0 {
        assert flows[k] == flows[..n][k];
      }
    }
  }

  lemma {:induction false} QuotientOrder(wi: real, ti: real, wj: real, tj: real, c: real)
    requires ti > 0.0 && tj > 0.0 && wi <= c * ti && wj >= c * tj
    ensures wi / ti <= wj / tj
  {
    assert (wi / ti) * ti == wi;
    CancelPositive(wi / ti, c, ti);
    QuotientBound(c, tj, wj);
  }

  lemma {:induction false} WalOrder(fi: seq<Flow>, fj: seq<Flow>, c: real)
    requires PrincipalOf(fi) > 0.0 && PrincipalOf(fj) > 0.0
    requires Weighted(fi) <= c * PrincipalOf(fi) && Weighted(fj) >= c * PrincipalOf(fj)
    ensures Wal(fi) <= Wal(fj)
  {
    hide PrincipalOf, Weighted;
    QuotientOrder(Weighted(fi), PrincipalOf(fi), Weighted(fj), PrincipalOf(fj), c);
  }

  /** Of two classes that both receive principal, the senior one has the shorter average life. */
  lemma {:induction false} WalFollowsSeniority(ts: Stack, rows: seq<Pool.Row>, i: nat, j: nat)
    requires FreshStack(ts) && CashRows(rows) && i < j < |ts|
    requires PrincipalOf(Run(ts, rows)[i].flows) > 0.0 && PrincipalOf(Run(ts, rows)[j].flows) > 0.0
    ensures Wal(Run(ts, rows)[i].flows) <= Wal(Run(ts, rows)[j].flows)
  {
    hide Run, PrincipalOf, Weighted, Wal;
    var fi, fj := Run(ts, rows)[i].flows, Run(ts, rows)[j].flows;
    RunShape(ts, rows, i);
    RunShape(ts, rows, j);
    PrincipalNotNegative(ts, rows, i);
    PrincipalNotNegative(ts, rows, j);
    var m := FirstPayment(fj);
    forall k | m < k < |fi| ensures fi[k].principal == 0.0 {
      NoPrincipalAfterJunior(ts, rows, i, j, m, k);
    }
    NothingPaidAfter(fi, m);
    NothingPaidBefore(fj, m);
    WalOrder(fi, fj, (m + 1) as real);
  }

  lemma {:induction false} PrincipalNotNegative(ts: Stack, rows: seq<Pool.Row>, i: nat)
    requires FreshStack(ts) && CashRows(rows) && i < |ts|
    ensures NoNegativePrincipal(Run(ts, rows)[i].flows)
  {
    hide Run, PrincipalPaid, InterestPaid;
    RunShape(ts, rows, i);
    forall k | 0 <= k < |rows| ensures Run(ts, rows)[i].flows[k].principal >= 0.0 {
      FlowOfMonth(ts, rows, i, k);
      RunKeepsSolid(ts, rows[..k]);
      MonthKeepsSolid(Run(ts, rows[..k]), rows[k]);
    }
  }
}
