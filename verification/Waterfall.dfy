/** The monthly waterfall over a sequential-pay stack, on values: interest and principal from the
    senior end, losses from the junior end. */
module Waterfall {
  import opened RealPowers
  import Pool

  datatype Flow = Flow(interest: real, principal: real)

  /** What a tranche is worth at one moment; stacks run from senior to junior. */
  datatype Bond = Bond(orig: real, bal: real, coupon: real, writedown: real, flows: seq<Flow>) {
    function Due(): real {
      bal * coupon / 12.0
    }

    ghost predicate Fresh() {
      orig == bal >= 0.0 && writedown == 0.0 && flows == []
    }
  }

  type Stack = seq<Bond>

  /** Loss passed over once what is left of it is this small. */
  const EPS := 0.000000001

  /** Each class's interest, and what is left of the cash. */
  function PayInterest(ts: Stack, cash: real): (r: (seq<real>, real))
    ensures |r.0| == |ts|
  {
    if ts == [] then ([], cash)
    else
      var n := |ts| - 1;
      var (pays, left) := PayInterest(ts[..n], cash);
      var pay := Min(ts[n].Due(), left);
      (pays + [pay], left - pay)
  }

  /** The stack once principal has been paid and the month's flows are booked, and the cash left. */
  function PayPrincipal(ts: Stack, interest: seq<real>, cash: real): (r: (Stack, real))
    requires |interest| == |ts|
    ensures |r.0| == |ts|
  {
    if ts == [] then ([], cash)
    else
      var n := |ts| - 1;
      var (paid, left) := PayPrincipal(ts[..n], interest[..n], cash);
      var pay := Min(ts[n].bal, left);
      (paid + [Paid(ts[n], interest[n], pay)], left - pay)
  }

  function Paid(b: Bond, interest: real, principal: real): Bond {
    b.(bal := b.bal - principal, flows := b.flows + [Flow(interest, principal)])
  }

  function Hit(b: Bond, amount: real): Bond {
    b.(bal := b.bal - amount, writedown := b.writedown + amount)
  }

  /** The stack once losses have been written up from the most junior class, and the loss left. */
  function WriteDown(ts: Stack, loss: real): (r: (Stack, real))
    ensures |r.0| == |ts|
  {
    if ts == [] then ([], loss)
    else
      var (rest, left) := WriteDown(ts[1..], loss);
      if |ts| > 1 && left <= EPS then ([ts[0]] + rest, left)
      else
        var hit := Min(ts[0].bal, left);
        ([Hit(ts[0], hit)] + rest, left - hit)
  }

  function AfterPrincipal(ts: Stack, row: Pool.Row): (r: Stack)
    ensures |r| == |ts|
  {
    var (interest, excess) := PayInterest(ts, row.interest);
    PayPrincipal(ts, interest, row.principal + excess).0
  }

  function Month(ts: Stack, row: Pool.Row): (r: Stack)
    ensures |r| == |ts|
  {
    WriteDown(AfterPrincipal(ts, row), row.loss).0
  }

  function Run(ts: Stack, rows: seq<Pool.Row>): (r: Stack)
    ensures |r| == |ts|
  {
    if rows == [] then ts else Month(Run(ts, rows[..|rows| - 1]), rows[|rows| - 1])
  }

  // ----- what holds of every stack and every row that a deal can produce

  ghost predicate FreshStack(ts: Stack) {
    forall i :: 0 <= i < |ts| ==> ts[i].Fresh()
  }

  ghost predicate Solid(ts: Stack) {
    forall i :: 0 <= i < |ts| ==> ts[i].bal >= 0.0
  }

  ghost predicate CashRow(row: Pool.Row) {
    row.interest >= 0.0 && row.principal >= 0.0 && row.loss >= 0.0
  }

  ghost predicate CashRows(rows: seq<Pool.Row>) {
    forall k :: 0 <= k < |rows| ==> CashRow(rows[k])
  }

  // ----- interest

  /** Interest never takes more than there is, whatever the coupons. */
  lemma {:induction false} InterestLeavesCash(ts: Stack, cash: real)
    requires cash >= 0.0
    ensures PayInterest(ts, cash).1 >= 0.0
  {
    if ts != [] {
      InterestLeavesCash(ts[..|ts| - 1], cash);
    }
  }

  lemma {:induction false} InterestAt(ts: Stack, cash: real, i: nat)
    requires i < |ts|
    ensures PayInterest(ts, cash).0[i] == Min(ts[i].Due(), PayInterest(ts[..i], cash).1)
    ensures PayInterest(ts[..i + 1], cash).1 == PayInterest(ts[..i], cash).1 - PayInterest(ts, cash).0[i]
  {
    var n := |ts| - 1;
    if i < n {
      InterestAt(ts[..n], cash, i);
      assert ts[..n][..i] == ts[..i] && ts[..n][..i + 1] == ts[..i + 1];
    } else {
      assert ts[..i + 1] == ts;
    }
  }

  function TotalDue(ts: Stack): real {
    if ts == [] then 0.0 else TotalDue(ts[..|ts| - 1]) + ts[|ts| - 1].Due()
  }

  /** With no negative amount due: a class and all classes above it are paid in full exactly when
      the cash covers what is due to them together. */
  lemma {:induction false} PaidInFullFromTheTop(ts: Stack, cash: real, n: nat)
    requires n <= |ts| && cash >= 0.0
    requires forall i :: 0 <= i < |ts| ==> ts[i].Due() >= 0.0
    ensures (forall i :: 0 <= i < n ==> PayInterest(ts, cash).0[i] == ts[i].Due())
            <==> TotalDue(ts[..n]) <= cash
    ensures PayInterest(ts[..n], cash).1 == Max(0.0, cash - TotalDue(ts[..n]))
  {
    if n > 0 {
      PaidInFullFromTheTop(ts, cash, n - 1);
      InterestAt(ts, cash, n - 1);
      assert ts[..n][..n - 1] == ts[..n - 1];
    }
  }

  // ----- principal

  function Total(ts: Stack): real {
    if ts == [] then 0.0 else Total(ts[..|ts| - 1]) + ts[|ts| - 1].bal
  }

  lemma {:induction false} TotalSnoc(ts: Stack, b: Bond)
    ensures Total(ts + [b]) == Total(ts) + b.bal
  {
    assert (ts + [b])[..|ts|] == ts;
  }

  lemma {:induction false} RetireStep(total: real, bal: real, cash: real)
    requires total >= 0.0 && bal >= 0.0 && cash >= 0.0
    ensures var left := Max(0.0, cash - total);
            && left - Min(bal, left) == Max(0.0, cash - (total + bal))
            && Max(0.0, total - cash) + (bal - Min(bal, left)) == Max(0.0, total + bal - cash)
  {
  }

  /** Principal retires exactly the cash, or the whole stack when there is more. */
  lemma {:induction false} PrincipalRetires(ts: Stack, interest: seq<real>, cash: real)
    requires |interest| == |ts| && Solid(ts) && cash >= 0.0
    ensures PayPrincipal(ts, interest, cash).1 == Max(0.0, cash - Total(ts))
    ensures Total(PayPrincipal(ts, interest, cash).0) == Max(0.0, Total(ts) - cash)
    ensures Total(ts) >= 0.0
  {
    hide *;
    if ts == [] {
      NothingRetires(ts, interest, cash);
    } else {
      var n := |ts| - 1;
      PrincipalUnfolds(ts, interest, cash);
      PrincipalRetires(ts[..n], interest[..n], cash);
      var (front, left) := PayPrincipal(ts[..n], interest[..n], cash);
      RetireStep(Total(ts[..n]), ts[n].bal, cash);
      TotalSnoc(front, Paid(ts[n], interest[n], Min(ts[n].bal, left)));
    }
  }

  lemma {:induction false} NothingRetires(ts: Stack, interest: seq<real>, cash: real)
    requires |ts| == |interest| == 0 && cash >= 0.0
    ensures Total(ts) == 0.0
    ensures var (paid, left) := PayPrincipal(ts, interest, cash);
            left == Max(0.0, cash - Total(ts)) && Total(paid) == Max(0.0, Total(ts) - cash)
  {
  }

  lemma {:induction false} PrincipalUnfolds(ts: Stack, interest: seq<real>, cash: real)
    requires |interest| == |ts| && ts != [] && Solid(ts)
    ensures var n := |ts| - 1;
            var (front, left) := PayPrincipal(ts[..n], interest[..n], cash);
            var pay := Min(ts[n].bal, left);
            && PayPrincipal(ts, interest, cash) == (front + [Paid(ts[n], interest[n], pay)], left - pay)
            && Paid(ts[n], interest[n], pay).bal == ts[n].bal - pay
            && Total(ts) == Total(ts[..n]) + ts[n].bal && Solid(ts[..n]) && ts[n].bal >= 0.0
  {
    hide Min;
  }

  /** The payment a class receives, as the drop in its balance. */
  lemma {:induction false} PrincipalAt(ts: Stack, interest: seq<real>, cash: real, i: nat)
    requires |interest| == |ts| && i < |ts|
    ensures PayPrincipal(ts, interest, cash).0[i]
            == Paid(ts[i], interest[i], Min(ts[i].bal, PayPrincipal(ts[..i], interest[..i], cash).1))
    ensures PayPrincipal(ts[..i + 1], interest[..i + 1], cash).1
            == PayPrincipal(ts[..i], interest[..i], cash).1
               - Min(ts[i].bal, PayPrincipal(ts[..i], interest[..i], cash).1)
  {
    var n := |ts| - 1;
    if i < n {
      PrincipalAt(ts[..n], interest[..n], cash, i);
      assert ts[..n][..i] == ts[..i] && ts[..n][..i + 1] == ts[..i + 1];
      assert interest[..n][..i] == interest[..i] && interest[..n][..i + 1] == interest[..i + 1];
    } else {
      assert ts[..i + 1] == ts && interest[..i + 1] == interest;
    }
  }

  lemma {:induction false} PrincipalCashShrinks(ts: Stack, interest: seq<real>, cash: real, i: nat, j: nat)
    requires |interest| == |ts| && i <= j <= |ts| && Solid(ts) && cash >= 0.0
    ensures 0.0 <= PayPrincipal(ts[..j], interest[..j], cash).1 <= PayPrincipal(ts[..i], interest[..i], cash).1
    decreases j
  {
    hide PayPrincipal;
    if 0 < j {
      PrincipalAt(ts, interest, cash, j - 1);
      PrincipalCashShrinks(ts, interest, cash, if i < j then i else j - 1, j - 1);
    } else {
      CashUntouched(cash);
    }
  }

  lemma {:induction false} CashUntouched(cash: real)
    ensures PayPrincipal([], [], cash).1 == cash
  {
  }

  /** A class whose balance is not retired leaves nothing for the classes below it. */
  lemma {:induction false} PrincipalIsSequential(ts: Stack, interest: seq<real>, cash: real, i: nat, j: nat)
    requires |interest| == |ts| && i < j < |ts| && Solid(ts) && cash >= 0.0
    requires PayPrincipal(ts, interest, cash).0[i].bal > 0.0
    ensures PayPrincipal(ts, interest, cash).0[j].bal == ts[j].bal
    ensures PayPrincipal(ts, interest, cash).0[j] == Paid(ts[j], interest[j], 0.0)
  {
    PrincipalAt(ts, interest, cash, i);
    PrincipalAt(ts, interest, cash, j);
    PrincipalCashShrinks(ts, interest, cash, i + 1, j);
    PrincipalCashShrinks(ts, interest, cash, i, i);
  }

  // ----- losses

  lemma {:induction false} TotalSplits(ts: Stack, i: nat)
    requires i <= |ts|
    ensures Total(ts) == Total(ts[..i]) + Total(ts[i..])
  {
    var n := |ts| - 1;
    if i == |ts| {
      assert ts[..i] == ts && ts[i..] == [];
    } else {
      TotalSplits(ts[..n], i);
      assert ts[..n][..i] == ts[..i] && ts[i..][..n - i] == ts[..n][i..];
    }
  }

  /** The loss is written off in full up to EPS, or the whole stack is gone. */
  lemma {:induction false} LossIsAbsorbed(ts: Stack, loss: real)
    requires Solid(ts) && loss >= 0.0
    ensures var r := WriteDown(ts, loss);
            && 0.0 <= r.1 <= loss
            && Total(r.0) == Total(ts) - (loss - r.1)
            && (ts == [] || r.1 <= 0.000000001 || Total(r.0) == 0.0)
            && Solid(r.0)
  {
    if ts != [] {
      LossIsAbsorbed(ts[1..], loss);
      var r := WriteDown(ts, loss);
      TotalSplits(ts, 1);
      TotalSplits(r.0, 1);
      assert r.0[1..] == WriteDown(ts[1..], loss).0;
      assert Total(ts[..1]) == ts[0].bal && Total(r.0[..1]) == r.0[0].bal by {
        assert ts[..1][..0] == [] && r.0[..1][..0] == [];
      }
    }
  }

  /** What the classes below have not taken hits a class, unless no more than 1e-9 of it is left. */
  lemma {:induction false} LossReaches(ts: Stack, loss: real, i: nat)
    requires i + 1 < |ts|
    ensures var left := WriteDown(ts[i + 1..], loss).1;
            WriteDown(ts, loss).0[i] == if left <= 0.000000001 then ts[i] else Hit(ts[i], Min(ts[i].bal, left))
  {
    if i > 0 {
      LossReaches(ts[1..], loss, i - 1);
      assert ts[1..][i..] == ts[i + 1..];
    }
  }

  /** What one class loses, and that every class below it is wiped out first. */
  lemma {:induction false} LossOnTop(ts: Stack, loss: real)
    requires Solid(ts) && loss >= 0.0 && ts != [] && 0.0 <= WriteDown(ts[1..], loss).1
    ensures var r, (rest, left) := WriteDown(ts, loss).0, WriteDown(ts[1..], loss);
            && r[0] == Hit(ts[0], ts[0].bal - r[0].bal) && 0.0 <= r[0].bal <= ts[0].bal
            && (r[0].bal < ts[0].bal ==> |ts| == 1 || left > EPS)
  {
  }

  lemma {:induction false} LossAt(ts: Stack, loss: real, i: nat)
    requires Solid(ts) && loss >= 0.0 && i < |ts|
    ensures var r := WriteDown(ts, loss).0;
            && r[i] == Hit(ts[i], ts[i].bal - r[i].bal)
            && 0.0 <= r[i].bal <= ts[i].bal
            && (r[i].bal < ts[i].bal ==> forall j :: i < j < |ts| ==> r[j].bal == 0.0)
  {
    var r := WriteDown(ts, loss).0;
    LossIsAbsorbed(ts[1..], loss);
    assert r[1..] == WriteDown(ts[1..], loss).0;
    LossOnTop(ts, loss);
    hide WriteDown, Total;
    if i > 0 {
      LossAt(ts[1..], loss, i - 1);
      forall j | i < j < |ts| && r[i].bal < ts[i].bal ensures r[j].bal == 0.0 {
        assert r[j] == r[1..][j - 1];
      }
    } else if r[0].bal < ts[0].bal {
      NothingLeft(r[1..]);
      forall j | 0 < j < |ts| ensures r[j].bal == 0.0 {
        assert r[j] == r[1..][j - 1];
      }
    }
  }

  lemma {:induction false} NothingLeft(ts: Stack)
    requires Solid(ts)
    ensures Total(ts) >= 0.0
    ensures Total(ts) == 0.0 ==> forall j :: 0 <= j < |ts| ==> ts[j].bal == 0.0
  {
    if ts != [] {
      var n := |ts| - 1;
      NothingLeft(ts[..n]);
      forall j | 0 <= j < |ts| && Total(ts) == 0.0 ensures ts[j].bal == 0.0 {
        if j < n {
          assert ts[j] == ts[..n][j];
        }
      }
    }
  }
}
