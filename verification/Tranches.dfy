/** The tranche objects of a deal and the two procedures that change them in place. */
module Tranches {
  import opened Options
  import opened RealPowers
  import opened Waterfall
  import Pool

  /** One row of the tranche listing; the coupon is in percent and may be missing. */
  datatype Listing = Listing(name: string, balance: real, coupon: Option<real>, creditClass: string)

  class Tranche {
    const name: string
    const creditClass: string
    const coupon: real
    var orig: real
    var bal: real
    var writedown: real
    var flows: seq<Flow>
    var pendInt: real

    constructor (listing: Listing)
      ensures Value() == Bond(listing.balance, listing.balance, CouponOf(listing), 0.0, [])
      ensures name == listing.name && creditClass == listing.creditClass
    {
      name := listing.name;
      creditClass := listing.creditClass;
      coupon := CouponOf(listing);
      orig, bal := listing.balance, listing.balance;
      writedown, pendInt := 0.0, 0.0;
      flows := [];
    }

    function Value(): Bond
      reads this
    {
      Bond(orig, bal, coupon, writedown, flows)
    }

    /** Seasoning: burn the balance down and make what is left the new face. */
    method BurnDown(paid: real) returns (left: real)
      modifies this`bal, this`orig
      ensures var old_ := old(Value());
              var cut := Min(old_.bal, paid);
              left == paid - cut && Value() == old_.(bal := old_.bal - cut, orig := old_.bal - cut)
    {
      var cut := Min(bal, paid);
      bal := bal - cut;
      left := paid - cut;
      orig := bal;
    }

    /** Interest due, as far as the cash goes; booked with the month's principal. */
    method TakeInterest(cash: real) returns (left: real)
      modifies this`pendInt
      ensures Value() == old(Value())
      ensures pendInt == Min(Value().Due(), cash) && left == cash - pendInt
    {
      var due := bal * coupon / 12.0;
      var pay := Min(due, cash);
      left := cash - pay;
      pendInt := pay;
    }

    method TakePrincipal(cash: real) returns (left: real)
      modifies this`bal, this`flows
      ensures pendInt == old(pendInt)
      ensures var pay := Min(old(Value()).bal, cash);
              left == cash - pay && Value() == Paid(old(Value()), pendInt, pay)
    {
      var pay := Min(bal, cash);
      bal := bal - pay;
      left := cash - pay;
      flows := flows + [Flow(pendInt, pay)];
    }

    method TakeLoss(loss: real) returns (left: real)
      modifies this`bal, this`writedown
      ensures var hit := Min(old(Value()).bal, loss); left == loss - hit && Value() == Hit(old(Value()), hit)
    {
      var hit := Min(bal, loss);
      bal := bal - hit;
      writedown := writedown + hit;
      left := loss - hit;
    }
  }

  function CouponOf(listing: Listing): real {
    match listing.coupon
    case None => 0.0
    case Some(c) => c / 100.0
  }

  ghost predicate Distinct(ts: seq<Tranche>) {
    forall i, j :: 0 <= i < j < |ts| ==> ts[i] != ts[j]
  }

  function Values(ts: seq<Tranche>): (vs: Stack)
    reads ts
    ensures |vs| == |ts| && forall i :: 0 <= i < |ts| ==> vs[i] == ts[i].Value()
  {
    if ts == [] then [] else Values(ts[..|ts| - 1]) + [ts[|ts| - 1].Value()]
  }

  lemma {:induction false} ValuesAre(ts: seq<Tranche>, vs: Stack)
    requires |vs| == |ts| && forall k :: 0 <= k < |ts| ==> ts[k].Value() == vs[k]
    ensures Values(ts) == vs
  {
    hide Values, Tranche.Value;
  }

  // ----- seasoning

  /** The stack after paid has been burnt off from the senior end, and what could not be. */
  function Season(ts: Stack, paid: real): (r: (Stack, real))
    ensures |r.0| == |ts|
  {
    if ts == [] then ([], paid)
    else
      var n := |ts| - 1;
      var (front, left) := Season(ts[..n], paid);
      var cut := Min(ts[n].bal, left);
      (front + [ts[n].(bal := ts[n].bal - cut, orig := ts[n].bal - cut)], left - cut)
  }

  /** The classes of more than one dollar. */
  function Surviving(ts: Stack): Stack {
    if ts == [] then []
    else Surviving(ts[..|ts| - 1]) + if ts[|ts| - 1].bal > 1.0 then [ts[|ts| - 1]] else []
  }

  lemma {:induction false} SeasonPrefix(ts: Stack, paid: real, i: nat)
    requires i < |ts|
    ensures var (cut, left) := (Min(ts[i].bal, Season(ts[..i], paid).1), Season(ts[..i], paid).1);
            && Season(ts, paid).0[i] == ts[i].(bal := ts[i].bal - cut, orig := ts[i].bal - cut)
            && Season(ts[..i + 1], paid).1 == left - cut
  {
    var n := |ts| - 1;
    if i < n {
      SeasonPrefix(ts[..n], paid, i);
      assert ts[..n][..i] == ts[..i] && ts[..n][..i + 1] == ts[..i + 1];
    } else {
      assert ts[..i + 1] == ts;
    }
  }

  /** The list comprehension at the end of seasoning: the classes still outstanding, in order. */
  method Outstanding(ts: seq<Tranche>) returns (alive: seq<Tranche>)
    requires Distinct(ts)
    ensures Values(alive) == Surviving(Values(ts))
    ensures Distinct(alive) && forall k :: 0 <= k < |alive| ==> alive[k] in ts
  {
    hide Values, Tranche.Value;
    ghost var start := Values(ts);
    ghost var kept: Stack := [];
    alive := [];
    for i := 0 to |ts|
      invariant kept == Surviving(start[..i]) && |kept| == |alive|
      invariant forall k :: 0 <= k < |alive| ==> alive[k].Value() == kept[k]
      invariant Distinct(alive) && forall k :: 0 <= k < |alive| ==> alive[k] in ts[..i]
    {
      assert start[..i + 1][..i] == start[..i];
      BalanceShown(ts[i]);
      if ts[i].bal > 1.0 {
        alive := alive + [ts[i]];
        kept := kept + [start[i]];
      }
    }
    assert start[..|ts|] == start;
    ValuesAre(alive, kept);
  }

  lemma {:induction false} BalanceShown(t: Tranche)
    ensures t.Value().bal == t.bal
  {
  }

  /** The loop of seasoning, on a stack that shows start. */
  method BurnDownAll(ts: seq<Tranche>, amount: real, ghost start: Stack)
    requires Distinct(ts) && |ts| == |start|
    requires forall k :: 0 <= k < |ts| ==> ts[k].Value() == start[k]
    modifies ts
    ensures forall k :: 0 <= k < |ts| ==> ts[k].Value() == Season(start, amount).0[k]
  {
    var paid := amount;
    assert Season(start[..0], paid).1 == paid;
    hide Season, Min, Tranche.Value;
    for i := 0 to |ts|
      invariant forall k :: 0 <= k < i ==> ts[k].Value() == Season(start, amount).0[k]
      invariant forall k :: i <= k < |ts| ==> ts[k].Value() == start[k]
      invariant paid == Season(start[..i], amount).1
    {
      SeasonPrefix(start, amount, i);
      paid := ts[i].BurnDown(paid);
    }
  }

  method SeasonStack(ts: seq<Tranche>, paidDown: real) returns (alive: seq<Tranche>)
    requires Distinct(ts)
    modifies ts
    ensures Values(ts) == Season(old(Values(ts)), Max(0.0, paidDown)).0
    ensures Values(alive) == Surviving(Values(ts))
    ensures Distinct(alive) && forall k :: 0 <= k < |alive| ==> alive[k] in ts
  {
    hide Season, Values, Surviving, Tranche.Value;
    ghost var start := Values(ts);
    BurnDownAll(ts, Max(0.0, paidDown), start);
    ValuesAre(ts, Season(start, Max(0.0, paidDown)).0);
    alive := Outstanding(ts);
  }

  // ----- the waterfall

  /** The interest loop: each class stores what it is paid until the principal loop books it. */
  method CollectInterest(ts: seq<Tranche>, collected: real, ghost start: Stack) returns (left: real)
    requires Distinct(ts) && |ts| == |start|
    requires forall k :: 0 <= k < |ts| ==> ts[k].Value() == start[k]
    modifies ts
    ensures forall k :: 0 <= k < |ts| ==> ts[k].Value() == start[k]
    ensures forall k :: 0 <= k < |ts| ==> ts[k].pendInt == PayInterest(start, collected).0[k]
    ensures left == PayInterest(start, collected).1
  {
    left := collected;
    assert PayInterest(start[..0], collected).1 == collected;
    hide Bond.Due, PayInterest, Min, Tranche.Value;
    for i := 0 to |ts|
      invariant forall k :: 0 <= k < |ts| ==> ts[k].Value() == start[k]
      invariant forall k :: 0 <= k < i ==> ts[k].pendInt == PayInterest(start, collected).0[k]
      invariant left == PayInterest(start[..i], collected).1
    {
      InterestAt(start, collected, i);
      left := ts[i].TakeInterest(left);
    }
    assert start[..|ts|] == start;
  }

  /** The principal loop: balances fall from the senior end and the month's flows are booked. */
  method DistributePrincipal(ts: seq<Tranche>, cash: real, ghost start: Stack, ghost interest: seq<real>)
    requires Distinct(ts) && |ts| == |start| == |interest|
    requires forall k :: 0 <= k < |ts| ==> ts[k].Value() == start[k]
    requires forall k :: 0 <= k < |ts| ==> ts[k].pendInt == interest[k]
    modifies ts
    ensures forall k :: 0 <= k < |ts| ==> ts[k].Value() == PayPrincipal(start, interest, cash).0[k]
  {
    var left := cash;
    assert PayPrincipal(start[..0], interest[..0], cash).1 == cash;
    hide PayPrincipal, Min, Paid, Tranche.Value;
    for i := 0 to |ts|
      invariant forall k :: 0 <= k < i ==> ts[k].Value() == PayPrincipal(start, interest, cash).0[k]
      invariant forall k :: i <= k < |ts| ==> ts[k].Value() == start[k] && ts[k].pendInt == interest[k]
      invariant left == PayPrincipal(start[..i], interest[..i], cash).1
    {
      PrincipalAt(start, interest, cash, i);
      left := ts[i].TakePrincipal(left);
    }
  }

  /** The stack when the loss loop has come up to class i, and the loss it still carries. */
  ghost function WrittenDownTo(ts: Stack, loss: real, i: nat): (r: (Stack, real))
    requires i <= |ts|
    ensures |r.0| == |ts| && r.0[..i] == ts[..i]
  {
    (ts[..i] + WriteDown(ts[i..], loss).0, WriteDown(ts[i..], loss).1)
  }

  /** One turn of the loss loop. */
  lemma {:induction false} LossStep(ts: Stack, loss: real, i: nat)
    requires i < |ts|
    requires i + 1 < |ts| ==> WrittenDownTo(ts, loss, i + 1).1 > EPS
    ensures var (now, left) := WrittenDownTo(ts, loss, i + 1);
            && now[i] == ts[i]
            && WrittenDownTo(ts, loss, i)
               == (now[i := Hit(ts[i], Min(ts[i].bal, left))], left - Min(ts[i].bal, left))
  {
    assert ts[i..][1..] == ts[i + 1..] && ts[i..][0] == ts[i];
    var (rest, left) := WriteDown(ts[i + 1..], loss);
    var hit := Hit(ts[i], Min(ts[i].bal, left));
    assert WriteDown(ts[i..], loss).0 == [hit] + rest;
    assert (ts[..i + 1] + rest)[i := hit] == ts[..i] + ([hit] + rest);
  }

  /** Once the loss loop has stopped, the classes above are left as they are. */
  lemma {:induction false} LossLoopEnds(ts: Stack, loss: real, i: nat)
    requires i == 0 || (i < |ts| && WrittenDownTo(ts, loss, i).1 <= EPS)
    ensures WriteDown(ts, loss) == WrittenDownTo(ts, loss, i)
    decreases i
  {
    if i == 0 {
      assert ts[0..] == ts;
    } else {
      assert ts[i - 1..][1..] == ts[i..];
      var rest := WriteDown(ts[i..], loss).0;
      assert ts[..i - 1] + ([ts[i - 1]] + rest) == ts[..i] + rest;
      assert WrittenDownTo(ts, loss, i - 1) == WrittenDownTo(ts, loss, i);
      LossLoopEnds(ts, loss, i - 1);
    }
  }

  /** The loss loop: from the most junior class upwards until next to nothing is left. */
  method AllocateLoss(ts: seq<Tranche>, amount: real, ghost start: Stack)
    requires Distinct(ts) && |ts| == |start|
    requires forall k :: 0 <= k < |ts| ==> ts[k].Value() == start[k]
    modifies ts
    ensures forall k :: 0 <= k < |ts| ==> ts[k].Value() == WriteDown(start, amount).0[k]
  {
    var loss := amount;
    var i := |ts|;
    assert start[i..] == [] && start[..i] + [] == start;
    assert WrittenDownTo(start, amount, i) == (start, amount);
    hide WrittenDownTo, WriteDown, Min, Hit, Tranche.Value;
    while 0 < i
      invariant 0 <= i <= |ts|
      invariant forall k :: 0 <= k < |ts| ==> ts[k].Value() == WrittenDownTo(start, amount, i).0[k]
      invariant loss == WrittenDownTo(start, amount, i).1
      invariant i < |ts| ==> loss > EPS
    {
      i := i - 1;
      LossStep(start, amount, i);
      loss := ts[i].TakeLoss(loss);
      if loss <= EPS {
        break;
      }
    }
    LossLoopEnds(start, amount, i);
  }

  /** One month of the waterfall. */
  method RunMonth(ts: seq<Tranche>, row: Pool.Row, ghost start: Stack)
    requires Distinct(ts) && |ts| == |start|
    requires forall k :: 0 <= k < |ts| ==> ts[k].Value() == start[k]
    modifies ts
    ensures forall k :: 0 <= k < |ts| ==> ts[k].Value() == Month(start, row)[k]
  {
    hide PayInterest, PayPrincipal, WriteDown, Tranche.Value;
    var excess := CollectInterest(ts, row.interest, start);
    DistributePrincipal(ts, row.principal + excess, start, PayInterest(start, row.interest).0);
    AllocateLoss(ts, row.loss, AfterPrincipal(start, row));
  }

  method RunWaterfall(ts: seq<Tranche>, rows: seq<Pool.Row>)
    requires Distinct(ts)
    modifies ts
    ensures Values(ts) == Run(old(Values(ts)), rows)
  {
    hide Month, Tranche.Value, Values;
    ghost var start := Values(ts);
    for k := 0 to |rows|
      invariant forall i :: 0 <= i < |ts| ==> ts[i].Value() == Run(start, rows[..k])[i]
    {
      RunMonth(ts, rows[k], Run(start, rows[..k]));
      assert rows[..k + 1][..k] == rows[..k];
    }
    assert rows[..|rows|] == rows;
    ValuesAre(ts, Run(start, rows));
  }
}
