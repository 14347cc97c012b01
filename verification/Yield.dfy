/** Price and yield of a tranche: discounting its flows, the par identity, and the bisection for the yield. */
module Yield {
  import opened Options
  import opened RealPowers
  import opened Waterfall
  import opened Seniority
  import Pool

  /** Present value of monthly payments at monthly rate y. */
  function Discounted(cfs: seq<real>, y: real): real
    requires y > -1.0
  {
    if cfs == [] then 0.0
    else
      PowPositive(1.0 + y, |cfs|);
      Discounted(cfs[..|cfs| - 1], y) + cfs[|cfs| - 1] / Pow(1.0 + y, |cfs|)
  }

  function Npv(cfs: seq<real>, price: real, y: real): real
    requires y > -1.0
  {
    -price + Discounted(cfs, y)
  }

  function Payments(flows: seq<Flow>): (r: seq<real>)
    ensures |r| == |flows|
  {
    seq(|flows|, k requires 0 <= k < |flows| => flows[k].interest + flows[k].principal)
  }

  /** The payments per 100 of face. */
  function Scaled(flows: seq<Flow>, orig: real): (r: seq<real>)
    requires orig > 0.0
    ensures |r| == |flows|
  {
    seq(|flows|, k requires 0 <= k < |flows| => (flows[k].interest + flows[k].principal) / orig * 100.0)
  }

  ghost predicate NoNegative(cfs: seq<real>) {
    forall k :: 0 <= k < |cfs| ==> cfs[k] >= 0.0
  }

  ghost predicate SomePositive(cfs: seq<real>) {
    exists k :: 0 <= k < |cfs| && cfs[k] > 0.0
  }

  // ----- discounting falls with the rate

  lemma {:induction false} QuotientFalls(c: real, a: real, b: real)
    requires c >= 0.0 && 0.0 < a < b
    ensures c / b <= c / a && (c > 0.0 ==> c / b < c / a)
  {
    var q := c / b;
    assert q * b == c;
    if c > 0.0 {
      assert q > 0.0;
      MulStrict(q, a, b);
      if q >= c / a {
        assert (c / a) * a == c;
        MulMonotone(a, c / a, q);
      }
    } else {
      assert c / b == 0.0 && c / a == 0.0;
    }
  }

  /** The value of payments that are not negative falls as the rate rises, and falls strictly when
      some payment is positive. */
  lemma {:induction false} NpvFalls(cfs: seq<real>, y: real, z: real)
    requires -1.0 < y < z && NoNegative(cfs)
    ensures Discounted(cfs, z) <= Discounted(cfs, y)
    ensures SomePositive(cfs) ==> Discounted(cfs, z) < Discounted(cfs, y)
  {
    if cfs != [] {
      var n := |cfs| - 1;
      NpvFalls(cfs[..n], y, z);
      PowIncreases(1.0 + y, 1.0 + z, |cfs|);
      QuotientFalls(cfs[n], Pow(1.0 + y, |cfs|), Pow(1.0 + z, |cfs|));
      if SomePositive(cfs) && cfs[n] <= 0.0 {
        var k :| 0 <= k < |cfs| && cfs[k] > 0.0;
        assert cfs[..n][k] > 0.0;
      }
    }
  }

  // ----- bisection

  const LO := -0.99
  const HI := 2.0

  /** The width of the bracket after k halvings. */
  function Width(k: nat): (w: real)
    ensures w > 0.0
  {
    PowPositive(2.0, k);
    2.99 / Pow(2.0, k)
  }

  lemma {:induction false} WidthHalves(k: nat)
    ensures Width(k + 1) == Width(k) / 2.0 && Width(0) == HI - LO
  {
    var p := Pow(2.0, k);
    PowPositive(2.0, k);
    HalfWidth(2.99 / p, p);
  }

  lemma {:induction false} HalfWidth(w: real, p: real)
    requires p > 0.0 && w == 2.99 / p
    ensures w / 2.0 == 2.99 / (2.0 * p)
  {
    assert w * p == 2.99;
    assert (w / 2.0) * (2.0 * p) == 2.99;
  }

  predicate SameStrictSign(a: real, b: real) {
    (a > 0.0 && b > 0.0) || (a < 0.0 && b < 0.0)
  }

  lemma {:induction false} ProductSign(a: real, b: real)
    ensures a * b > 0.0 <==> SameStrictSign(a, b)
  {
    if a > 0.0 && b > 0.0 {
      MulPositive(a, b);
    } else if a < 0.0 && b < 0.0 {
      MulPositive(-a, -b);
      assert a * b == (-a) * (-b);
    } else if a >= 0.0 && b <= 0.0 {
      MulNotNegative(a, -b);
      assert a * b == -(a * (-b));
    } else {
      MulNotNegative(-a, b);
      assert a * b == -((-a) * b);
    }
  }

  /** The payments are worth more than the price at both ends of the first bracket, or less at both. */
  ghost predicate Misses(cfs: seq<real>, price: real) {
    || (price < Discounted(cfs, -0.99) && price < Discounted(cfs, 2.0))
    || (price > Discounted(cfs, -0.99) && price > Discounted(cfs, 2.0))
  }

  /** The payments are worth the price or more at lo, and the price or less at hi. */
  ghost predicate Brackets(cfs: seq<real>, price: real, lo: real, hi: real)
    requires -1.0 < lo <= hi
  {
    Discounted(cfs, lo) >= price >= Discounted(cfs, hi)
  }

  /** The bracket after k halvings: the upper half where the payments are worth more than the price at the
      middle, and else the lower one. */
  ghost function Halved(cfs: seq<real>, price: real, k: nat): (r: (real, real))
    ensures LO <= r.0 <= r.1 <= HI
  {
    if k == 0 then (LO, HI)
    else
      var (lo, hi) := Halved(cfs, price, k - 1);
      var mid := (lo + hi) / 2.0;
      if Discounted(cfs, mid) > price then (mid, hi) else (lo, mid)
  }

  /** The 200 halvings. */
  method Bisect(cfs: seq<real>, price: real) returns (lo: real, hi: real)
    ensures -0.99 <= lo <= hi <= 2.0 && hi - lo == Width(200) && (lo, hi) == Halved(cfs, price, 200)
    ensures Brackets(cfs, price, LO, HI) ==> Brackets(cfs, price, lo, hi)
  {
    hide Width, Discounted;
    lo, hi := LO, HI;
    WidthHalves(0);
    for k := 0 to 200
      invariant LO <= lo <= hi <= HI && hi - lo == Width(k) && (lo, hi) == Halved(cfs, price, k)
      invariant Brackets(cfs, price, LO, HI) ==> Brackets(cfs, price, lo, hi)
    {
      var mid := (lo + hi) / 2.0;
      if Npv(cfs, price, mid) > 0.0 {
        lo := mid;
      } else {
        hi := mid;
      }
      WidthHalves(k);
    }
  }

  lemma {:induction false} FirstBracket(cfs: seq<real>, price: real)
    requires NoNegative(cfs) && !Misses(cfs, price)
    ensures Brackets(cfs, price, LO, HI)
  {
    hide Discounted;
    NpvFalls(cfs, LO, HI);
  }

  // ----- what the bracket says about the true yield

  /** When some payment is positive there is at most one yield, and the bracket holds it. */
  lemma {:induction false} BracketHoldsTheYield(cfs: seq<real>, price: real, lo: real, hi: real, y: real)
    requires NoNegative(cfs) && SomePositive(cfs) && -1.0 < lo <= hi && Brackets(cfs, price, lo, hi)
    requires y > -1.0 && Discounted(cfs, y) == price
    ensures lo <= y <= hi
  {
    hide Discounted, NoNegative, SomePositive;
    if y < lo {
      NpvFalls(cfs, y, lo);
    } else if hi < y {
      NpvFalls(cfs, hi, y);
    }
  }

  // ----- two prices

  /** Of two prices for the same payments, whatever their signs, the higher one ends with the same bracket or
      with one below. */
  lemma {:induction false} HigherPriceLowerBracket(cfs: seq<real>, p: real, q: real, k: nat)
    requires p <= q
    ensures Halved(cfs, q, k) == Halved(cfs, p, k) || Halved(cfs, q, k).1 <= Halved(cfs, p, k).0
  {
    hide Discounted;
    if k > 0 {
      HigherPriceLowerBracket(cfs, p, q, k - 1);
    }
  }

  /** A higher price never has the higher yield. */
  lemma {:induction false} HigherPriceLowerYield(cfs: seq<real>, p: real, q: real, k: nat)
    requires p <= q
    ensures var (lo, hi) := Halved(cfs, p, k); var (low, high) := Halved(cfs, q, k);
            low + high <= lo + hi && Pow(1.0 + (low + high) / 2.0, 12) - 1.0 <= Pow(1.0 + (lo + hi) / 2.0, 12) - 1.0
  {
    hide Halved, Pow;
    HigherPriceLowerBracket(cfs, p, q, k);
    var (lo, hi) := Halved(cfs, p, k);
    var (low, high) := Halved(cfs, q, k);
    PowAtMost(1.0 + (low + high) / 2.0, 1.0 + (lo + hi) / 2.0, 12);
  }

  // ----- one payment

  lemma {:induction false} Empty(m: nat, y: real)
    requires y > -1.0
    ensures Discounted(seq(m, _ => 0.0), y) == 0.0
  {
    if m > 0 {
      Empty(m - 1, y);
      PowPositive(1.0 + y, m);
      assert seq(m, _ => 0.0)[..m - 1] == seq(m - 1, _ => 0.0);
      QuotientOfZero(Pow(1.0 + y, m));
    }
  }

  lemma {:induction false} QuotientOfZero(p: real)
    requires p > 0.0
    ensures 0.0 / p == 0.0
  {
  }

  /** One payment after m months without any is worth itself discounted m + 1 times. */
  lemma {:induction false} OnePayment(m: nat, c: real, y: real)
    requires y > -1.0
    ensures Pow(1.0 + y, m + 1) > 0.0
    ensures Discounted(seq(m, _ => 0.0) + [c], y) == c / Pow(1.0 + y, m + 1)
  {
    hide Discounted;
    Empty(m, y);
    DiscountedSnoc(seq(m, _ => 0.0), c, y);
  }

  lemma {:induction false} SamePayment(c: real, p: real, q: real)
    requires p == q > 0.0
    ensures c / p == c / q
  {
  }

  /** A class whose one payment comes in the first month and is c per 100 of face, priced at c discounted once
      at y, is worth its price at y and at no other rate. */
  lemma {:induction false} OnePaymentHasItsRate(b: Bond, f: Flow, c: real, y: real, z: real)
    requires b.orig > 0.0 && b.flows == [f] && c * b.orig == (f.interest + f.principal) * 100.0 && c > 0.0
    requires y > -1.0 && z > -1.0
    ensures NoNegative(Scaled(b.flows, b.orig)) && SomePositive(Scaled(b.flows, b.orig))
    ensures Discounted(Scaled(b.flows, b.orig), z) == c / (1.0 + y) <==> z == y
  {
    var scaled := Scaled(b.flows, b.orig);
    PerHundred(f.interest + f.principal, b.orig, c);
    assert scaled == [c] && scaled[0] > 0.0;
    OnePaymentNow(c, y);
    OnePaymentNow(c, z);
    hide Discounted, Scaled;
    if z < y {
      NpvFalls(scaled, z, y);
    } else if y < z {
      NpvFalls(scaled, y, z);
    }
  }

  lemma {:induction false} PerHundred(x: real, orig: real, c: real)
    requires orig > 0.0 && c * orig == x * 100.0
    ensures x / orig * 100.0 == c
  {
    assert (x / orig) * orig == x;
    assert (x / orig * 100.0) * orig == x * 100.0;
    CancelPositive(x / orig * 100.0, c, orig);
    CancelPositive(c, x / orig * 100.0, orig);
  }

  lemma {:induction false} OnePaymentNow(c: real, y: real)
    requires y > -1.0
    ensures Discounted([c], y) == c / (1.0 + y)
  {
    OnePayment(0, c, y);
    assert seq(0, _ => 0.0) + [c] == [c];
    PowStep(1.0 + y, 0);
    PowZero(1.0 + y);
    hide Discounted, Pow;
    SamePayment(c, Pow(1.0 + y, 1), 1.0 + y);
  }

  // ----- how close the middle of the bracket is

  lemma {:induction false} ThousandBelow(k: nat)
    ensures 0.0 < Pow(1000.0, k) <= Pow(2.0, 10 * k)
  {
    PowPositive(1000.0, k);
    if k > 0 {
      ThousandBelow(k - 1);
      PowAdds(2.0, 10, 10 * (k - 1));
      KiloIs();
      MulMonotone(Pow(2.0, 10), Pow(1000.0, k - 1), Pow(2.0, 10 * (k - 1)));
      MulMonotone(Pow(1000.0, k - 1), 1000.0, Pow(2.0, 10));
    }
  }

  lemma {:induction false} KiloIs()
    ensures Pow(2.0, 10) == 1024.0
  {
    assert Pow(2.0, 5) == 32.0;
    PowAdds(2.0, 5, 5);
  }

  lemma {:induction false} WidthIsTiny()
    ensures Width(200) * Pow(1000.0, 20) <= 2.99
  {
    var w, p, q := Width(200), Pow(2.0, 200), Pow(1000.0, 20);
    ThousandBelow(20);
    assert w * p == 2.99;
    hide Width, Pow;
    MulMonotone(w, q, p);
  }

  /** At most what the annualised yield is off by: 10^-51. */
  function Precision(): (r: real)
    ensures r > 0.0
  {
    PowPositive(1000.0, 17);
    1.0 / Pow(1000.0, 17)
  }

  lemma {:induction false} PrecisionIs(w: real)
    requires w * Pow(1000.0, 20) <= 2.99
    ensures 6377292.0 * (w / 2.0) <= Precision()
  {
    var p := Pow(1000.0, 17);
    PowPositive(1000.0, 17);
    PowAdds(1000.0, 17, 3);
    assert Pow(1000.0, 3) == 1000000000.0;
    PrecisionOf(w, p);
  }

  lemma {:induction false} PrecisionOf(w: real, p: real)
    requires p > 0.0 && w * (p * 1000000000.0) <= 2.99
    ensures 6377292.0 * (w / 2.0) <= 1.0 / p
  {
    assert (w * p) * 1000000000.0 == w * (p * 1000000000.0);
    assert (6377292.0 * (w / 2.0)) * p == 3188646.0 * (w * p);
    QuotientBound(6377292.0 * (w / 2.0), p, 1.0);
  }

  lemma {:induction false} TopPower()
    ensures Pow(3.0, 12) == 531441.0
  {
    assert Pow(3.0, 6) == 729.0;
    PowAdds(3.0, 6, 6);
  }

  /** Two monthly rates in the first bracket half a final width apart are 10^-51 apart as yearly yields. */
  lemma {:induction false} YearlyApart(y: real, z: real)
    requires LO <= y <= z <= HI && z - y <= Width(200) / 2.0
    ensures 0.0 <= Pow(1.0 + z, 12) - Pow(1.0 + y, 12) <= Precision()
  {
    hide Pow, Width, Precision;
    PowGrowth(1.0 + y, 1.0 + z, 3.0, 12);
    PowAtMost(1.0 + y, 1.0 + z, 12);
    TopPower();
    WidthIsTiny();
    PrecisionIs(Width(200));
  }

  /** The middle of a final bracket lies within half its width of the one rate that meets the price, and the
      yearly yields within 10^-51. */
  lemma {:induction false} MiddleIsTheYield(cfs: seq<real>, price: real, lo: real, hi: real, y: real)
    requires NoNegative(cfs) && SomePositive(cfs) && LO <= lo <= hi <= HI && hi - lo == Width(200)
    requires Brackets(cfs, price, lo, hi) && y > -1.0 && Discounted(cfs, y) == price
    ensures var mid := (lo + hi) / 2.0;
            && -Width(200) / 2.0 <= mid - y <= Width(200) / 2.0
            && -Precision() <= Pow(1.0 + mid, 12) - Pow(1.0 + y, 12) <= Precision()
  {
    BracketHoldsTheYield(cfs, price, lo, hi, y);
    hide Discounted, NoNegative, SomePositive, Width, Precision, Pow;
    var mid := (lo + hi) / 2.0;
    if y <= mid {
      YearlyApart(y, mid);
    } else {
      YearlyApart(mid, y);
    }
  }

  /** The yield, with the bracket it is the middle of. None stands for a face that is not positive, or
      for a price that both ends of the first bracket miss on the same side. Where no payment is negative and
      some are positive, it is the yield up to 10^-51. */
  method YieldToPrice(b: Bond, price: real) returns (r: Option<real>, ghost lo: real, ghost hi: real)
    ensures r.None? <==> b.orig <= 0.0 || Misses(Scaled(b.flows, b.orig), price)
    ensures r.Some? ==>
              && -0.99 <= lo <= hi <= 2.0 && hi - lo == Width(200)
              && (lo, hi) == Halved(Scaled(b.flows, b.orig), price, 200)
              && r.value == Pow(1.0 + (lo + hi) / 2.0, 12) - 1.0
              && (NoNegative(Scaled(b.flows, b.orig)) ==> Brackets(Scaled(b.flows, b.orig), price, lo, hi))
    ensures r.Some? && NoNegative(Scaled(b.flows, b.orig)) && SomePositive(Scaled(b.flows, b.orig)) ==>
              forall y :: y > -1.0 && Discounted(Scaled(b.flows, b.orig), y) == price ==>
                            -Precision() <= r.value - (Pow(1.0 + y, 12) - 1.0) <= Precision()
  {
    hide Pow, Scaled, Width, Npv, NoNegative, SomePositive, Brackets, Precision, Misses, Halved;
    lo, hi := LO, HI;
    if b.orig <= 0.0 {
      return None, lo, hi;
    }
    var scaled := Scaled(b.flows, b.orig);
    ProductSign(Npv(scaled, price, LO), Npv(scaled, price, HI));
    MissesIs(scaled, price);
    if Npv(scaled, price, LO) * Npv(scaled, price, HI) > 0.0 {
      return None, lo, hi;
    }
    if NoNegative(scaled) {
      FirstBracket(scaled, price);
    }
    var l, h := Bisect(scaled, price);
    lo, hi := l, h;
    var ym := (l + h) / 2.0;
    r := Some(Pow(1.0 + ym, 12) - 1.0);
    if NoNegative(scaled) && SomePositive(scaled) {
      forall y | y > -1.0 && Discounted(scaled, y) == price
        ensures -Precision() <= r.value - (Pow(1.0 + y, 12) - 1.0) <= Precision()
      {
        MiddleIsTheYield(scaled, price, lo, hi, y);
      }
    }
  }

  lemma {:induction false} MissesIs(cfs: seq<real>, price: real)
    ensures Misses(cfs, price) <==> SameStrictSign(Npv(cfs, price, LO), Npv(cfs, price, HI))
  {
    hide Discounted;
  }

  /** A price has its yield between the ends of the first bracket exactly when these do not miss it
      on the same side. */
  lemma {:induction false} YieldInRange(cfs: seq<real>, price: real, y: real)
    requires NoNegative(cfs) && SomePositive(cfs) && y > -1.0 && Discounted(cfs, y) == price
    ensures -0.99 <= y <= 2.0 <==> !Misses(cfs, price)
  {
    hide Discounted, NoNegative, SomePositive;
    if y < LO {
      NpvFalls(cfs, y, LO);
      NpvFalls(cfs, y, HI);
    } else if HI < y {
      NpvFalls(cfs, LO, y);
      NpvFalls(cfs, HI, y);
    } else {
      if LO < y {
        NpvFalls(cfs, LO, y);
      }
      if y < HI {
        NpvFalls(cfs, y, HI);
      }
    }
  }

  // ----- the par identity

  /** What month k of a run cost a class: its write-down and the interest it was due and not paid. */
  function Shortfall(ts: Stack, row: Pool.Row, i: nat): real
    requires i < |ts|
  {
    LossTaken(ts, row, i) + (ts[i].Due() - InterestPaid(ts, row, i))
  }

  /** The shortfalls of a run, discounted at rate y. */
  function DiscountedShortfalls(ts: Stack, rows: seq<Pool.Row>, i: nat, y: real): real
    requires i < |ts| && y > -1.0
  {
    if rows == [] then 0.0
    else
      PowPositive(1.0 + y, |rows|);
      DiscountedShortfalls(ts, rows[..|rows| - 1], i, y)
      + Shortfall(Run(ts, rows[..|rows| - 1]), rows[|rows| - 1], i) / Pow(1.0 + y, |rows|)
  }

  lemma {:induction false} RollForward(bal: real, bal': real, interest: real, principal: real, short: real,
                                       y: real, p: real)
    requires p > 0.0 && 1.0 + y > 0.0
    requires bal' == bal - principal - (short - (bal * y - interest))
    ensures (interest + principal) / ((1.0 + y) * p) + short / ((1.0 + y) * p) + bal' / ((1.0 + y) * p) == bal / p
  {
    var d := (1.0 + y) * p;
    MulPositive(1.0 + y, p);
    assert interest + principal + short + bal' == bal * (1.0 + y);
    assert (interest + principal) / d + short / d + bal' / d == (interest + principal + short + bal') / d;
    assert (bal / p) * p == bal;
    assert (bal / p) * d == bal * (1.0 + y);
    assert (bal * (1.0 + y)) / d == bal / p;
  }

  lemma {:induction false} DiscountedSnoc(cfs: seq<real>, c: real, y: real)
    requires y > -1.0
    ensures Pow(1.0 + y, |cfs| + 1) > 0.0
    ensures Discounted(cfs + [c], y) == Discounted(cfs, y) + c / Pow(1.0 + y, |cfs| + 1)
  {
    PowPositive(1.0 + y, |cfs| + 1);
    assert (cfs + [c])[..|cfs|] == cfs;
  }

  lemma {:induction false} PaymentsSnoc(flows: seq<Flow>, f: Flow)
    ensures Payments(flows + [f]) == Payments(flows) + [f.interest + f.principal]
  {
  }

  lemma {:induction false} DueAtRate(b: Bond)
    ensures b.Due() == b.bal * (b.coupon / 12.0)
  {
  }

  /** What one month adds on both sides of the par identity. */
  lemma {:induction false} ParStep(ts: Stack, row: Pool.Row, i: nat, y: real, n: nat)
    requires i < |ts| && y == ts[i].coupon / 12.0 > -1.0
    ensures Pow(1.0 + y, n) > 0.0 && Pow(1.0 + y, n + 1) > 0.0
    ensures (InterestPaid(ts, row, i) + PrincipalPaid(ts, row, i)) / Pow(1.0 + y, n + 1)
            + Shortfall(ts, row, i) / Pow(1.0 + y, n + 1) + Month(ts, row)[i].bal / Pow(1.0 + y, n + 1)
            == ts[i].bal / Pow(1.0 + y, n)
  {
    PowPositive(1.0 + y, n);
    PowPositive(1.0 + y, n + 1);
    PowStep(1.0 + y, n);
    MonthShape(ts, row, i);
    DueAtRate(ts[i]);
    hide Bond.Due, Month, PrincipalPaid, LossTaken, InterestPaid, Pow;
    RollForward(ts[i].bal, Month(ts, row)[i].bal, InterestPaid(ts, row, i), PrincipalPaid(ts, row, i),
                Shortfall(ts, row, i), y, Pow(1.0 + y, n));
  }

  /** The present value of a class's payments after a run, at rate y. */
  function Worth(b: Bond, y: real): real
    requires y > -1.0
  {
    Discounted(Payments(b.flows), y)
  }

  /** The balance left after n months, at its present value. */
  function Left(b: Bond, y: real, n: nat): real
    requires y > -1.0
  {
    PowPositive(1.0 + y, n);
    b.bal / Pow(1.0 + y, n)
  }

  /** On every run, at its own coupon, a class is worth its face less its discounted shortfalls and its
      discounted final balance. */
  lemma {:induction false} ParIdentity(ts: Stack, rows: seq<Pool.Row>, i: nat)
    requires FreshStack(ts) && i < |ts| && ts[i].coupon / 12.0 > -1.0
    ensures var y := ts[i].coupon / 12.0; var b := Run(ts, rows)[i];
            Worth(b, y) + DiscountedShortfalls(ts, rows, i, y) + Left(b, y, |rows|) == ts[i].orig
  {
    hide Month, Pow, Shortfall, Discounted, PrincipalPaid, LossTaken, InterestPaid, Payments;
    var y := ts[i].coupon / 12.0;
    if rows == [] {
      NothingDiscounted(y);
      LeftAtOnce(ts[i], y);
    } else {
      var n := |rows| - 1;
      var before, row := Run(ts, rows[..n]), rows[n];
      ParIdentity(ts, rows[..n], i);
      RunShape(ts, rows[..n], i);
      MonthShape(before, row, i);
      ParStep(before, row, i, y, n);
      var f := Flow(InterestPaid(before, row, i), PrincipalPaid(before, row, i));
      PaymentsSnoc(before[i].flows, f);
      DiscountedSnoc(Payments(before[i].flows), f.interest + f.principal, y);
    }
  }

  lemma {:induction false} NothingDiscounted(y: real)
    requires y > -1.0
    ensures Discounted(Payments([]), y) == 0.0
  {
  }

  lemma {:induction false} LeftAtOnce(b: Bond, y: real)
    requires y > -1.0
    ensures Left(b, y, 0) == b.bal
  {
    PowZero(1.0 + y);
  }

  // ----- par exactly when made whole

  lemma {:induction false} ScaleOne(c: real, orig: real, p: real)
    requires orig > 0.0 && p > 0.0
    ensures (c / orig * 100.0) / p == (c / p) / orig * 100.0
  {
    assert ((c / p) / orig * 100.0) * p == ((c / p) * p) / orig * 100.0;
    assert (c / p) * p == c;
  }

  lemma {:induction false} ScaleSum(a: real, b: real, orig: real)
    requires orig > 0.0
    ensures a / orig * 100.0 + b / orig * 100.0 == (a + b) / orig * 100.0
  {
  }

  lemma {:induction false} ScaledWorth(flows: seq<Flow>, orig: real, y: real)
    requires orig > 0.0 && y > -1.0
    ensures Discounted(Scaled(flows, orig), y) == Discounted(Payments(flows), y) / orig * 100.0
  {
    if flows != [] {
      var n := |flows| - 1;
      ScaledWorth(flows[..n], orig, y);
      PowPositive(1.0 + y, |flows|);
      var c := flows[n].interest + flows[n].principal;
      assert Scaled(flows, orig)[..n] == Scaled(flows[..n], orig);
      assert Payments(flows)[..n] == Payments(flows[..n]);
      hide Pow, Scaled, Payments;
      ScaleOne(c, orig, Pow(1.0 + y, |flows|));
      ScaleSum(Discounted(Payments(flows[..n]), y), c / Pow(1.0 + y, |flows|), orig);
    }
  }

  lemma {:induction false} ParPrice(worth: real, orig: real)
    requires orig > 0.0
    ensures worth / orig * 100.0 == 100.0 <==> worth == orig
  {
    assert (worth / orig) * orig == worth;
  }

  /** Every month paid the interest that was due, nothing was written down and nothing is left. */
  ghost predicate MadeWhole(ts: Stack, rows: seq<Pool.Row>, i: nat)
    requires i < |ts|
  {
    && Run(ts, rows)[i].bal == 0.0 && Run(ts, rows)[i].writedown == 0.0
    && AllPaidInFull(ts, rows, i)
  }

  ghost predicate AllPaidInFull(ts: Stack, rows: seq<Pool.Row>, i: nat)
    requires i < |ts|
  {
    forall k :: 0 <= k < |rows| ==> PaidInFull(ts, rows, i, k)
  }

  ghost predicate PaidInFull(ts: Stack, rows: seq<Pool.Row>, i: nat, k: nat)
    requires i < |ts| && k < |rows|
  {
    InterestPaid(Run(ts, rows[..k]), rows[k], i) == Run(ts, rows[..k])[i].Due()
  }

  lemma {:induction false} InterestAtMostDue(ts: Stack, row: Pool.Row, i: nat)
    requires i < |ts|
    ensures InterestPaid(ts, row, i) <= ts[i].Due()
  {
    hide Bond.Due, PayInterest;
    InterestAt(ts, row.interest, i);
  }

  lemma {:induction false} QuotientSign(s: real, p: real)
    requires s >= 0.0 && p > 0.0
    ensures s / p >= 0.0 && (s / p == 0.0 <==> s == 0.0)
  {
    assert (s / p) * p == s;
    if s / p < 0.0 {
      MulPositive(-(s / p), p);
    }
  }

  /** No shortfall is negative, and together they come to nothing exactly when no loss was taken and
      no interest was missed. */
  lemma {:induction false} ShortfallsVanish(ts: Stack, rows: seq<Pool.Row>, i: nat, y: real)
    requires FreshStack(ts) && CashRows(rows) && i < |ts| && y > -1.0
    ensures DiscountedShortfalls(ts, rows, i, y) >= 0.0 && Run(ts, rows)[i].writedown >= 0.0
    ensures DiscountedShortfalls(ts, rows, i, y) == 0.0
            <==> Run(ts, rows)[i].writedown == 0.0 && AllPaidInFull(ts, rows, i)
  {
    hide Month, Pow, PrincipalPaid, LossTaken, InterestPaid, Bond.Due;
    if rows != [] {
      var n := |rows| - 1;
      var before, row := Run(ts, rows[..n]), rows[n];
      ShortfallsVanish(ts, rows[..n], i, y);
      RunKeepsSolid(ts, rows[..n]);
      MonthKeepsSolid(before, row);
      MonthShape(before, row, i);
      InterestAtMostDue(before, row, i);
      PowPositive(1.0 + y, |rows|);
      QuotientSign(Shortfall(before, row, i), Pow(1.0 + y, |rows|));
      assert PaidInFull(ts, rows, i, n) <==> InterestPaid(before, row, i) == before[i].Due();
      PrefixPaidInFull(ts, rows, i);
    }
  }

  lemma {:induction false} PrefixPaidInFull(ts: Stack, rows: seq<Pool.Row>, i: nat)
    requires i < |ts| && rows != []
    ensures AllPaidInFull(ts, rows, i)
            <==> AllPaidInFull(ts, rows[..|rows| - 1], i) && PaidInFull(ts, rows, i, |rows| - 1)
  {
    hide Run, InterestPaid, Bond.Due;
    var front := rows[..|rows| - 1];
    forall k | 0 <= k < |front| ensures PaidInFull(ts, front, i, k) <==> PaidInFull(ts, rows, i, k) {
      assert front[..k] == rows[..k];
    }
  }

  /** At its own coupon a class prices at par exactly when the run makes it whole. */
  lemma {:induction false} ParExactlyWhenMadeWhole(ts: Stack, rows: seq<Pool.Row>, i: nat)
    requires FreshStack(ts) && CashRows(rows) && i < |ts| && ts[i].coupon >= 0.0 && ts[i].orig > 0.0
    ensures Discounted(Scaled(Run(ts, rows)[i].flows, ts[i].orig), ts[i].coupon / 12.0) == 100.0
            <==> MadeWhole(ts, rows, i)
  {
    hide Run, Pow, DiscountedShortfalls, Discounted, Scaled, Payments, AllPaidInFull;
    var y, b := ts[i].coupon / 12.0, Run(ts, rows)[i];
    ParIdentity(ts, rows, i);
    ShortfallsVanish(ts, rows, i, y);
    RunKeepsSolid(ts, rows);
    PowPositive(1.0 + y, |rows|);
    QuotientSign(b.bal, Pow(1.0 + y, |rows|));
    ScaledWorth(b.flows, ts[i].orig, y);
    ParPrice(Worth(b, y), ts[i].orig);
  }

  // ----- the yield of a class that is made whole

  lemma {:induction false} PaymentsOfRun(ts: Stack, rows: seq<Pool.Row>, i: nat)
    requires FreshStack(ts) && CashRows(rows) && i < |ts| && ts[i].coupon >= 0.0 && ts[i].orig > 0.0
    requires MadeWhole(ts, rows, i)
    ensures var scaled := Scaled(Run(ts, rows)[i].flows, ts[i].orig); NoNegative(scaled) && SomePositive(scaled)
  {
    hide Run, PrincipalPaid, InterestPaid, PrincipalOf;
    var flows := Run(ts, rows)[i].flows;
    RunShape(ts, rows, i);
    PrincipalNotNegative(ts, rows, i);
    forall k | 0 <= k < |rows| ensures flows[k].interest >= 0.0 {
      FlowOfMonth(ts, rows, i, k);
      assert PaidInFull(ts, rows, i, k);
      RunShape(ts, rows[..k], i);
      RunKeepsSolid(ts, rows[..k]);
      MulNotNegative(Run(ts, rows[..k])[i].bal, ts[i].coupon);
    }
    FaceIsAccountedFor(ts, rows, i);
    var m := FirstPayment(flows);
    ScalingKeepsSign(flows, ts[i].orig, m);
  }

  lemma {:induction false} ScalingKeepsSign(flows: seq<Flow>, orig: real, m: nat)
    requires orig > 0.0 && m < |flows| && flows[m].principal > 0.0
    requires forall k :: 0 <= k < |flows| ==> flows[k].interest >= 0.0 && flows[k].principal >= 0.0
    ensures NoNegative(Scaled(flows, orig)) && SomePositive(Scaled(flows, orig))
  {
    var scaled := Scaled(flows, orig);
    forall k | 0 <= k < |flows| ensures scaled[k] >= 0.0 && (k == m ==> scaled[k] > 0.0) {
      QuotientSign(flows[k].interest + flows[k].principal, orig);
    }
    assert scaled[m] > 0.0;
  }

  /** A class that is made whole, priced at par, is found a yield, and every bracket of the bisection
      holds its monthly coupon. */
  lemma {:induction false} WholeClassYieldsItsCoupon(ts: Stack, rows: seq<Pool.Row>, i: nat)
    requires FreshStack(ts) && CashRows(rows) && i < |ts| && ts[i].orig > 0.0
    requires 0.0 <= ts[i].coupon <= 24.0 && MadeWhole(ts, rows, i)
    ensures var scaled := Scaled(Run(ts, rows)[i].flows, ts[i].orig);
            && !Misses(scaled, 100.0)
            && forall lo, hi {:trigger Brackets(scaled, 100.0, lo, hi)} ::
                 -1.0 < lo <= hi && Brackets(scaled, 100.0, lo, hi)
                 ==> lo <= ts[i].coupon / 12.0 <= hi
  {
    hide Run, MadeWhole, Scaled, Brackets, Misses, NoNegative, SomePositive;
    var scaled := Scaled(Run(ts, rows)[i].flows, ts[i].orig);
    PaymentsOfRun(ts, rows, i);
    ParExactlyWhenMadeWhole(ts, rows, i);
    YieldInRange(scaled, 100.0, ts[i].coupon / 12.0);
    forall lo, hi | -1.0 < lo <= hi && Brackets(scaled, 100.0, lo, hi)
      ensures lo <= ts[i].coupon / 12.0 <= hi
    {
      BracketHoldsTheYield(scaled, 100.0, lo, hi, ts[i].coupon / 12.0);
    }
  }
}
