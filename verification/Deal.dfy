/** A whole deal: pool, seasoned stack and waterfall together, and the parity of bonds and collateral. */
module Deal {
  import opened RealPowers
  import opened Waterfall
  import opened Seniority
  import opened Tranches
  import Pool

  // ----- seasoning realigns the stack to the pool

  lemma {:induction false} SeasonStep(total: real, bal: real, paid: real)
    requires total >= 0.0 && bal >= 0.0 && paid >= 0.0
    ensures var left := Max(0.0, paid - total);
            && left - Min(bal, left) == Max(0.0, paid - (total + bal))
            && Max(0.0, total - paid) + (bal - Min(bal, left)) == Max(0.0, total + bal - paid)
            && 0.0 <= bal - Min(bal, left)
  {
  }

  /** Seasoning burns off exactly what was paid, or the whole stack, and leaves fresh classes. */
  lemma {:induction false} SeasonBurns(ts: Stack, paid: real)
    requires FreshStack(ts) && paid >= 0.0
    ensures var r := Season(ts, paid);
            && Total(ts) >= 0.0 && r.1 == Max(0.0, paid - Total(ts))
            && Total(r.0) == Max(0.0, Total(ts) - paid) && FreshStack(r.0)
  {
    if ts == [] {
      assert Max(0.0, paid - 0.0) == paid && Max(0.0, 0.0 - paid) == 0.0;
    } else {
      hide Max, Min;
      var n := |ts| - 1;
      SeasonBurns(ts[..n], paid);
      var (front, left) := Season(ts[..n], paid);
      SeasonStep(Total(ts[..n]), ts[n].bal, paid);
      var b := ts[n].(bal := ts[n].bal - Min(ts[n].bal, left), orig := ts[n].bal - Min(ts[n].bal, left));
      TotalSnoc(front, b);
    }
  }

  /** Principal is burnt off from the senior end: a class is cut only when those above it are gone. */
  lemma {:induction false} SeasonIsSequential(ts: Stack, paid: real, i: nat, j: nat)
    requires FreshStack(ts) && paid >= 0.0 && i < j < |ts|
    requires Season(ts, paid).0[j].bal < ts[j].bal
    ensures Season(ts, paid).0[i].bal == 0.0
  {
    hide Max, Season;
    SeasonPrefix(ts, paid, i);
    SeasonPrefix(ts, paid, j);
    SeasonLeftShrinks(ts, paid, i + 1, j);
    SeasonLeftShrinks(ts, paid, j, j);
    SeasonLeftShrinks(ts, paid, i, i);
  }

  lemma {:induction false} SeasonLeftShrinks(ts: Stack, paid: real, i: nat, j: nat)
    requires FreshStack(ts) && paid >= 0.0 && i <= j <= |ts|
    ensures 0.0 <= Season(ts[..j], paid).1 <= Season(ts[..i], paid).1
    decreases j
  {
    if j == 0 {
      assert Season(ts[..0], paid).1 == paid;
    } else {
      hide Season;
      SeasonPrefix(ts, paid, j - 1);
      if i < j {
        SeasonLeftShrinks(ts, paid, i, j - 1);
      } else {
        SeasonLeftShrinks(ts, paid, j - 1, j - 1);
      }
    }
  }

  /** Dropping classes of a dollar or less lowers the total by at most a dollar a class. */
  lemma {:induction false} SurvivorsTotal(ts: Stack)
    requires FreshStack(ts)
    ensures FreshStack(Surviving(ts))
    ensures Total(ts) - |ts| as real <= Total(Surviving(ts)) <= Total(ts)
  {
    hide *;
    if ts == [] {
      NoSurvivors(ts);
    } else {
      var n := |ts| - 1;
      SurvivorsUnfold(ts);
      SurvivorsTotal(ts[..n]);
      TotalSnoc(Surviving(ts[..n]), ts[n]);
      FreshSnoc(Surviving(ts[..n]), ts[n]);
      assert |ts| as real == n as real + 1.0;
    }
  }

  lemma {:induction false} NoSurvivors(ts: Stack)
    requires ts == []
    ensures FreshStack(Surviving(ts)) && Total(Surviving(ts)) == Total(ts) == 0.0 && |ts| as real == 0.0
  {
  }

  lemma {:induction false} SurvivorsUnfold(ts: Stack)
    requires FreshStack(ts) && ts != []
    ensures var n := |ts| - 1;
            && FreshStack(ts[..n]) && ts[n].Fresh() && ts[n].bal >= 0.0 && Total(ts) == Total(ts[..n]) + ts[n].bal
            && Surviving(ts) == if ts[n].bal > 1.0 then Surviving(ts[..n]) + [ts[n]] else Surviving(ts[..n])
  {
    assert Surviving(ts[..|ts| - 1]) + [] == Surviving(ts[..|ts| - 1]);
  }

  lemma {:induction false} FreshSnoc(ts: Stack, b: Bond)
    requires FreshStack(ts) && b.Fresh()
    ensures FreshStack(ts + [b])
  {
    hide Bond.Fresh;
  }

  lemma {:induction false} FreshFaceIsTotal(ts: Stack)
    requires FreshStack(ts)
    ensures TotalFace(ts) == Total(ts)
  {
    if ts != [] {
      FreshFaceIsTotal(ts[1..]);
      TotalSplits(ts, 1);
      assert ts[..1][..0] == [];
    }
  }

  // ----- parity

  /** A month lowers the stack by at least the principal and the loss of its row, up to EPS. */
  lemma {:induction false} MonthTotal(ts: Stack, row: Pool.Row)
    requires Solid(ts) && CashRow(row)
    ensures Total(Month(ts, row)) <= Max(0.0, Total(ts) - row.principal - row.loss + EPS)
    ensures Total(Month(ts, row)) >= 0.0
  {
    assert ts == [] ==> Total(Month(ts, row)) == 0.0;
    hide Bond.Due, PayInterest, PayPrincipal, WriteDown, Total;
    var (interest, excess) := PayInterest(ts, row.interest);
    InterestLeavesCash(ts, row.interest);
    PrincipalRetires(ts, interest, row.principal + excess);
    MonthKeepsSolid(ts, row);
    LossIsAbsorbed(AfterPrincipal(ts, row), row.loss);
    NothingLeft(Month(ts, row));
  }

  lemma {:induction false} RowsAreCash(t: Pool.Terms, balance: real, rows: seq<Pool.Row>)
    requires Pool.IsRun(t, balance, rows) && t.Sane() && balance >= 0.0
    ensures CashRows(rows)
  {
    hide Pool.RowOf, Pool.After;
    forall k | 0 <= k < |rows| ensures CashRow(rows[k]) {
      Pool.RowsAreNotNegative(t, balance, k);
    }
  }

  /** What backs the bonds after k months: the pool and the recoveries on their way. */
  function Backing(t: Pool.Terms, balance: real, k: nat): real
    requires k == 0 || k <= t.months
  {
    Pool.After(t, balance, k).bal + Pool.Waiting(Pool.After(t, balance, k).pending)
  }

  lemma {:induction false} BackingNotNegative(t: Pool.Terms, balance: real, k: nat)
    requires k == 0 || k <= t.months
    requires t.Sane() && balance >= 0.0
    ensures Backing(t, balance, k) >= 0.0
  {
    hide Pool.Next, Pool.RowOf;
    if k > 0 {
      Pool.BalanceClosedForm(t, balance, k);
      Pool.QueueNotNegative(t, balance, k);
    }
  }

  lemma {:induction false} ParityStep(bonds: real, bonds': real, backing: real, backing': real,
                                      principal: real, loss: real, k: nat)
    requires bonds <= backing + k as real * EPS
    requires bonds' <= Max(0.0, bonds - principal - loss + EPS)
    requires backing == principal + loss + backing' && backing' >= 0.0
    ensures bonds' <= backing' + (k + 1) as real * EPS
  {
    assert (k + 1) as real == k as real + 1.0;
  }

  /** Bonds never outgrow their backing: not in any month, at any lag, for any coupons. */
  lemma {:induction false} BondsStayBacked(t: Pool.Terms, balance: real, rows: seq<Pool.Row>, ts: Stack, k: nat)
    requires Pool.IsRun(t, balance, rows) && t.Sane() && balance >= 0.0
    requires Solid(ts) && Total(ts) <= balance && k <= |rows|
    ensures Total(Run(ts, rows[..k])) <= Backing(t, balance, k) + k as real * EPS
  {
    hide Run, Month, Pool.After, Pool.Next, Pool.RowOf, Pool.IsRun, Total, Pool.Waiting, Backing, Solid,
         CashRows;
    if k == 0 {
      assert rows[..0] == [];
      RunOfNothing(ts);
      FullBacking(t, balance);
    } else {
      BondsStayBacked(t, balance, rows, ts, k - 1);
      RowsAreCash(t, balance, rows);
      RunUnfolds(ts, rows, k - 1);
      CashPrefix(rows, k - 1);
      RunKeepsSolid(ts, rows[..k - 1]);
      RowOfRun(t, balance, rows, k - 1);
      MonthTotal(Run(ts, rows[..k - 1]), rows[k - 1]);
      BackingMoves(t, balance, k);
      BackingNotNegative(t, balance, k);
      ParityStep(Total(Run(ts, rows[..k - 1])), Total(Run(ts, rows[..k])), Backing(t, balance, k - 1),
                 Backing(t, balance, k), rows[k - 1].principal, rows[k - 1].loss, k - 1);
    }
  }

  lemma {:induction false} FullBacking(t: Pool.Terms, balance: real)
    ensures Backing(t, balance, 0) == balance
  {
  }

  lemma {:induction false} CashPrefix(rows: seq<Pool.Row>, k: nat)
    requires CashRows(rows) && k < |rows|
    ensures CashRows(rows[..k]) && CashRow(rows[k])
  {
  }

  lemma {:induction false} RowOfRun(t: Pool.Terms, balance: real, rows: seq<Pool.Row>, k: nat)
    requires Pool.IsRun(t, balance, rows) && k < |rows|
    ensures k < t.months && rows[k] == Pool.RowOf(t, k + 1, Pool.After(t, balance, k))
  {
    hide Pool.RowOf, Pool.After;
  }

  lemma {:induction false} BackingMoves(t: Pool.Terms, balance: real, k: nat)
    requires 1 <= k <= t.months
    ensures var row := Pool.RowOf(t, k, Pool.After(t, balance, k - 1));
            Backing(t, balance, k - 1) == row.principal + row.loss + Backing(t, balance, k)
  {
    hide Pool.Next, Pool.RowOf;
    Pool.MonthConserves(t, k, Pool.After(t, balance, k - 1));
  }

  // ----- the deal as the command line runs it

  ghost predicate PlausibleListing(listing: seq<Listing>) {
    forall i :: 0 <= i < |listing| ==> listing[i].balance >= 0.0
  }

  /** The bonds as listed. */
  function Issued(listing: seq<Listing>): (r: Stack)
    ensures |r| == |listing|
  {
    seq(|listing|, i requires 0 <= i < |listing| =>
      Bond(listing[i].balance, listing[i].balance, CouponOf(listing[i]), 0.0, []))
  }

  /** The stack a deal starts from: at issuance the bonds as listed, otherwise what seasoning down to the
      current pool leaves of them. */
  function StartStack(listing: seq<Listing>, atIssuance: bool, curBal: real): Stack {
    var issued := Issued(listing);
    if atIssuance then issued else Surviving(Season(issued, Max(0.0, TotalFace(issued) - curBal)).0)
  }

  /** The pool balance it starts from: at issuance a pool the size of the bonds. */
  function StartPool(listing: seq<Listing>, atIssuance: bool, curBal: real): real {
    if atIssuance then TotalFace(Issued(listing)) else curBal
  }

  method BuildStack(listing: seq<Listing>) returns (ts: seq<Tranche>)
    ensures |ts| == |listing| && Distinct(ts) && fresh(ts)
    ensures Values(ts) == Issued(listing)
  {
    hide CouponOf;
    ts := [];
    for i := 0 to |listing|
      invariant |ts| == i && Distinct(ts) && fresh(ts)
      invariant forall k :: 0 <= k < i ==>
                  ts[k].Value() == Bond(listing[k].balance, listing[k].balance, CouponOf(listing[k]), 0.0, [])
    {
      var t := new Tranche(listing[i]);
      ts := ts + [t];
    }
    ValuesAre(ts, Issued(listing));
  }

  method StartOf(listing: seq<Listing>, atIssuance: bool, curBal: real) returns (ts: seq<Tranche>, bal: real)
    ensures fresh(ts) && Distinct(ts)
    ensures Values(ts) == StartStack(listing, atIssuance, curBal) && bal == StartPool(listing, atIssuance, curBal)
  {
    hide Season, Surviving, Values, TotalFace, Issued;
    ts := BuildStack(listing);
    bal := TotalFace(Values(ts));
    if !atIssuance {
      var paid := bal - curBal;
      bal := curBal;
      ts := SeasonStack(ts, paid);
    }
  }

  lemma {:induction false} ListingIsFresh(listing: seq<Listing>)
    requires PlausibleListing(listing)
    ensures FreshStack(Issued(listing))
  {
  }

  /** Both ways of starting leave fresh bonds that the pool covers. */
  lemma {:induction false} StartIsBacked(listing: seq<Listing>, atIssuance: bool, curBal: real)
    requires PlausibleListing(listing) && curBal >= 0.0
    ensures var start := StartStack(listing, atIssuance, curBal);
            FreshStack(start) && 0.0 <= Total(start) <= StartPool(listing, atIssuance, curBal)
  {
    hide Total, Season, Surviving, TotalFace, Bond.Fresh, Issued;
    ListingIsFresh(listing);
    FreshFaceIsTotal(Issued(listing));
    SeasonBurns(Issued(listing), 0.0);
    SeasonFits(Issued(listing), curBal);
  }

  /** Sets the deal up, amortises the pool and runs the waterfall. */
  method RunDeal(listing: seq<Listing>, atIssuance: bool, curBal: real, t: Pool.Terms)
    returns (ts: seq<Tranche>, rows: seq<Pool.Row>)
    ensures Pool.IsRun(t, StartPool(listing, atIssuance, curBal), rows)
    ensures Values(ts) == Run(StartStack(listing, atIssuance, curBal), rows)
  {
    hide Run, Values, StartStack, StartPool, Pool.IsRun;
    var bal;
    ts, bal := StartOf(listing, atIssuance, curBal);
    ghost var end;
    rows, end := Pool.Amortize(bal, t);
    RunWaterfall(ts, rows);
  }

  /** Every deal run this way is backed in every month. */
  lemma {:induction false} DealStaysBacked(listing: seq<Listing>, atIssuance: bool, curBal: real, t: Pool.Terms,
                                           rows: seq<Pool.Row>)
    requires PlausibleListing(listing) && curBal >= 0.0 && t.Sane()
    requires Pool.IsRun(t, StartPool(listing, atIssuance, curBal), rows)
    ensures var start := StartStack(listing, atIssuance, curBal);
            var pool := StartPool(listing, atIssuance, curBal);
            forall k :: 0 <= k <= |rows| ==> Total(Run(start, rows[..k])) <= Backing(t, pool, k) + k as real * EPS
  {
    hide Run, Backing, Total, Pool.After, Pool.RowOf, PlausibleListing, StartStack, StartPool;
    hide Pool.Terms.Sane, Bond.Fresh;
    StartIsBacked(listing, atIssuance, curBal);
    AlwaysBacked(t, StartPool(listing, atIssuance, curBal), rows, StartStack(listing, atIssuance, curBal));
  }

  lemma {:induction false} AlwaysBacked(t: Pool.Terms, balance: real, rows: seq<Pool.Row>, ts: Stack)
    requires Pool.IsRun(t, balance, rows) && t.Sane() && FreshStack(ts) && 0.0 <= Total(ts) <= balance
    ensures forall k :: 0 <= k <= |rows| ==>
              Total(Run(ts, rows[..k])) <= Backing(t, balance, k) + k as real * EPS
  {
    hide Run, Backing, Total, Pool.After, Pool.RowOf;
    forall k | 0 <= k <= |rows|
      ensures Total(Run(ts, rows[..k])) <= Backing(t, balance, k) + k as real * EPS
    {
      BondsStayBacked(t, balance, rows, ts, k);
    }
  }

  /** Seasoning down to the current pool leaves a fresh stack that the pool covers, short of it by no
      more than a dollar a class when the issue was at least as large as the pool. */
  lemma {:induction false} SeasonFits(issued: Stack, curBal: real)
    requires FreshStack(issued) && curBal >= 0.0
    ensures var seasoned := Surviving(Season(issued, Max(0.0, TotalFace(issued) - curBal)).0);
            && FreshStack(seasoned) && 0.0 <= Total(seasoned) <= curBal
            && (Total(issued) >= curBal ==> Total(seasoned) >= curBal - |issued| as real)
  {
    hide Season, Surviving, Total, TotalFace;
    var paid := Max(0.0, TotalFace(issued) - curBal);
    FreshFaceIsTotal(issued);
    SeasonBurns(issued, paid);
    SurvivorsTotal(Season(issued, paid).0);
    SeasonBurns(Surviving(Season(issued, paid).0), 0.0);
  }
}
