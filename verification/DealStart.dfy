/** What a deal starts from: class by class, in percent, and next to the pool. */
module DealStart {
  import opened Options
  import opened RealPowers
  import opened Waterfall
  import opened Seniority
  import opened Tranches
  import opened Deal
  import Pool

  // ----- coupons

  /** A hundred of a class is due its listed percent of interest in twelve months, none when none is listed. */
  lemma {:induction false} CouponIsPercent(listing: Listing, b: Bond)
    requires b.bal == 100.0 && b.coupon == CouponOf(listing)
    ensures 12.0 * b.Due() == match listing.coupon { case None => 0.0 case Some(percent) => percent }
  {
  }

  // ----- seasoning, class by class

  lemma {:induction false} Left(bal: real, above: real, paid: real)
    requires bal >= 0.0
    ensures bal - Min(bal, Max(0.0, paid - above)) == Max(0.0, Min(bal, above + bal - paid))
  {
  }

  /** What seasoning leaves of a class: all of it, or what the principal paid falls short of the faces down to it. */
  lemma {:induction false} SeasonAt(ts: Stack, paid: real, i: nat)
    requires FreshStack(ts) && paid >= 0.0 && i < |ts|
    ensures var b, left := Season(ts, paid).0[i], Max(0.0, Min(ts[i].bal, Total(ts[..i + 1]) - paid));
            b == ts[i].(bal := left, orig := left)
  {
    hide Season, Max, Min, Total;
    SeasonPrefix(ts, paid, i);
    SeasonBurns(ts[..i], paid);
    TotalPrefix(ts, i);
    Left(ts[i].bal, Total(ts[..i]), paid);
  }

  lemma {:induction false} TotalPrefix(ts: Stack, i: nat)
    requires i < |ts|
    ensures Total(ts[..i + 1]) == Total(ts[..i]) + ts[i].bal
  {
    hide Total;
    assert ts[..i + 1] == ts[..i] + [ts[i]];
    TotalSnoc(ts[..i], ts[i]);
  }

  /** A class of more than a dollar survives, behind the survivors above it; every other class is dropped. */
  lemma {:induction false} SurvivorAt(ts: Stack, i: nat)
    requires i < |ts|
    ensures forall b :: b in Surviving(ts) ==> b in ts && b.bal > 1.0
    ensures var k := |Surviving(ts[..i])|;
            ts[i].bal > 1.0 ==> k < |Surviving(ts)| && Surviving(ts)[k] == ts[i]
    decreases |ts|
  {
    var n := |ts| - 1;
    SurvivorsAreClasses(ts);
    if i < n {
      SurvivorAt(ts[..n], i);
      assert ts[..n][..i] == ts[..i];
    }
  }

  lemma {:induction false} SurvivorsAreClasses(ts: Stack)
    ensures forall b :: b in Surviving(ts) ==> b in ts && b.bal > 1.0
  {
    if ts != [] {
      SurvivorsAreClasses(ts[..|ts| - 1]);
    }
  }

  // ----- the stack next to the pool

  /** The faces as listed, together. */
  function Listed(listing: seq<Listing>): real {
    if listing == [] then 0.0 else Listed(listing[..|listing| - 1]) + listing[|listing| - 1].balance
  }

  lemma {:induction false} IssuedTotal(listing: seq<Listing>)
    ensures Total(Issued(listing)) == Listed(listing)
  {
    if listing != [] {
      var n := |listing| - 1;
      IssuedTotal(listing[..n]);
      assert Issued(listing) == Issued(listing[..n]) + [Issued(listing)[n]];
      TotalSnoc(Issued(listing[..n]), Issued(listing)[n]);
    }
  }

  /** At issuance the pool is the size of the bonds, which are as listed. */
  lemma {:induction false} IssuedMeetsPool(listing: seq<Listing>, curBal: real)
    requires PlausibleListing(listing)
    ensures StartPool(listing, true, curBal) == Total(StartStack(listing, true, curBal)) == Listed(listing)
    ensures |StartStack(listing, true, curBal)| == |listing|
    ensures forall i :: 0 <= i < |listing| ==> StartStack(listing, true, curBal)[i].bal == listing[i].balance
  {
    hide Total, TotalFace, Listed;
    IssuedTotal(listing);
    ListingIsFresh(listing);
    FreshFaceIsTotal(Issued(listing));
  }

  /** Otherwise the pool is the current one, and the bonds are that or what was listed, whichever is less,
      short by no more than a dollar a class. */
  lemma {:induction false} SeasonedMeetsPool(listing: seq<Listing>, curBal: real)
    requires PlausibleListing(listing) && curBal >= 0.0
    ensures StartPool(listing, false, curBal) == curBal
    ensures var least, total := Min(curBal, Listed(listing)), Total(StartStack(listing, false, curBal));
            least - |listing| as real <= total <= least
  {
    hide Total, TotalFace, Listed, Issued, Season, Surviving;
    IssuedTotal(listing);
    ListingIsFresh(listing);
    var issued := Issued(listing);
    FreshFaceIsTotal(issued);
    var paid := Max(0.0, TotalFace(issued) - curBal);
    SeasonBurns(issued, paid);
    SurvivorsTotal(Season(issued, paid).0);
  }
}
