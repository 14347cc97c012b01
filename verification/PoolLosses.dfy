/** What a run of the pool loses to defaults, and what it gets back of them. */
module PoolLosses {
  import opened RealPowers
  import opened Pool

  /** The balances that the first k months open with, together. */
  function Opened(t: Terms, balance: real, k: nat): real
    requires k == 0 || k <= t.months
  {
    if k == 0 then 0.0 else Opened(t, balance, k - 1) + After(t, balance, k - 1).bal
  }

  function LossesOf(t: Terms, balance: real, k: nat): real
    requires k == 0 || k <= t.months
  {
    if k == 0 then 0.0 else LossesOf(t, balance, k - 1) + RowOf(t, k, After(t, balance, k - 1)).loss
  }

  function RecoveriesOf(t: Terms, balance: real, k: nat): real
    requires k == 0 || k <= t.months
  {
    if k == 0 then 0.0 else RecoveriesOf(t, balance, k - 1) + RowOf(t, k, After(t, balance, k - 1)).recovery
  }

  /** That part of the defaults on balances of that sum. */
  function Part(t: Terms, part: real, balances: real): real {
    part * (t.mdr * balances)
  }

  lemma {:induction false} PartGrows(t: Terms, part: real, sum: real, more: real, whole: real)
    requires whole == sum + more
    ensures Part(t, part, whole) == Part(t, part, sum) + Part(t, part, more)
  {
  }

  lemma {:induction false} PartOfNothing(t: Terms, part: real, nothing: real)
    requires nothing == 0.0
    ensures Part(t, part, nothing) == 0.0
  {
  }

  lemma {:induction false} DefaultParts(t: Terms, bal: real)
    ensures Lost(t, bal) == Part(t, t.severity, bal) && Recovered(t, bal) == Part(t, 1.0 - t.severity, bal)
  {
  }

  lemma {:induction false} RowCarries(t: Terms, m: int, s: State)
    requires m <= t.months
    ensures RowOf(t, m, s).loss == Lost(t, s.bal)
    ensures RowOf(t, m, s).recovery
            == (if t.lag > 0 then 0.0 else Recovered(t, s.bal)) + SumDue(Queued(t, m, s), m)
    ensures Next(t, m, s).pending == NotDue(Queued(t, m, s), m)
  {
    hide Scheduled, Prepaid, Performing, Interest, SumDue, NotDue, Queued, Lost, Recovered;
  }

  lemma {:induction false} QueueGrows(t: Terms, m: int, s: State)
    ensures Waiting(Queued(t, m, s)) == Waiting(s.pending) + if t.lag > 0 then Recovered(t, s.bal) else 0.0
  {
    hide Recovered;
    if t.lag > 0 {
      assert Queued(t, m, s)[..|s.pending|] == s.pending;
    }
  }

  /** What of a month's defaults is lost, and what is not. */
  lemma {:induction false} LossOfMonth(t: Terms, m: int, s: State)
    requires m <= t.months
    ensures RowOf(t, m, s).loss == Part(t, t.severity, s.bal)
    ensures RowOf(t, m, s).recovery + Waiting(Next(t, m, s).pending)
            == Waiting(s.pending) + Part(t, 1.0 - t.severity, s.bal)
  {
    hide *;
    DefaultParts(t, s.bal);
    RowCarries(t, m, s);
    QueueGrows(t, m, s);
    SplitsByDueMonth(Queued(t, m, s), m);
  }

  lemma {:induction false} SumsUnfold(t: Terms, balance: real, k: nat)
    requires k == 0 || k <= t.months
    ensures k == 0 ==> LossesOf(t, balance, k) == RecoveriesOf(t, balance, k) == Opened(t, balance, k) == 0.0
    ensures k == 0 ==> Waiting(After(t, balance, k).pending) == 0.0
    ensures k > 0 ==> var s := After(t, balance, k - 1);
                      && LossesOf(t, balance, k) == LossesOf(t, balance, k - 1) + RowOf(t, k, s).loss
                      && RecoveriesOf(t, balance, k) == RecoveriesOf(t, balance, k - 1) + RowOf(t, k, s).recovery
                      && Opened(t, balance, k) == Opened(t, balance, k - 1) + s.bal
                      && After(t, balance, k) == Next(t, k, s)
  {
    hide RowOf, Next;
  }

  lemma {:induction false} PartIs(t: Terms, part: real, balances: real, sum: real)
    requires sum == Part(t, part, balances)
    ensures sum == part * (t.mdr * balances)
  {
  }

  lemma {:induction false} DefaultsArePassedOn(t: Terms, balance: real, k: nat)
    requires k == 0 || k <= t.months
    ensures LossesOf(t, balance, k) == Part(t, t.severity, Opened(t, balance, k))
    ensures RecoveriesOf(t, balance, k) + Waiting(After(t, balance, k).pending)
            == Part(t, 1.0 - t.severity, Opened(t, balance, k))
  {
    hide *;
    SumsUnfold(t, balance, k);
    if k == 0 {
      PartOfNothing(t, t.severity, Opened(t, balance, k));
      PartOfNothing(t, 1.0 - t.severity, Opened(t, balance, k));
    } else {
      var s := After(t, balance, k - 1);
      DefaultsArePassedOn(t, balance, k - 1);
      LossOfMonth(t, k, s);
      PartGrows(t, t.severity, Opened(t, balance, k - 1), s.bal, Opened(t, balance, k));
      PartGrows(t, 1.0 - t.severity, Opened(t, balance, k - 1), s.bal, Opened(t, balance, k));
    }
  }

  /** Over any number of months the losses are severity times the defaults, and the recoveries, received or
      still waiting, are the rest of them; a month defaults mdr times the balance it opens with. */
  lemma {:induction false} LossesAreSeverity(t: Terms, balance: real, k: nat)
    requires k == 0 || k <= t.months
    ensures LossesOf(t, balance, k) == t.severity * (t.mdr * Opened(t, balance, k))
    ensures RecoveriesOf(t, balance, k) + Waiting(After(t, balance, k).pending)
            == (1.0 - t.severity) * (t.mdr * Opened(t, balance, k))
  {
    hide *;
    DefaultsArePassedOn(t, balance, k);
    PartIs(t, t.severity, Opened(t, balance, k), LossesOf(t, balance, k));
    PartIs(t, 1.0 - t.severity, Opened(t, balance, k),
           RecoveriesOf(t, balance, k) + Waiting(After(t, balance, k).pending));
  }
}
