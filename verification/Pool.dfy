/** The collateral pool: month by month amortisation under prepayments, defaults and lagged recoveries. */
module Pool {
  import opened RealPowers

  /** rate is the monthly note rate; smm and mdr are the monthly prepayment and default rates. */
  datatype Terms = Terms(rate: real, months: int, smm: real, mdr: real, severity: real, lag: int) {
    /** Rates and shares as the documentation describes them. */
    ghost predicate Sane() {
      && 0.0 <= rate && 0.0 <= smm <= 1.0 && 0.0 <= mdr <= 1.0 && 0.0 <= severity <= 1.0
    }
  }

  datatype Row = Row(month: int, interest: real, schedPrin: real, prepay: real, recovery: real,
                     loss: real, principal: real, balanceEnd: real)

  /** Recovery cash waiting for the month it is due in. */
  datatype Recovery = Recovery(due: int, amount: real)

  /** What is left of the pool between two months. */
  datatype State = State(bal: real, pending: seq<Recovery>)

  const STOP := 0.000001

  lemma {:induction false} ReciprocalBelowOne(a: real)
    requires a > 1.0
    ensures 0.0 < 1.0 / a < 1.0 && (1.0 / a) * a == 1.0
  {
  }

  /** Share of the performing balance that a level payment over n months retires in the first. */
  function Factor(r: real, n: nat): real
    requires n >= 1
  {
    if r > 0.0 then
      PowGains(r, n);
      var discount := 1.0 / Pow(1.0 + r, n);
      ReciprocalBelowOne(Pow(1.0 + r, n));
      (r * discount) / (1.0 - discount)
    else 1.0 / n as real
  }

  function Default(t: Terms, bal: real): real {
    bal * t.mdr
  }

  function Performing(t: Terms, bal: real): real {
    bal - Default(t, bal)
  }

  function Scheduled(t: Terms, m: int, bal: real): real
    requires m <= t.months
  {
    var perf := Performing(t, bal);
    Min(perf * Factor(t.rate, t.months - m + 1), perf)
  }

  function Prepaid(t: Terms, m: int, bal: real): real
    requires m <= t.months
  {
    (Performing(t, bal) - Scheduled(t, m, bal)) * t.smm
  }

  function Interest(t: Terms, bal: real): real {
    Performing(t, bal) * t.rate
  }

  function Lost(t: Terms, bal: real): real {
    Default(t, bal) * t.severity
  }

  function Recovered(t: Terms, bal: real): real {
    Default(t, bal) * (1.0 - t.severity)
  }

  /** The recoveries waiting once this month's own has been deferred. */
  function Queued(t: Terms, m: int, s: State): seq<Recovery> {
    if t.lag > 0 then s.pending + [Recovery(m + t.lag, Recovered(t, s.bal))] else s.pending
  }

  function SumDue(pending: seq<Recovery>, m: int): real {
    if pending == [] then 0.0
    else SumDue(pending[..|pending| - 1], m)
         + if pending[|pending| - 1].due == m then pending[|pending| - 1].amount else 0.0
  }

  function NotDue(pending: seq<Recovery>, m: int): seq<Recovery> {
    if pending == [] then []
    else NotDue(pending[..|pending| - 1], m)
         + if pending[|pending| - 1].due != m then [pending[|pending| - 1]] else []
  }

  function RowOf(t: Terms, m: int, s: State): Row
    requires m <= t.months
  {
    var sched := Scheduled(t, m, s.bal);
    var prepay := Prepaid(t, m, s.bal);
    var rec := (if t.lag > 0 then 0.0 else Recovered(t, s.bal)) + SumDue(Queued(t, m, s), m);
    Row(m, Interest(t, s.bal), sched, prepay, rec, Lost(t, s.bal),
        sched + prepay + rec, Performing(t, s.bal) - sched - prepay)
  }

  function Next(t: Terms, m: int, s: State): State
    requires m <= t.months
  {
    State(RowOf(t, m, s).balanceEnd, NotDue(Queued(t, m, s), m))
  }

  /** The pool after k months. */
  function After(t: Terms, balance: real, k: nat): State
    requires k == 0 || k <= t.months
  {
    if k == 0 then State(balance, []) else Next(t, k, After(t, balance, k - 1))
  }

  /** rows are the months of a pool that starts at balance, up to the last month of the term or
      the first month that opens at no more than the stopping balance. */
  ghost predicate IsRun(t: Terms, balance: real, rows: seq<Row>) {
    && (rows == [] || |rows| <= t.months)
    && (forall k :: 0 <= k < |rows| ==>
          rows[k] == RowOf(t, k + 1, After(t, balance, k)) && After(t, balance, k).bal > STOP)
    && (|rows| < t.months ==> After(t, balance, |rows|).bal <= STOP)
  }

  /** The body of the monthly loop. */
  method AmortizeMonth(t: Terms, m: int, bal: real, pending: seq<Recovery>)
    returns (row: Row, queue: seq<Recovery>)
    requires m <= t.months
    ensures row == RowOf(t, m, State(bal, pending))
    ensures State(row.balanceEnd, queue) == Next(t, m, State(bal, pending))
  {
    hide Scheduled, Prepaid, Performing, Default, Recovered, Lost, Interest;
    var perf := Performing(t, bal);
    var sched := Scheduled(t, m, bal);
    var prepay := Prepaid(t, m, bal);
    var rec := Recovered(t, bal);
    queue := pending;
    if t.lag > 0 {
      queue := queue + [Recovery(m + t.lag, rec)];
      rec := 0.0;
    }
    rec := rec + SumDue(queue, m);
    queue := NotDue(queue, m);
    row := Row(m, Interest(t, bal), sched, prepay, rec, Lost(t, bal), sched + prepay + rec,
               perf - sched - prepay);
  }

  method Amortize(balance: real, t: Terms) returns (rows: seq<Row>, ghost end: State)
    ensures IsRun(t, balance, rows)
    ensures end == After(t, balance, |rows|)
  {
    hide RowOf, Next;
    rows := [];
    var bal, pending := balance, [];
    var m := 1;
    while m <= t.months
      invariant m == |rows| + 1 && (rows == [] || |rows| <= t.months)
      invariant State(bal, pending) == After(t, balance, |rows|)
      invariant forall k :: 0 <= k < |rows| ==>
                  rows[k] == RowOf(t, k + 1, After(t, balance, k)) && After(t, balance, k).bal > STOP
    {
      if bal <= STOP {
        break;
      }
      var row;
      row, pending := AmortizeMonth(t, m, bal, pending);
      rows := rows + [row];
      bal := row.balanceEnd;
      m := m + 1;
    }
    end := State(bal, pending);
  }

  // ----- conservation of the opening balance

  function Waiting(pending: seq<Recovery>): real {
    if pending == [] then 0.0 else Waiting(pending[..|pending| - 1]) + pending[|pending| - 1].amount
  }

  /** Principal passed on and losses taken in the first k months. */
  function Released(t: Terms, balance: real, k: nat): real
    requires k == 0 || k <= t.months
  {
    if k == 0 then 0.0
    else
      var row := RowOf(t, k, After(t, balance, k - 1));
      Released(t, balance, k - 1) + row.principal + row.loss
  }

  lemma {:induction false} SplitsByDueMonth(pending: seq<Recovery>, m: int)
    ensures SumDue(pending, m) + Waiting(NotDue(pending, m)) == Waiting(pending)
  {
    if pending != [] {
      var n := |pending| - 1;
      SplitsByDueMonth(pending[..n], m);
      var kept := NotDue(pending[..n], m);
      assert (kept + [pending[n]])[..|kept|] == kept;
      assert kept + [] == kept;
    }
  }

  /** One month moves cash from the pool and the queue to principal and loss, and loses none of it. */
  lemma {:induction false} MonthConserves(t: Terms, m: int, s: State)
    requires m <= t.months
    ensures var row, next := RowOf(t, m, s), Next(t, m, s);
            s.bal + Waiting(s.pending) == row.principal + row.loss + next.bal + Waiting(next.pending)
  {
    hide Scheduled, Prepaid, Performing, Default, Recovered, Lost, Interest;
    DefaultSplits(t, s.bal);
    SplitsByDueMonth(Queued(t, m, s), m);
    if t.lag > 0 {
      assert Queued(t, m, s)[..|s.pending|] == s.pending;
    }
  }

  lemma {:induction false} DefaultSplits(t: Terms, bal: real)
    ensures Recovered(t, bal) + Lost(t, bal) == Default(t, bal)
    ensures Performing(t, bal) + Default(t, bal) == bal
  {
  }

  /** Whatever the rates, the lag and the severity: the opening balance is the principal passed on,
      the losses, the recoveries still waiting and the balance that is left. */
  lemma {:induction false} OpeningBalanceIsConserved(t: Terms, balance: real, k: nat)
    requires k == 0 || k <= t.months
    ensures var s := After(t, balance, k);
            balance == Released(t, balance, k) + Waiting(s.pending) + s.bal
  {
    hide RowOf, Next;
    if k > 0 {
      OpeningBalanceIsConserved(t, balance, k - 1);
      MonthConserves(t, k, After(t, balance, k - 1));
    }
  }

  // ----- the queue of recoveries

  /** What the months first..last put into the queue. */
  function Deferred(t: Terms, balance: real, first: nat, last: nat): seq<Recovery>
    requires 1 <= first && (last == 0 || last <= t.months)
    decreases last
  {
    if last < first then []
    else Deferred(t, balance, first, last - 1)
         + [Recovery(last + t.lag, Recovered(t, After(t, balance, last - 1).bal))]
  }

  lemma {:induction false} NoneDue(t: Terms, balance: real, first: nat, last: nat, m: int)
    requires 1 <= first && (last == 0 || last <= t.months) && m < first + t.lag
    ensures SumDue(Deferred(t, balance, first, last), m) == 0.0
    ensures NotDue(Deferred(t, balance, first, last), m) == Deferred(t, balance, first, last)
    decreases last
  {
    hide Recovered, After;
    if first <= last {
      var front := Deferred(t, balance, first, last - 1);
      NoneDue(t, balance, first, last - 1, m);
      assert Deferred(t, balance, first, last)[..|front|] == front;
    }
  }

  lemma {:induction false} OldestDue(t: Terms, balance: real, first: nat, last: nat)
    requires 1 <= first <= last <= t.months
    ensures SumDue(Deferred(t, balance, first, last), first + t.lag)
            == Recovered(t, After(t, balance, first - 1).bal)
    ensures NotDue(Deferred(t, balance, first, last), first + t.lag) == Deferred(t, balance, first + 1, last)
    decreases last
  {
    hide Recovered, After;
    var front := Deferred(t, balance, first, last - 1);
    assert Deferred(t, balance, first, last)[..|front|] == front;
    if first < last {
      OldestDue(t, balance, first, last - 1);
    } else {
      assert front == [];
    }
  }

  lemma {:induction false} MonthQueue(t: Terms, m: int, s: State)
    requires m <= t.months
    ensures Next(t, m, s).pending == NotDue(Queued(t, m, s), m)
    ensures t.lag > 0 ==> RowOf(t, m, s).recovery == SumDue(Queued(t, m, s), m)
  {
    hide Scheduled, Prepaid, Performing, Recovered, Lost, Interest;
  }

  /** The queue holds exactly the recoveries of the last lag months, and a row receives exactly the
      recovery of the month lag months before it. */
  lemma {:induction false} QueueIsLastMonths(t: Terms, balance: real, k: nat)
    requires k == 0 || k <= t.months
    requires t.lag > 0
    ensures After(t, balance, k).pending
            == Deferred(t, balance, if k > t.lag then k - t.lag + 1 else 1, k)
    ensures 0 < k ==> RowOf(t, k, After(t, balance, k - 1)).recovery
                      == if k > t.lag then Recovered(t, After(t, balance, k - t.lag - 1).bal) else 0.0
  {
    hide RowOf, Next, Recovered, SumDue, NotDue;
    if k > 0 {
      QueueIsLastMonths(t, balance, k - 1);
      var s := After(t, balance, k - 1);
      var first := if k - 1 > t.lag then k - t.lag else 1;
      assert Queued(t, k, s) == Deferred(t, balance, first, k);
      MonthQueue(t, k, s);
      if k > t.lag {
        OldestDue(t, balance, first, k);
      } else {
        NoneDue(t, balance, first, k, k);
      }
    }
  }

  lemma {:induction false} NoLagNoQueue(t: Terms, balance: real, k: nat)
    requires k == 0 || k <= t.months
    requires t.lag <= 0
    ensures After(t, balance, k).pending == []
  {
    hide RowOf;
    if k > 0 {
      NoLagNoQueue(t, balance, k - 1);
    }
  }

  // ----- the closed form of the balance

  lemma {:induction false} EqualShareBound(f: real, n: real, r: real, a: real)
    requires f > 0.0 && r > 0.0 && n >= 1.0 && a >= 1.0 + n * r && f * (a - 1.0) == r
    ensures f <= 1.0 / n
  {
    MulMonotone(f, n * r, a - 1.0);
    assert f * (n * r) == (f * n) * r;
    CancelPositive(f * n, 1.0, r);
    QuotientBound(f, n, 1.0);
  }

  /** The level payment never asks for more than an equal share of the remaining months. */
  lemma {:induction false} FactorAtMostEqualShare(r: real, n: nat)
    requires n >= 1
    ensures 0.0 < Factor(r, n) <= 1.0 / n as real
    ensures Factor(r, n) <= 1.0
    ensures r > 0.0 ==> Factor(r, n) * (Pow(1.0 + r, n) - 1.0) == r
    ensures r <= 0.0 ==> Factor(r, n) == 1.0 / n as real
  {
    hide Pow;
    QuotientBound(1.0, n as real, n as real);
    assert 1.0 / n as real <= 1.0;
    if r > 0.0 {
      PowGains(r, n);
      LevelShare(r, Pow(1.0 + r, n), Factor(r, n));
      EqualShareBound(Factor(r, n), n as real, r, Pow(1.0 + r, n));
    }
  }

  lemma {:induction false} LevelShare(r: real, a: real, f: real)
    requires r > 0.0 && a > 1.0 && 1.0 / a != 1.0 && f == (r * (1.0 / a)) / (1.0 - 1.0 / a)
    ensures f > 0.0 && f * (a - 1.0) == r
  {
    var d := 1.0 / a;
    ReciprocalBelowOne(a);
    MulPositive(r, d);
    assert f * (1.0 - d) == r * d;
    ScaleUp(f, d, a, r);
  }

  lemma {:induction false} ScaleUp(f: real, d: real, a: real, r: real)
    requires d * a == 1.0 && f * (1.0 - d) == r * d
    ensures f * (a - 1.0) == r
  {
    assert (f * (1.0 - d)) * a == f * a - f * (d * a);
    assert (r * d) * a == r * (d * a);
  }

  /** What a level-pay loan over N months still owes after k of them, as a share of the loan. */
  function Level(r: real, N: nat, k: nat): real
    requires N >= 1 && k <= N
  {
    if r > 0.0 then
      PowGains(r, N);
      (Pow(1.0 + r, N) - Pow(1.0 + r, k)) / (Pow(1.0 + r, N) - 1.0)
    else (N - k) as real / N as real
  }

  lemma {:induction false} LevelRatio(f: real, r: real, done: real, a: real, den: real, next: real)
    requires f * (a - 1.0) == r && den > 0.0 && next == (1.0 + r) * done
    ensures (done * a - next) / den == ((done * a - done) / den) * (1.0 - f)
  {
    calc {
      (done * a - done) * (1.0 - f);
      done * (a - 1.0) - done * (f * (a - 1.0));
      done * a - done - done * r;
      done * a - next;
    }
  }

  lemma {:induction false} EqualShareRatio(f: real, left: real, whole: real)
    requires left >= 1.0 && whole >= 1.0 && f == 1.0 / left
    ensures (left - 1.0) / whole == (left / whole) * (1.0 - f)
  {
    assert left * f == 1.0;
    calc {
      (left / whole) * (1.0 - f);
      (left * (1.0 - f)) / whole;
      (left - left * f) / whole;
    }
  }

  lemma {:induction false} LevelStep(r: real, N: nat, k: nat)
    requires 0 <= k < N
    ensures Level(r, N, k + 1) == Level(r, N, k) * (1.0 - Factor(r, N - k))
  {
    hide Factor;
    var n := N - k;
    FactorAtMostEqualShare(r, n);
    if r > 0.0 {
      PowAdds(1.0 + r, k, n);
      PowGains(r, N);
      LevelRatio(Factor(r, n), r, Pow(1.0 + r, k), Pow(1.0 + r, n), Pow(1.0 + r, N) - 1.0, Pow(1.0 + r, k + 1));
    } else {
      assert (N - (k + 1)) as real == n as real - 1.0;
      EqualShareRatio(Factor(r, n), n as real, N as real);
    }
  }

  /** The balance after k months is the level-pay balance, thinned every month by defaults and
      prepayments; the cap on scheduled principal never changes it. */
  lemma {:induction false} BalanceClosedForm(t: Terms, balance: real, k: nat)
    requires 0 <= k <= t.months && t.months >= 1
    requires 0.0 <= t.smm <= 1.0 && 0.0 <= t.mdr <= 1.0 && balance >= 0.0
    ensures After(t, balance, k).bal
            == Pow((1.0 - t.mdr) * (1.0 - t.smm), k) * (balance * Level(t.rate, t.months, k))
    ensures After(t, balance, k).bal >= 0.0
  {
    hide Factor, RowOf, Next, Level;
    LevelEnds(t.rate, t.months);
    if k > 0 {
      BalanceClosedForm(t, balance, k - 1);
      var b := After(t, balance, k - 1).bal;
      MonthBalance(t, k, After(t, balance, k - 1));
      LevelStep(t.rate, t.months, k - 1);
      var q := (1.0 - t.mdr) * (1.0 - t.smm);
      var f := Factor(t.rate, t.months - k + 1);
      var l := Level(t.rate, t.months, k - 1);
      ThinnedLevel(q, Pow(q, k - 1), balance, l, f, b);
    }
  }

  /** The monthly rates are those that a year of months compounds to the yearly ones: every year thins the
      level-pay balance by the yearly prepayment and default rates. */
  lemma {:induction false} YearsThin(t: Terms, balance: real, cpr: real, cdr: real, years: nat)
    requires 12 * years <= t.months && t.months >= 1
    requires 0.0 <= t.smm <= 1.0 && 0.0 <= t.mdr <= 1.0 && balance >= 0.0
    requires Pow(1.0 - t.smm, 12) == 1.0 - cpr && Pow(1.0 - t.mdr, 12) == 1.0 - cdr
    ensures After(t, balance, 12 * years).bal
            == Pow((1.0 - cdr) * (1.0 - cpr), years) * (balance * Level(t.rate, t.months, 12 * years))
  {
    hide Pow, After, Level;
    BalanceClosedForm(t, balance, 12 * years);
    var q, yearly := (1.0 - t.mdr) * (1.0 - t.smm), (1.0 - cdr) * (1.0 - cpr);
    YearFactor(q, 1.0 - t.mdr, 1.0 - t.smm, yearly, 1.0 - cdr, 1.0 - cpr, years);
    assert Pow(q, 12 * years) == Pow(yearly, years);
  }

  lemma {:induction false} YearFactor(q: real, a: real, b: real, yearly: real, c: real, d: real, years: nat)
    requires q == a * b && yearly == c * d && Pow(a, 12) == c && Pow(b, 12) == d
    ensures Pow(q, 12 * years) == Pow(yearly, years)
  {
    hide Pow;
    PowOfPower(q, 12, years);
    PowOfProduct(a, b, 12);
    SameProduct(Pow(q, 12), Pow(a, 12), c, Pow(b, 12), d);
  }

  lemma {:induction false} MonthBalance(t: Terms, m: int, s: State)
    requires 1 <= m <= t.months && s.bal >= 0.0
    requires 0.0 <= t.smm <= 1.0 && 0.0 <= t.mdr <= 1.0
    ensures Next(t, m, s).bal
            == (1.0 - t.mdr) * (1.0 - t.smm) * s.bal * (1.0 - Factor(t.rate, t.months - m + 1)) >= 0.0
  {
    hide Factor, Scheduled, Prepaid, Performing, Default;
    MonthThins(t, m, s.bal);
  }

  lemma {:induction false} LevelEnds(r: real, N: nat)
    requires N >= 1
    ensures Level(r, N, 0) == 1.0 && Level(r, N, N) == 0.0
  {
    if r > 0.0 {
      PowGains(r, N);
      QuotientEnds(Pow(1.0 + r, N) - 1.0);
    } else {
      QuotientEnds(N as real);
    }
  }

  lemma {:induction false} QuotientEnds(d: real)
    requires d > 0.0
    ensures d / d == 1.0 && 0.0 / d == 0.0
  {
  }

  lemma {:induction false} ThinnedLevel(q: real, thinned: real, balance: real, level: real, f: real, b: real)
    requires b == thinned * (balance * level)
    ensures q * b * (1.0 - f) == (q * thinned) * (balance * (level * (1.0 - f)))
  {
  }

  /** One month of a pool that is not negative: the scheduled share is not capped, and what is left
      has survived default, schedule and prepayment in turn. */
  lemma {:induction false} MonthThins(t: Terms, m: int, bal: real)
    requires 1 <= m <= t.months && bal >= 0.0
    requires 0.0 <= t.smm <= 1.0 && 0.0 <= t.mdr <= 1.0
    ensures Scheduled(t, m, bal) == Performing(t, bal) * Factor(t.rate, t.months - m + 1)
    ensures Performing(t, bal) - Scheduled(t, m, bal) - Prepaid(t, m, bal)
            == (1.0 - t.mdr) * (1.0 - t.smm) * bal * (1.0 - Factor(t.rate, t.months - m + 1)) >= 0.0
    ensures Scheduled(t, m, bal) >= 0.0 && Prepaid(t, m, bal) >= 0.0 && Performing(t, bal) >= 0.0
    ensures Default(t, bal) >= 0.0
  {
    hide Factor;
    var f := Factor(t.rate, t.months - m + 1);
    FactorAtMostEqualShare(t.rate, t.months - m + 1);
    MonthIs(t, m, bal);
    hide Default, Performing, Scheduled, Prepaid;
    Thinned(bal, t.mdr, t.smm, f, Default(t, bal), Performing(t, bal), Scheduled(t, m, bal), Prepaid(t, m, bal));
  }

  lemma {:induction false} MonthIs(t: Terms, m: int, bal: real)
    requires m <= t.months
    ensures Default(t, bal) == bal * t.mdr && Performing(t, bal) == bal - Default(t, bal)
    ensures Scheduled(t, m, bal) == Min(Performing(t, bal) * Factor(t.rate, t.months - m + 1), Performing(t, bal))
    ensures Prepaid(t, m, bal) == (Performing(t, bal) - Scheduled(t, m, bal)) * t.smm
  {
    hide Factor;
  }

  lemma {:induction false} Share(x: real, part: real)
    requires x >= 0.0 && 0.0 <= part <= 1.0
    ensures 0.0 <= x * part <= x && x - x * part == x * (1.0 - part)
  {
    MulNotNegative(x, part);
    MulNotNegative(x, 1.0 - part);
  }

  lemma {:induction false} Thinned(bal: real, mdr: real, smm: real, f: real,
                                   default: real, perf: real, sched: real, prepaid: real)
    requires bal >= 0.0 && 0.0 <= mdr <= 1.0 && 0.0 <= smm <= 1.0 && 0.0 <= f <= 1.0
    requires default == bal * mdr && perf == bal - default
    requires sched == Min(perf * f, perf) && prepaid == (perf - sched) * smm
    ensures default >= 0.0 && perf >= 0.0 && sched >= 0.0 && prepaid >= 0.0 && sched == perf * f
    ensures perf - sched - prepaid == (1.0 - mdr) * (1.0 - smm) * bal * (1.0 - f) >= 0.0
  {
    Share(bal, mdr);
    Share(perf, f);
    Share(perf - sched, smm);
    LeftAfterShares(bal, 1.0 - mdr, 1.0 - f, 1.0 - smm, perf, perf - sched, perf - sched - prepaid);
  }

  lemma {:induction false} LeftAfterShares(bal: real, a: real, b: real, c: real, perf: real, rest: real, left: real)
    requires perf == bal * a && rest == perf * b && left == rest * c
    ensures left == a * c * bal * b
  {
    assert rest * c == ((bal * a) * b) * c;
  }

  /** The instalment of a level-pay loan over N months, as a share of the loan. */
  function Payment(r: real, N: nat): real
    requires N >= 1
  {
    if r > 0.0 then
      PowGains(r, N);
      r * Pow(1.0 + r, N) / (Pow(1.0 + r, N) - 1.0)
    else 1.0 / N as real
  }

  lemma {:induction false} PaymentRatio(f: real, r: real, done: real, a: real, den: real)
    requires f * (a - 1.0) == r && den > 0.0
    ensures ((done * a - done) / den) * (r + f) == (r * (done * a)) / den
  {
    calc {
      (done * a - done) * (r + f);
      done * ((a - 1.0) * r + f * (a - 1.0));
      done * ((a - 1.0) * r + r);
      r * (done * a);
    }
  }

  lemma {:induction false} EqualShareTimes(f: real, left: real, whole: real)
    requires left >= 1.0 && whole >= 1.0 && f == 1.0 / left
    ensures (left / whole) * f == 1.0 / whole
  {
    assert left * f == 1.0;
    assert (left / whole) * f == (left * f) / whole;
  }

  lemma {:induction false} InterestBearingPayment(r: real, N: nat, k: nat)
    requires 0 <= k < N && r > 0.0
    ensures Level(r, N, k) * (r + Factor(r, N - k)) == Payment(r, N)
  {
    hide Factor, Pow;
    var n := N - k;
    FactorAtMostEqualShare(r, n);
    PowAdds(1.0 + r, k, n);
    PowGains(r, N);
    var (done, a, den) := (Pow(1.0 + r, k), Pow(1.0 + r, n), Pow(1.0 + r, N) - 1.0);
    assert Level(r, N, k) == (done * a - done) / den && Payment(r, N) == (r * (done * a)) / den;
    hide Level, Payment;
    PaymentRatio(Factor(r, n), r, done, a, den);
  }

  /** Interest and scheduled share together are the same part of the loan in every month. */
  lemma {:induction false} LevelPayment(r: real, N: nat, k: nat)
    requires 0 <= k < N && r >= 0.0
    ensures Level(r, N, k) * (r + Factor(r, N - k)) == Payment(r, N)
  {
    if r > 0.0 {
      InterestBearingPayment(r, N, k);
    } else {
      hide Factor;
      FactorAtMostEqualShare(r, N - k);
      EqualShareTimes(Factor(r, N - k), (N - k) as real, N as real);
    }
  }

  lemma {:induction false} InstalmentProduct(bal: real, mdr: real, r: real, f: real, thin: real, balance: real,
                                             level: real, payment: real)
    requires bal == thin * (balance * level) && level * (r + f) == payment
    ensures (bal - bal * mdr) * r + (bal - bal * mdr) * f == (1.0 - mdr) * (thin * (balance * payment))
  {
    calc {
      (bal - bal * mdr) * r + (bal - bal * mdr) * f;
      (1.0 - mdr) * (bal * (r + f));
      (1.0 - mdr) * (thin * (balance * (level * (r + f))));
    }
  }

  /** Every month's interest and scheduled principal make the level instalment, on the loans that still
      perform: with neither defaults nor prepayments the same amount each month. */
  lemma {:induction false} InstalmentsAreLevel(t: Terms, balance: real, k: nat)
    requires 0 <= k < t.months && t.rate >= 0.0 && balance >= 0.0
    requires 0.0 <= t.smm <= 1.0 && 0.0 <= t.mdr <= 1.0
    ensures var row := RowOf(t, k + 1, After(t, balance, k));
            row.interest + row.schedPrin
            == (1.0 - t.mdr) * (Pow((1.0 - t.mdr) * (1.0 - t.smm), k) * (balance * Payment(t.rate, t.months)))
  {
    hide Factor, Level, Payment, After, Scheduled, Prepaid, Queued, SumDue, Pow;
    BalanceClosedForm(t, balance, k);
    var b := After(t, balance, k).bal;
    MonthThins(t, k + 1, b);
    LevelPayment(t.rate, t.months, k);
    InstalmentProduct(b, t.mdr, t.rate, Factor(t.rate, t.months - k), Pow((1.0 - t.mdr) * (1.0 - t.smm), k), balance,
                      Level(t.rate, t.months, k), Payment(t.rate, t.months));
  }

  /** Over the whole term nothing is left; a run that stops earlier leaves at most the stopping balance. */
  lemma {:induction false} RunEndsAtStop(t: Terms, balance: real, rows: seq<Row>)
    requires IsRun(t, balance, rows) && t.months >= 1
    requires 0.0 <= t.smm <= 1.0 && 0.0 <= t.mdr <= 1.0 && balance >= 0.0
    ensures 0.0 <= After(t, balance, |rows|).bal <= 0.000001
    ensures forall k :: 0 <= k < |rows| ==> After(t, balance, k).bal > 0.000001
    ensures |rows| == t.months ==> After(t, balance, |rows|).bal == 0.0
  {
    hide After, Level, RowOf;
    BalanceClosedForm(t, balance, |rows|);
    LevelEnds(t.rate, t.months);
  }

  lemma {:induction false} RestSplits(rest: real, smm: real, prepaid: real, left: real)
    requires prepaid == rest * smm && left == rest - prepaid
    ensures prepaid * (1.0 - smm) == smm * left
  {
  }

  /** A row carries its month, and what a month opens with is what it defaults, schedules, prepays and leaves;
      of what the schedule leaves, prepaid and kept are as smm and 1 - smm. */
  lemma {:induction false} RowAddsUp(t: Terms, m: int, s: State)
    requires m <= t.months
    ensures var row := RowOf(t, m, s);
            && row.month == m && row.principal == row.schedPrin + row.prepay + row.recovery
            && s.bal == t.mdr * s.bal + row.schedPrin + row.prepay + row.balanceEnd
            && row.prepay * (1.0 - t.smm) == t.smm * row.balanceEnd
  {
    var sched, perf := Scheduled(t, m, s.bal), Performing(t, s.bal);
    hide Scheduled, Interest, Recovered, Lost, Queued, SumDue;
    RestSplits(perf - sched, t.smm, Prepaid(t, m, s.bal), perf - sched - Prepaid(t, m, s.bal));
  }

  /** No row of a sane pool carries a negative amount. */
  lemma {:induction false} RowsAreNotNegative(t: Terms, balance: real, k: nat)
    requires 0 <= k < t.months && t.Sane() && balance >= 0.0
    ensures var row := RowOf(t, k + 1, After(t, balance, k));
            && row.interest >= 0.0 && row.schedPrin >= 0.0 && row.prepay >= 0.0
            && row.recovery >= 0.0 && row.loss >= 0.0 && row.principal >= 0.0 && row.balanceEnd >= 0.0
    ensures Waiting(After(t, balance, k).pending) >= 0.0
  {
    hide After, RowOf, Waiting, NotNegative, Factor;
    BalanceClosedForm(t, balance, k);
    QueueNotNegative(t, balance, k);
    RowNotNegative(t, k + 1, After(t, balance, k));
  }

  lemma {:induction false} RowNotNegative(t: Terms, m: int, s: State)
    requires 1 <= m <= t.months && t.Sane() && s.bal >= 0.0 && NotNegative(Queued(t, m, s))
    ensures var row := RowOf(t, m, s);
            && row.interest >= 0.0 && row.schedPrin >= 0.0 && row.prepay >= 0.0
            && row.recovery >= 0.0 && row.loss >= 0.0 && row.principal >= 0.0 && row.balanceEnd >= 0.0
  {
    hide Factor, Scheduled, Prepaid, Performing, Default, Recovered, Lost, Interest, Queued;
    MonthThins(t, m, s.bal);
    MonthBalance(t, m, s);
    SharesNotNegative(t, s.bal);
    DueNotNegative(Queued(t, m, s), m);
  }

  lemma {:induction false} SharesNotNegative(t: Terms, bal: real)
    requires t.Sane() && Performing(t, bal) >= 0.0 && Default(t, bal) >= 0.0
    ensures Interest(t, bal) >= 0.0 && Lost(t, bal) >= 0.0 && Recovered(t, bal) >= 0.0
  {
    MulNotNegative(Performing(t, bal), t.rate);
    MulNotNegative(Default(t, bal), t.severity);
    MulNotNegative(Default(t, bal), 1.0 - t.severity);
  }

  ghost predicate NotNegative(pending: seq<Recovery>) {
    forall i :: 0 <= i < |pending| ==> pending[i].amount >= 0.0
  }

  lemma {:induction false} DueNotNegative(pending: seq<Recovery>, m: int)
    requires NotNegative(pending)
    ensures SumDue(pending, m) >= 0.0 && NotNegative(NotDue(pending, m)) && Waiting(pending) >= 0.0
  {
    if pending != [] {
      DueNotNegative(pending[..|pending| - 1], m);
    }
  }

  lemma {:induction false} QueueNotNegative(t: Terms, balance: real, k: nat)
    requires 0 <= k <= t.months && t.months >= 1
    requires t.Sane() && balance >= 0.0
    ensures NotNegative(After(t, balance, k).pending) && Waiting(After(t, balance, k).pending) >= 0.0
    ensures k < t.months ==> NotNegative(Queued(t, k + 1, After(t, balance, k)))
  {
    hide *;
    if k > 0 {
      QueueNotNegative(t, balance, k - 1);
      MonthQueue(t, k, After(t, balance, k - 1));
      DueNotNegative(Queued(t, k, After(t, balance, k - 1)), k);
    }
    AfterIs(t, balance, k);
    if k < t.months {
      BalanceNotNegative(t, balance, k);
      QueuedNotNegative(t, k + 1, After(t, balance, k));
    }
    DueNotNegative(After(t, balance, k).pending, k);
  }

  lemma {:induction false} BalanceNotNegative(t: Terms, balance: real, k: nat)
    requires 0 <= k <= t.months && t.months >= 1 && t.Sane() && balance >= 0.0
    ensures After(t, balance, k).bal >= 0.0
  {
    hide After;
    BalanceClosedForm(t, balance, k);
  }

  lemma {:induction false} AfterIs(t: Terms, balance: real, k: nat)
    requires 0 <= k <= t.months
    ensures k > 0 ==> After(t, balance, k) == Next(t, k, After(t, balance, k - 1))
    ensures k == 0 ==> NotNegative(After(t, balance, k).pending)
  {
    hide Next;
  }

  lemma {:induction false} QueuedNotNegative(t: Terms, m: int, s: State)
    requires 1 <= m <= t.months && t.Sane() && s.bal >= 0.0 && NotNegative(s.pending)
    ensures NotNegative(Queued(t, m, s))
  {
    hide Performing, Default, Recovered, Factor, Scheduled, Prepaid;
    MonthThins(t, m, s.bal);
    SharesNotNegative(t, s.bal);
  }
}
