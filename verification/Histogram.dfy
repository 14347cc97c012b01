/** Quantiles from a histogram that is filled chunk by chunk. */
module Histogram {
  import opened RealPowers

  // ----- bins

  /** The edges of one bin or more. */
  predicate Edges(bins: seq<real>) {
    |bins| >= 2 && forall i, j :: 0 <= i < j < |bins| ==> bins[i] < bins[j]
  }

  /** How many edges are at most v, counted from edge k on: searchsorted on the right. */
  function EdgesUpTo(bins: seq<real>, v: real, k: nat): (r: nat)
    requires k <= |bins|
    ensures k <= r <= |bins|
    ensures forall i :: k <= i < r ==> bins[i] <= v
    ensures r < |bins| ==> v < bins[r]
    decreases |bins| - k
  {
    if k == |bins| || v < bins[k] then k else EdgesUpTo(bins, v, k + 1)
  }

  /** The bin of v; what lies outside all bins goes into the first or the last. */
  function BinOf(bins: seq<real>, v: real): (b: nat)
    requires |bins| >= 2
    ensures b <= |bins| - 2
  {
    var i := EdgesUpTo(bins, v, 0) - 1;
    if i < 0 then 0 else if i > |bins| - 2 then |bins| - 2 else i
  }

  predicate InRange(bins: seq<real>, v: real)
    requires |bins| >= 2
  {
    bins[0] <= v <= bins[|bins| - 1]
  }

  lemma {:induction false} BinHolds(bins: seq<real>, v: real)
    requires Edges(bins) && InRange(bins, v)
    ensures var b := BinOf(bins, v); bins[b] <= v <= bins[b + 1]
  {
    var r := EdgesUpTo(bins, v, 0);
    if r == |bins| {
      assert bins[r - 1] <= v;
    }
  }

  /** A bin holds its lower edge and not its upper one, but for the last, which holds both; what lies outside
      goes into the first or the last. */
  lemma {:induction false} BinIsHalfOpen(bins: seq<real>, v: real)
    requires Edges(bins)
    ensures var b, last := BinOf(bins, v), |bins| - 2;
            && (InRange(bins, v) ==> bins[b] <= v && (v < bins[b + 1] || b == last))
            && (v < bins[0] ==> b == 0) && (v >= bins[last] ==> b == last)
  {
    var r := EdgesUpTo(bins, v, 0);
    if r == |bins| {
      assert bins[r - 1] <= v;
    }
    assert bins[0] <= bins[|bins| - 2] < bins[|bins| - 1];
  }

  lemma {:induction false} BinIsMonotone(bins: seq<real>, v: real, w: real)
    requires Edges(bins) && v <= w
    ensures BinOf(bins, v) <= BinOf(bins, w)
  {
    var r, t := EdgesUpTo(bins, v, 0), EdgesUpTo(bins, w, 0);
    if t < r {
      assert false;
    }
  }

  // ----- counting

  function CountIf(p: real -> bool, s: seq<real>): (n: nat)
    ensures n <= |s|
  {
    if s == [] then 0 else CountIf(p, s[..|s| - 1]) + (if p(s[|s| - 1]) then 1 else 0)
  }

  lemma {:induction false} CountJoins(p: real -> bool, s: seq<real>, t: seq<real>)
    ensures CountIf(p, s + t) == CountIf(p, s) + CountIf(p, t)
    decreases |t|
  {
    if t == [] {
      assert s + t == s;
    } else {
      var n := |t| - 1;
      CountJoins(p, s, t[..n]);
      assert (s + t)[..|s| + n] == s + t[..n];
    }
  }

  /** Counting does not depend on order. */
  lemma {:induction false} CountOfPermutation(p: real -> bool, s: seq<real>, t: seq<real>)
    requires multiset(s) == multiset(t)
    ensures CountIf(p, s) == CountIf(p, t)
    decreases |s|
  {
    hide CountIf;
    if s == [] {
      assert |multiset(t)| == 0;
      assert t == [];
    } else {
      var n := |s| - 1;
      var x := s[n];
      assert x in multiset(t);
      var i :| 0 <= i < |t| && t[i] == x;
      WithoutLast(s);
      WithoutOne(t, i);
      CountOfPermutation(p, s[..n], t[..i] + t[i + 1..]);
      CountWithout(p, s, n);
      CountWithout(p, t, i);
      assert s[..n] + s[n + 1..] == s[..n];
    }
  }

  lemma {:induction false} WithoutOne(t: seq<real>, i: nat)
    requires i < |t|
    ensures multiset(t[..i] + t[i + 1..]) == multiset(t) - multiset{t[i]}
  {
    assert t == t[..i] + [t[i]] + t[i + 1..];
  }

  lemma {:induction false} WithoutLast(s: seq<real>)
    requires s != []
    ensures multiset(s[..|s| - 1]) == multiset(s) - multiset{s[|s| - 1]}
  {
    assert s == s[..|s| - 1] + [s[|s| - 1]];
  }

  lemma {:induction false} CountWithout(p: real -> bool, t: seq<real>, i: nat)
    requires i < |t|
    ensures CountIf(p, t) == CountIf(p, t[..i] + t[i + 1..]) + CountIf(p, [t[i]])
  {
    hide CountIf;
    assert t == t[..i] + [t[i]] + t[i + 1..];
    CountJoins(p, t[..i], t[i + 1..]);
    CountJoins(p, t[..i] + [t[i]], t[i + 1..]);
    CountJoins(p, t[..i], [t[i]]);
  }

  lemma {:induction false} CountAll(p: real -> bool, s: seq<real>)
    ensures (forall i :: 0 <= i < |s| ==> p(s[i])) ==> CountIf(p, s) == |s|
    ensures (forall i :: 0 <= i < |s| ==> !p(s[i])) ==> CountIf(p, s) == 0
  {
    if s != [] {
      CountAll(p, s[..|s| - 1]);
    }
  }

  /** _hist_counts: how many values fall into each bin. */
  function Counts(values: seq<real>, bins: seq<real>): (r: seq<nat>)
    requires |bins| >= 2
    ensures |r| == |bins| - 1
  {
    seq(|bins| - 1, i requires 0 <= i < |bins| - 1 => CountIf(v => BinOf(bins, v) == i, values))
  }

  function Add(a: seq<nat>, b: seq<nat>): (r: seq<nat>)
    requires |a| == |b|
    ensures |r| == |a|
  {
    seq(|a|, i requires 0 <= i < |a| => a[i] + b[i])
  }

  /** The counts of two chunks add up to the counts of both. */
  lemma {:induction false} CountsJoin(s: seq<real>, t: seq<real>, bins: seq<real>)
    requires |bins| >= 2
    ensures Counts(s + t, bins) == Add(Counts(s, bins), Counts(t, bins))
  {
    hide CountIf, BinOf;
    forall i | 0 <= i < |bins| - 1 ensures Counts(s + t, bins)[i] == Add(Counts(s, bins), Counts(t, bins))[i] {
      CountJoins(v => BinOf(bins, v) == i, s, t);
    }
  }

  function Sum(s: seq<real>): real {
    if s == [] then 0.0 else Sum(s[..|s| - 1]) + s[|s| - 1]
  }

  lemma {:induction false} SumJoins(s: seq<real>, t: seq<real>)
    ensures Sum(s + t) == Sum(s) + Sum(t)
    decreases |t|
  {
    if t == [] {
      assert s + t == s;
    } else {
      var n := |t| - 1;
      SumJoins(s, t[..n]);
      assert (s + t)[..|s| + n] == s + t[..n];
    }
  }

  lemma {:induction false} NothingCounted(bins: seq<real>)
    requires |bins| >= 2
    ensures Counts([], bins) == seq(|bins| - 1, _ => 0)
    ensures Sum([]) == 0.0 && CountIf(v => v < 0.0, []) == 0
  {
  }

  // ----- quantiles

  /** How much lies in the first k bins. */
  function Cum(counts: seq<nat>, k: nat): nat
    requires k <= |counts|
  {
    if k == 0 then 0 else Cum(counts, k - 1) + counts[k - 1]
  }

  lemma {:induction false} CumGrows(counts: seq<nat>, j: nat, k: nat)
    requires j <= k <= |counts|
    ensures Cum(counts, j) <= Cum(counts, k)
  {
    if j < k {
      CumGrows(counts, j, k - 1);
    }
  }

  /** The first bin, from k on, up to whose end the target is reached: searchsorted on the left. */
  function Reaches(counts: seq<nat>, target: real, k: nat): (r: nat)
    requires k <= |counts|
    ensures k <= r <= |counts|
    ensures r < |counts| ==> Cum(counts, r + 1) as real >= target
    ensures forall j :: k < j <= r ==> (Cum(counts, j) as real) < target
    decreases |counts| - k
  {
    if k == |counts| || Cum(counts, k + 1) as real >= target then k else Reaches(counts, target, k + 1)
  }

  /** The point between low and high at fraction f. */
  function Along(low: real, high: real, f: real): real {
    low + f * (high - low)
  }

  /** The point of bin i that the target picks by linear interpolation. */
  function Within(counts: seq<nat>, bins: seq<real>, target: real, i: nat): real
    requires i < |counts| && |bins| == |counts| + 1
  {
    var frac := if counts[i] == 0 then 0.0 else (target - Cum(counts, i) as real) / counts[i] as real;
    Along(bins[i], bins[i + 1], frac)
  }

  /** The point that a target picks. */
  function Pick(counts: seq<nat>, bins: seq<real>, target: real): real
    requires |bins| == |counts| + 1 && |counts| >= 1
  {
    var i := Reaches(counts, target, 0);
    Within(counts, bins, target, if i < |counts| then i else |counts| - 1)
  }

  /** n times x. */
  function Scaled(x: real, n: nat): real {
    x * n as real
  }

  function Percentile(counts: seq<nat>, bins: seq<real>, q: real): real
    requires |bins| == |counts| + 1 && |counts| >= 1
  {
    var total := Cum(counts, |counts|);
    if total == 0 then 0.0 else Pick(counts, bins, Scaled(q, total))
  }

  lemma {:induction false} FractionInUnit(x: real, n: real)
    requires n > 0.0 && 0.0 <= x <= n
    ensures 0.0 <= x / n <= 1.0
  {
  }

  lemma {:induction false} PartOfWidth(f: real, w: real)
    requires 0.0 <= f <= 1.0 && w >= 0.0
    ensures 0.0 <= f * w <= w
  {
    assert (1.0 - f) * w >= 0.0;
  }

  /** A target reached inside a bin picks a point of that bin. */
  lemma {:induction false} WithinStays(counts: seq<nat>, bins: seq<real>, target: real, i: nat)
    requires Edges(bins) && |bins| == |counts| + 1 && i < |counts|
    requires Cum(counts, i) as real <= target <= Cum(counts, i + 1) as real
    ensures bins[i] <= Within(counts, bins, target, i) <= bins[i + 1]
  {
    hide Cum;
    CumStep(counts, i);
    if counts[i] == 0 {
      PartOfWidth(0.0, bins[i + 1] - bins[i]);
    } else {
      FractionInUnit(target - Cum(counts, i) as real, counts[i] as real);
      PartOfWidth((target - Cum(counts, i) as real) / counts[i] as real, bins[i + 1] - bins[i]);
    }
  }

  lemma {:induction false} CumStep(counts: seq<nat>, i: nat)
    requires i < |counts|
    ensures Cum(counts, i + 1) == Cum(counts, i) + counts[i]
  {
  }

  /** A target that does not lie beyond the total is reached, and where it is reached its point lies. */
  lemma {:induction false} TargetBin(counts: seq<nat>, bins: seq<real>, target: real)
    requires Edges(bins) && |bins| == |counts| + 1 && 0.0 <= target <= Cum(counts, |counts|) as real
    ensures var i := Reaches(counts, target, 0);
            && i < |counts| && Pick(counts, bins, target) == Within(counts, bins, target, i)
            && bins[i] <= Pick(counts, bins, target) <= bins[i + 1]
  {
    hide Within;
    var i := Reaches(counts, target, 0);
    if i == |counts| {
      assert false;
    }
    WithinStays(counts, bins, target, i);
  }

  lemma {:induction false} ScaleMonotone(x: real, y: real, n: real)
    requires x <= y && n > 0.0
    ensures x / n <= y / n && x * n <= y * n
  {
  }

  lemma {:induction false} WithinMonotone(counts: seq<nat>, bins: seq<real>, t: real, u: real, i: nat)
    requires Edges(bins) && |bins| == |counts| + 1 && i < |counts| && t <= u
    ensures Within(counts, bins, t, i) <= Within(counts, bins, u, i)
  {
    hide Cum;
    var w := bins[i + 1] - bins[i];
    if counts[i] != 0 {
      var n := counts[i] as real;
      var x, y := t - Cum(counts, i) as real, u - Cum(counts, i) as real;
      ScaleMonotone(x, y, n);
      ScaleMonotone(x / n, y / n, w);
    }
  }

  /** A smaller target is reached no later. */
  lemma {:induction false} ReachesMonotone(counts: seq<nat>, t: real, u: real)
    requires t <= u
    ensures Reaches(counts, t, 0) <= Reaches(counts, u, 0)
  {
    hide Cum;
    var i, j := Reaches(counts, t, 0), Reaches(counts, u, 0);
    if j < i {
      assert false;
    }
  }

  lemma {:induction false} BinsInOrder(bins: seq<real>, x: real, i: nat, y: real, j: nat)
    requires Edges(bins) && i < j && j + 1 < |bins| && x <= bins[i + 1] && bins[j] <= y
    ensures x <= y
  {
    assert i + 1 == j || bins[i + 1] < bins[j];
  }

  lemma {:induction false} PickMonotone(counts: seq<nat>, bins: seq<real>, t: real, u: real)
    requires Edges(bins) && |bins| == |counts| + 1 && 0.0 <= t <= u <= Cum(counts, |counts|) as real
    ensures Pick(counts, bins, t) <= Pick(counts, bins, u)
  {
    hide Cum, Within, Pick, Reaches, Edges;
    TargetBin(counts, bins, t);
    TargetBin(counts, bins, u);
    var i, j := Reaches(counts, t, 0), Reaches(counts, u, 0);
    ReachesMonotone(counts, t, u);
    if i == j {
      WithinMonotone(counts, bins, t, u, i);
    } else {
      BinsInOrder(bins, Pick(counts, bins, t), i, Pick(counts, bins, u), j);
    }
  }

  lemma {:induction false} TargetInTotal(q: real, r: real, n: nat)
    requires 0.0 <= q <= r <= 1.0
    ensures 0.0 <= Scaled(q, n) <= Scaled(r, n) <= n as real
  {
    var x := n as real;
    PartOfWidth(q, x);
    PartOfWidth(r, x);
    MulMonotone(x, q, r);
    assert Scaled(q, n) == q * x == x * q && Scaled(r, n) == r * x == x * r;
  }

  /** A larger q never gives a smaller quantile. */
  lemma {:induction false} PercentileIsMonotone(counts: seq<nat>, bins: seq<real>, q: real, r: real)
    requires Edges(bins) && |bins| == |counts| + 1 && 0.0 <= q <= r <= 1.0
    ensures Percentile(counts, bins, q) <= Percentile(counts, bins, r)
  {
    hide Cum, Pick, Scaled;
    var total := Cum(counts, |counts|);
    TargetInTotal(q, r, total);
    if total > 0 {
      PickMonotone(counts, bins, Scaled(q, total), Scaled(r, total));
    }
  }

  /** Nothing counted has quantile zero; else the quantile at zero is the first edge of all, also where the first
      bins are empty. */
  lemma {:induction false} PercentileAtZero(counts: seq<nat>, bins: seq<real>, q: real)
    requires |bins| == |counts| + 1 && |counts| >= 1
    ensures Cum(counts, |counts|) == 0 ==> Percentile(counts, bins, q) == 0.0
    ensures Cum(counts, |counts|) > 0 ==> Percentile(counts, bins, 0.0) == bins[0]
  {
    var total := Cum(counts, |counts|);
    if total > 0 {
      NothingScaled(total);
      FirstReached(counts);
      StaysAtStart(counts, bins);
    }
    hide Cum, Within, Scaled, Reaches;
  }

  lemma {:induction false} NothingScaled(n: nat)
    ensures Scaled(0.0, n) == 0.0
  {
  }

  lemma {:induction false} FirstReached(counts: seq<nat>)
    requires |counts| >= 1
    ensures Reaches(counts, 0.0, 0) == 0
  {
  }

  lemma {:induction false} StaysAtStart(counts: seq<nat>, bins: seq<real>)
    requires |bins| == |counts| + 1 && |counts| >= 1
    ensures Within(counts, bins, 0.0, 0) == bins[0]
  {
    assert Cum(counts, 0) == 0;
    if counts[0] != 0 {
      assert 0.0 / counts[0] as real == 0.0;
    }
  }

  /** The fraction at which x lies between low and high. */
  function ShareOf(low: real, high: real, x: real): real
    requires low < high
  {
    (x - low) / (high - low)
  }

  /** How much of the sample lies below x when each bin is taken as evenly filled, for x in bin b. */
  function Filled(counts: seq<nat>, bins: seq<real>, x: real, b: nat): real
    requires Edges(bins) && |bins| == |counts| + 1 && b < |counts|
  {
    Cum(counts, b) as real + Scaled(ShareOf(bins[b], bins[b + 1], x), counts[b])
  }

  lemma {:induction false} ShareOfAlong(low: real, high: real, f: real)
    requires low < high
    ensures ShareOf(low, high, Along(low, high, f)) == f
  {
    var w := high - low;
    assert (f * w) / w == f;
  }

  lemma {:induction false} FractionTimes(x: real, n: nat)
    requires n > 0
    ensures Scaled(x / n as real, n) == x
  {
  }

  /** The quantile undoes this distribution function: for 0 < q <= 1 exactly q times the total lies below it. */
  lemma {:induction false} PercentileInverts(counts: seq<nat>, bins: seq<real>, q: real)
    requires Edges(bins) && |bins| == |counts| + 1 && 0.0 < q <= 1.0 && Cum(counts, |counts|) > 0
    ensures var target := Scaled(q, Cum(counts, |counts|)); var b := Reaches(counts, target, 0);
            b < |counts| && Filled(counts, bins, Percentile(counts, bins, q), b) == target
  {
    hide Cum, Pick, Scaled, Within;
    var total := Cum(counts, |counts|);
    var target := Scaled(q, total);
    TargetInTotal(q, q, total);
    PositiveTarget(q, total);
    TargetBin(counts, bins, target);
    var b := Reaches(counts, target, 0);
    ReachedInBin(counts, target);
    PointOf(counts, bins, target, b);
  }

  lemma {:induction false} PositiveTarget(q: real, n: nat)
    requires q > 0.0 && n > 0
    ensures Scaled(q, n) > 0.0
  {
  }

  lemma {:induction false} ReachedInBin(counts: seq<nat>, target: real)
    requires 0.0 < target <= Cum(counts, |counts|) as real
    ensures var b := Reaches(counts, target, 0); b < |counts| && counts[b] > 0
  {
    var b := Reaches(counts, target, 0);
    if b == |counts| {
      assert false;
    }
    hide Cum;
    CumStep(counts, b);
    NothingBeforeFirst(counts);
  }

  lemma {:induction false} NothingBeforeFirst(counts: seq<nat>)
    ensures Cum(counts, 0) == 0
  {
  }

  lemma {:induction false} PointOf(counts: seq<nat>, bins: seq<real>, target: real, b: nat)
    requires Edges(bins) && |bins| == |counts| + 1 && b < |counts| && counts[b] > 0
    ensures Filled(counts, bins, Within(counts, bins, target, b), b) == target
  {
    hide Cum, Scaled, Along, ShareOf;
    var x := target - Cum(counts, b) as real;
    var f := x / counts[b] as real;
    ShareOfAlong(bins[b], bins[b + 1], f);
    FractionTimes(x, counts[b]);
  }

  // ----- the quantile and the sample

  predicate Ascending(s: seq<real>) {
    forall i, j :: 0 <= i <= j < |s| ==> s[i] <= s[j]
  }

  /** The first k bins together count the values whose bin is among them. */
  lemma {:induction false} CumCounts(values: seq<real>, bins: seq<real>, k: nat)
    requires |bins| >= 2 && k <= |bins| - 1
    ensures Cum(Counts(values, bins), k) == CountIf(v => BinOf(bins, v) < k, values)
  {
    hide BinOf;
    if k == 0 {
      CountAll(v => BinOf(bins, v) < 0, values);
    } else {
      CumCounts(values, bins, k - 1);
      OneMoreBin(values, bins, k - 1);
    }
  }

  lemma {:induction false} OneMoreBin(values: seq<real>, bins: seq<real>, k: nat)
    requires |bins| >= 2
    ensures CountIf(v => BinOf(bins, v) < k + 1, values)
            == CountIf(v => BinOf(bins, v) < k, values) + CountIf(v => BinOf(bins, v) == k, values)
  {
    hide BinOf;
    if values != [] {
      OneMoreBin(values[..|values| - 1], bins, k);
    }
  }

  /** In ascending order the bins before that of the k-th value hold fewer than k, and with it at least k. */
  lemma {:induction false} RankInBin(s: seq<real>, bins: seq<real>, k: nat)
    requires Edges(bins) && Ascending(s) && 1 <= k <= |s|
    ensures var b := BinOf(bins, s[k - 1]);
            CountIf(v => BinOf(bins, v) < b, s) < k <= CountIf(v => BinOf(bins, v) < b + 1, s)
  {
    hide CountIf, BinOf;
    var b := BinOf(bins, s[k - 1]);
    forall i | 0 <= i < |s| ensures i < k ==> BinOf(bins, s[i]) <= b
                            ensures i >= k - 1 ==> BinOf(bins, s[i]) >= b {
      if i < k {
        BinIsMonotone(bins, s[i], s[k - 1]);
      }
      if i >= k - 1 {
        BinIsMonotone(bins, s[k - 1], s[i]);
      }
    }
    var before, upTo := v => BinOf(bins, v) < b, v => BinOf(bins, v) < b + 1;
    assert s == s[..k] + s[k..] && s == s[..k - 1] + s[k - 1..];
    CountJoins(upTo, s[..k], s[k..]);
    CountAll(upTo, s[..k]);
    CountJoins(before, s[..k - 1], s[k - 1..]);
    CountAll(before, s[k - 1..]);
  }

  lemma {:induction false} RankInCounts(values: seq<real>, s: seq<real>, bins: seq<real>, k: nat)
    requires Edges(bins) && multiset(s) == multiset(values) && Ascending(s) && 1 <= k <= |s|
    ensures var (c, b) := (Counts(values, bins), BinOf(bins, s[k - 1]));
            Cum(c, b) < k <= Cum(c, b + 1) && Cum(c, |c|) == |s|
  {
    hide Cum, Counts, CountIf, BinOf, Ascending;
    var b := BinOf(bins, s[k - 1]);
    RankInBin(s, bins, k);
    CountOfPermutation(v => BinOf(bins, v) < b, s, values);
    CountOfPermutation(v => BinOf(bins, v) < b + 1, s, values);
    CumCounts(values, bins, b);
    CumCounts(values, bins, b + 1);
    AllAreCounted(values, bins);
    assert |multiset(s)| == |s| && |multiset(values)| == |values|;
  }

  lemma {:induction false} PickInRankBin(counts: seq<nat>, bins: seq<real>, target: real, k: nat, b: nat)
    requires Edges(bins) && |bins| == |counts| + 1 && b < |counts|
    requires Cum(counts, b) < k <= Cum(counts, b + 1)
    requires 0.0 <= target <= Cum(counts, |counts|) as real && (k - 1) as real < target <= k as real
    ensures bins[b] <= Pick(counts, bins, target) <= bins[b + 1]
  {
    hide Cum, Within, Pick, Edges, Reaches;
    TargetBin(counts, bins, target);
    assert Cum(counts, b) as real <= (k - 1) as real;
    ReachesExactly(counts, target, b);
  }

  lemma {:induction false} QuantileInRankBin(counts: seq<nat>, bins: seq<real>, q: real, n: nat, k: nat, b: nat)
    requires Edges(bins) && |bins| == |counts| + 1 && b < |counts| && 0.0 < q <= 1.0
    requires Cum(counts, b) < k <= Cum(counts, b + 1) && Cum(counts, |counts|) == n > 0
    requires (k - 1) as real < Scaled(q, n) <= k as real
    ensures bins[b] <= Percentile(counts, bins, q) <= bins[b + 1]
  {
    hide Cum, Pick, Scaled, Edges;
    TargetInTotal(q, q, n);
    PickInRankBin(counts, bins, Scaled(q, n), k, b);
  }

  /** For values inside the bins and 0 < q <= 1, the quantile lies in the same bin as the ceil(qN)-th
      smallest value, so within that bin's width of it. */
  lemma {:induction false} QuantileNearOrderStatistic(values: seq<real>, s: seq<real>, bins: seq<real>, q: real, k: nat)
    requires Edges(bins) && forall i :: 0 <= i < |values| ==> InRange(bins, values[i])
    requires multiset(s) == multiset(values) && Ascending(s)
    requires 0.0 < q <= 1.0 && 1 <= k <= |s| && (k - 1) as real < Scaled(q, |s|) <= k as real
    ensures var p := Percentile(Counts(values, bins), bins, q); var x := s[k - 1]; var b := BinOf(bins, x);
            && bins[b] <= p <= bins[b + 1] && bins[b] <= x <= bins[b + 1]
            && -(bins[b + 1] - bins[b]) <= p - x <= bins[b + 1] - bins[b]
  {
    hide Cum, Counts, CountIf, BinOf, InRange, Percentile, Ascending, Edges, Scaled;
    RankInCounts(values, s, bins, k);
    QuantileInRankBin(Counts(values, bins), bins, q, |s|, k, BinOf(bins, s[k - 1]));
    assert s[k - 1] in multiset(s) && s[k - 1] in multiset(values);
    var i :| 0 <= i < |values| && values[i] == s[k - 1];
    assert InRange(bins, values[i]);
    BinHolds(bins, s[k - 1]);
  }

  lemma {:induction false} AllAreCounted(values: seq<real>, bins: seq<real>)
    requires |bins| >= 2
    ensures Cum(Counts(values, bins), |bins| - 1) == |values|
  {
    hide BinOf, Cum, Counts, CountIf;
    CumCounts(values, bins, |bins| - 1);
    CountAll(v => BinOf(bins, v) < |bins| - 1, values);
  }

  lemma {:induction false} ReachesExactly(counts: seq<nat>, target: real, b: nat)
    requires b < |counts| && (Cum(counts, b) as real) < target <= Cum(counts, b + 1) as real
    ensures Reaches(counts, target, 0) == b
  {
    hide Cum;
    var i := Reaches(counts, target, 0);
    if i < b {
      CumGrows(counts, i + 1, b);
    }
  }

  // ----- expected shortfall

  function Mid(bins: seq<real>, i: nat): real
    requires i + 1 < |bins|
  {
    (bins[i] + bins[i + 1]) / 2.0
  }

  /** How much of the first k bins has its middle at most the threshold. */
  function TailCount(counts: seq<nat>, bins: seq<real>, level: real, k: nat): nat
    requires |bins| == |counts| + 1 && k <= |counts|
  {
    if k == 0 then 0
    else TailCount(counts, bins, level, k - 1) + (if Mid(bins, k - 1) <= level then counts[k - 1] else 0)
  }

  function TailWeight(counts: seq<nat>, bins: seq<real>, level: real, k: nat): real
    requires |bins| == |counts| + 1 && k <= |counts|
  {
    if k == 0 then 0.0
    else TailWeight(counts, bins, level, k - 1)
         + (if Mid(bins, k - 1) <= level then Scaled(Mid(bins, k - 1), counts[k - 1]) else 0.0)
  }

  function ExpectedShortfall(counts: seq<nat>, bins: seq<real>, q: real): real
    requires |bins| == |counts| + 1 && |counts| >= 1
  {
    var level := Percentile(counts, bins, q);
    var n := TailCount(counts, bins, level, |counts|);
    if n == 0 then level else TailWeight(counts, bins, level, |counts|) / n as real
  }

  lemma {:induction false} ScaledMonotone(x: real, y: real, n: nat)
    requires x <= y
    ensures Scaled(x, n) <= Scaled(y, n)
  {
    MulMonotone(n as real, x, y);
  }

  lemma {:induction false} ScaledSum(x: real, m: nat, n: nat)
    ensures Scaled(x, m + n) == Scaled(x, m) + Scaled(x, n)
  {
  }

  lemma {:induction false} ScaledByNone(x: real)
    ensures Scaled(x, 0) == 0.0
  {
  }

  lemma {:induction false} TailWeightBelow(counts: seq<nat>, bins: seq<real>, level: real, k: nat)
    requires |bins| == |counts| + 1 && k <= |counts|
    ensures TailWeight(counts, bins, level, k) <= Scaled(level, TailCount(counts, bins, level, k))
  {
    hide Mid, Scaled;
    if k == 0 {
      ScaledByNone(level);
    } else {
      TailWeightBelow(counts, bins, level, k - 1);
      if Mid(bins, k - 1) <= level {
        ScaledMonotone(Mid(bins, k - 1), level, counts[k - 1]);
        ScaledSum(level, TailCount(counts, bins, level, k - 1), counts[k - 1]);
      }
    }
  }

  lemma {:induction false} QuotientBelow(w: real, level: real, n: real)
    requires n > 0.0 && w <= level * n
    ensures w / n <= level
  {
    assert (w / n) * n == w;
    CancelPositive(w / n, level, n);
  }

  /** The expected shortfall is never above the quantile it is taken from, for any counts, bins and q. */
  lemma {:induction false} ShortfallBelowQuantile(counts: seq<nat>, bins: seq<real>, q: real)
    requires |bins| == |counts| + 1 && |counts| >= 1
    ensures ExpectedShortfall(counts, bins, q) <= Percentile(counts, bins, q)
  {
    hide Percentile, TailCount, TailWeight;
    var level := Percentile(counts, bins, q);
    TailWeightBelow(counts, bins, level, |counts|);
    var n := TailCount(counts, bins, level, |counts|);
    if n > 0 {
      QuotientBelow(TailWeight(counts, bins, level, |counts|), level, n as real);
    }
  }

  // ----- the shortfall and the sample

  /** The values in the bins that count as tail. */
  function Tail(values: seq<real>, bins: seq<real>, level: real): seq<real>
    requires |bins| >= 2
  {
    if values == [] then []
    else
      var v := values[|values| - 1];
      Tail(values[..|values| - 1], bins, level) + (if Mid(bins, BinOf(bins, v)) <= level then [v] else [])
  }

  lemma {:induction false} CountsAppend(values: seq<real>, bins: seq<real>, v: real)
    requires |bins| >= 2
    ensures var (c, b) := (Counts(values, bins), BinOf(bins, v)); Counts(values + [v], bins) == c[b := c[b] + 1]
  {
    hide BinOf;
    assert (values + [v])[..|values|] == values;
    var c, d, b := Counts(values, bins), Counts(values + [v], bins), BinOf(bins, v);
    forall i | 0 <= i < |bins| - 1 ensures d[i] == c[b := c[b] + 1][i] {
      assert CountIf(w => BinOf(bins, w) == i, values + [v])
          == CountIf(w => BinOf(bins, w) == i, values) + (if b == i then 1 else 0);
    }
  }

  lemma {:induction false} OneMore(m: real, c: nat)
    ensures Scaled(m, c + 1) == Scaled(m, c) + m
  {
  }

  lemma {:induction false} TailCountUpdate(counts: seq<nat>, bins: seq<real>, level: real, b: nat, k: nat)
    requires |bins| == |counts| + 1 && k <= |counts| && b < |counts|
    ensures TailCount(counts[b := counts[b] + 1], bins, level, k)
            == TailCount(counts, bins, level, k) + (if b < k && Mid(bins, b) <= level then 1 else 0)
  {
    hide Mid;
    if k > 0 {
      TailCountUpdate(counts, bins, level, b, k - 1);
    }
  }

  lemma {:induction false} TailWeightUpdate(counts: seq<nat>, bins: seq<real>, level: real, b: nat, k: nat)
    requires |bins| == |counts| + 1 && k <= |counts| && b < |counts|
    ensures TailWeight(counts[b := counts[b] + 1], bins, level, k)
            == TailWeight(counts, bins, level, k) + (if b < k && Mid(bins, b) <= level then Mid(bins, b) else 0.0)
  {
    hide Mid, Scaled;
    if k > 0 {
      TailWeightUpdate(counts, bins, level, b, k - 1);
      var d := counts[b := counts[b] + 1];
      OneMore(Mid(bins, b), counts[b]);
      assert d[k - 1] == if b == k - 1 then counts[b] + 1 else counts[k - 1];
    }
  }

  /** No bin is wider than w. */
  predicate Narrow(bins: seq<real>, w: real) {
    forall i :: 0 <= i < |bins| - 1 ==> bins[i + 1] - bins[i] <= w
  }

  lemma {:induction false} MidIsNear(bins: seq<real>, v: real, h: real)
    requires Edges(bins) && InRange(bins, v) && Narrow(bins, h + h)
    ensures -h <= Mid(bins, BinOf(bins, v)) - v <= h
  {
    hide BinOf;
    BinHolds(bins, v);
    var b := BinOf(bins, v);
    assert bins[b + 1] - bins[b] <= h + h;
  }

  lemma {:induction false} EmptyTail(counts: seq<nat>, bins: seq<real>, level: real, k: nat)
    requires |bins| == |counts| + 1 && k <= |counts| && forall i :: 0 <= i < |counts| ==> counts[i] == 0
    ensures TailCount(counts, bins, level, k) == 0 && TailWeight(counts, bins, level, k) == 0.0
  {
    hide Mid;
    if k > 0 {
      EmptyTail(counts, bins, level, k - 1);
    }
  }

  /** One value more: the tail, its count and its weight move together. */
  lemma {:induction false} TailAppend(values: seq<real>, bins: seq<real>, level: real, v: real)
    requires |bins| >= 2
    ensures var (c, d) := (Counts(values, bins), Counts(values + [v], bins));
            var (t, u) := (Tail(values, bins, level), Tail(values + [v], bins, level));
            var m := Mid(bins, BinOf(bins, v));
            && u == (if m <= level then t + [v] else t)
            && TailCount(d, bins, level, |d|) == TailCount(c, bins, level, |c|) + (if m <= level then 1 else 0)
            && TailWeight(d, bins, level, |d|) == TailWeight(c, bins, level, |c|) + (if m <= level then m else 0.0)
  {
    hide BinOf, Mid, TailCount, TailWeight, Counts;
    CountsAppend(values, bins, v);
    var c, b := Counts(values, bins), BinOf(bins, v);
    TailCountUpdate(c, bins, level, b, |c|);
    TailWeightUpdate(c, bins, level, b, |c|);
    assert (values + [v])[..|values|] == values;
    assert Tail(values, bins, level) + [] == Tail(values, bins, level);
  }

  lemma {:induction false} SumAppend(t: seq<real>, v: real)
    ensures Sum(t + [v]) == Sum(t) + v
  {
    assert (t + [v])[..|t|] == t;
  }

  lemma {:induction false} NearStep(h: real, n: nat, d: real, e: real)
    requires -Scaled(h, n) <= d <= Scaled(h, n) && -h <= e <= h
    ensures -Scaled(h, n + 1) <= d + e <= Scaled(h, n + 1)
  {
    hide Scaled;
    OneMore(h, n);
  }

  lemma {:induction false} TailIsNear(values: seq<real>, bins: seq<real>, level: real, h: real)
    requires Edges(bins) && Narrow(bins, h + h) && forall i :: 0 <= i < |values| ==> InRange(bins, values[i])
    ensures var c := Counts(values, bins); var t := Tail(values, bins, level);
            && TailCount(c, bins, level, |c|) == |t|
            && -Scaled(h, |t|) <= TailWeight(c, bins, level, |c|) - Sum(t) <= Scaled(h, |t|)
  {
    hide BinOf, Mid, TailCount, TailWeight, Counts, InRange, Tail, Sum, Narrow, Scaled;
    if values == [] {
      NothingInTail(bins, level);
      ScaledByNone(h);
    } else {
      var front, v := values[..|values| - 1], values[|values| - 1];
      assert values == front + [v];
      TailIsNear(front, bins, level, h);
      TailAppend(front, bins, level, v);
      var t := Tail(front, bins, level);
      SumAppend(t, v);
      assert InRange(bins, v);
      var m := Mid(bins, BinOf(bins, v));
      if m <= level {
        MidIsNear(bins, v, h);
        var c := Counts(front, bins);
        NearStep(h, |t|, TailWeight(c, bins, level, |c|) - Sum(t), m - v);
      }
    }
  }

  lemma {:induction false} NothingInTail(bins: seq<real>, level: real)
    requires |bins| >= 2
    ensures var c := Counts([], bins);
            && Tail([], bins, level) == [] && Sum([]) == 0.0
            && TailCount(c, bins, level, |c|) == 0 && TailWeight(c, bins, level, |c|) == 0.0
  {
    hide TailCount, TailWeight, Counts;
    NoneInBins(bins);
    EmptyTail(Counts([], bins), bins, level, |bins| - 1);
  }

  lemma {:induction false} NoneInBins(bins: seq<real>)
    requires |bins| >= 2
    ensures forall i :: 0 <= i < |bins| - 1 ==> Counts([], bins)[i] == 0
  {
  }

  lemma {:induction false} QuotientNear(x: real, y: real, h: real, n: real)
    requires n > 0.0 && -(h * n) <= x - y <= h * n
    ensures -h <= x / n - y / n <= h
  {
    assert (x - y) / n == x / n - y / n;
    QuotientBelow(x - y, h, n);
    QuotientBelow(y - x, h, n);
    assert (y - x) / n == -((x - y) / n);
  }

  /** For values inside bins no wider than 2h, the expected shortfall is within h of the mean of the values
      that its tail bins hold. */
  lemma {:induction false} ShortfallNearTailMean(values: seq<real>, bins: seq<real>, q: real, h: real)
    requires Edges(bins) && Narrow(bins, h + h) && forall i :: 0 <= i < |values| ==> InRange(bins, values[i])
    ensures var c := Counts(values, bins);
            var t := Tail(values, bins, Percentile(c, bins, q));
            t != [] ==> -h <= ExpectedShortfall(c, bins, q) - Sum(t) / |t| as real <= h
  {
    hide Percentile, TailCount, TailWeight, Counts, Sum, Tail;
    var c := Counts(values, bins);
    var level := Percentile(c, bins, q);
    TailIsNear(values, bins, level, h);
    var t := Tail(values, bins, level);
    if t != [] {
      QuotientNear(TailWeight(c, bins, level, |c|), Sum(t), h, |t| as real);
    }
  }
}
