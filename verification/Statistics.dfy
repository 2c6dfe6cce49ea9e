/** Order statistics of a handful of prices: median, interpolated percentile, deviations. */
module Statistics {
  import opened Sums
  import opened Sorting

  const EPSILON := 0.0000000001

  function Self(x: real): real {
    x
  }

  function Sorted(vals: seq<real>): (s: seq<real>)
    ensures |s| == |vals|
  {
    Sort(Self, vals)
  }

  // ----- Definitions -------------------------------------------------------------------------

  function MedianOf(vals: seq<real>): real {
    var n := |vals|;
    if n == 0 then 0.0
    else if n % 2 == 0 then (Sorted(vals)[n / 2 - 1] + Sorted(vals)[n / 2]) / 2.0
    else Sorted(vals)[n / 2]
  }

  function Rank(n: nat, p: real): (r: real)
    requires n > 0 && 0.0 <= p <= 100.0
    ensures 0.0 <= r <= (n - 1) as real
  {
    RankRange(p / 100.0, (n - 1) as real);
    Times(p / 100.0, (n - 1) as real)
  }

  lemma RankRange(f: real, last: real)
    requires 0.0 <= f <= 1.0 && last >= 0.0
    ensures 0.0 <= Times(f, last) <= last
  {
    TimesMonotone(0.0, f, last);
    TimesMonotone(f, 1.0, last);
    assert Times(0.0, last) == 0.0 && Times(1.0, last) == last;
  }

  lemma RankMonotone(n: nat, p: real, q: real)
    requires n > 0 && 0.0 <= p <= q <= 100.0
    ensures Rank(n, p) <= Rank(n, q)
  {
    TimesMonotone(p / 100.0, q / 100.0, (n - 1) as real);
  }

  /** The value a fraction f of the way from x to y. */
  function Blend(x: real, y: real, f: real): real {
    x * (1.0 - f) + y * f
  }

  /** Linear interpolation in a sorted sequence at a fractional position. */
  function At(s: seq<real>, rank: real): real
    requires s != [] && rank >= 0.0
  {
    var lo := rank.Floor;
    if lo + 1 >= |s| then s[|s| - 1]
    else Blend(s[lo], s[lo + 1], rank - lo as real)
  }

  function PercentileOf(vals: seq<real>, p: real): real {
    var n := |vals|;
    if n == 0 then 0.0
    else if p <= 0.0 then Sorted(vals)[0]
    else if p >= 100.0 then Sorted(vals)[n - 1]
    else At(Sorted(vals), Rank(n, p))
  }

  function DeviationBps(px: real, ref: real): real {
    if Abs(ref) < EPSILON then 0.0 else Abs(px - ref) / ref * 10000.0
  }

  function Deviations(vals: seq<real>, from: real): (d: seq<real>)
    ensures |d| == |vals|
  {
    seq(|vals|, k requires 0 <= k < |vals| => Abs(vals[k] - from))
  }

  function MADOf(vals: seq<real>): real {
    MedianOf(Deviations(vals, MedianOf(vals)))
  }

  function RobustZScore(val: real, med: real, mad: real): real
    requires mad >= 0.0
  {
    0.6745 * Abs(val - med) / (mad + EPSILON)
  }

  function SpreadBps(bid: real, ask: real): real {
    var mid := (bid + ask) / 2.0;
    if mid < EPSILON then 0.0 else (ask - bid) / mid * 10000.0
  }

  // ----- The computations, which sort a copy in place ----------------------------------------

  method Median(vals: seq<real>) returns (m: real)
    ensures m == MedianOf(vals)
  {
    var n := |vals|;
    if n == 0 {
      return 0.0;
    }
    var sorted := new real[n](k requires 0 <= k < n => vals[k]);
    assert sorted[..] == vals;
    InsertionSort(Self, sorted);
    assert forall k :: 0 <= k < n ==> sorted[k] == Sorted(vals)[k];
    if n % 2 == 0 {
      return (sorted[n / 2 - 1] + sorted[n / 2]) / 2.0;
    }
    return sorted[n / 2];
  }

  method Percentile(vals: seq<real>, p: real) returns (r: real)
    ensures r == PercentileOf(vals, p)
  {
    var n := |vals|;
    if n == 0 {
      return 0.0;
    }
    var sorted := new real[n](k requires 0 <= k < n => vals[k]);
    assert sorted[..] == vals;
    InsertionSort(Self, sorted);
    assert forall k :: 0 <= k < n ==> sorted[k] == Sorted(vals)[k];
    if p <= 0.0 {
      return sorted[0];
    }
    if p >= 100.0 {
      return sorted[n - 1];
    }
    var rank := Rank(n, p);
    var lo := rank.Floor;
    var hi := lo + 1;
    if hi >= n {
      return sorted[n - 1];
    }
    var frac := rank - lo as real;
    return Blend(sorted[lo], sorted[hi], frac);
  }

  method MAD(vals: seq<real>) returns (r: real)
    ensures r == MADOf(vals)
  {
    var med := Median(vals);
    var devs: seq<real> := [];
    for i := 0 to |vals|
      invariant |devs| == i
      invariant forall k :: 0 <= k < i ==> devs[k] == Abs(vals[k] - med)
    {
      devs := devs + [Abs(vals[i] - med)];
    }
    assert devs == Deviations(vals, med);
    r := Median(devs);
  }

  // ----- Counting in a sorted sequence -------------------------------------------------------

  /** How many values lie in [a, b]. */
  function Within(vals: seq<real>, a: real, b: real): (c: nat)
    ensures c <= |vals|
  {
    if vals == [] then 0
    else Within(vals[..|vals| - 1], a, b) + if a <= vals[|vals| - 1] <= b then 1 else 0
  }

  lemma {:induction false} WithinAppend(s: seq<real>, t: seq<real>, a: real, b: real)
    ensures Within(s + t, a, b) == Within(s, a, b) + Within(t, a, b)
  {
    if t == [] {
      assert s + t == s;
    } else {
      assert (s + t)[..|s + t| - 1] == s + t[..|t| - 1];
      WithinAppend(s, t[..|t| - 1], a, b);
    }
  }

  lemma {:induction false} WithinInsert(s: seq<real>, x: real, a: real, b: real)
    ensures Within(Insert(Self, s, x), a, b) == Within(s, a, b) + if a <= x <= b then 1 else 0
  {
    if s != [] && s[|s| - 1] > x {
      WithinInsert(s[..|s| - 1], x, a, b);
    }
  }

  /** Sorting does not change how many values lie in an interval. */
  lemma {:induction false} WithinSorted(vals: seq<real>, a: real, b: real)
    ensures Within(Sorted(vals), a, b) == Within(vals, a, b)
  {
    if vals != [] {
      WithinSorted(vals[..|vals| - 1], a, b);
      WithinInsert(Sorted(vals[..|vals| - 1]), vals[|vals| - 1], a, b);
    }
  }

  lemma {:induction false} WithinNone(s: seq<real>, a: real, b: real)
    requires forall k :: 0 <= k < |s| ==> s[k] < a || s[k] > b
    ensures Within(s, a, b) == 0
  {
    if s != [] {
      WithinNone(s[..|s| - 1], a, b);
    }
  }

  lemma SortedOrder(vals: seq<real>)
    ensures forall i, j :: 0 <= i <= j < |vals| ==> Sorted(vals)[i] <= Sorted(vals)[j]
    ensures multiset(Sorted(vals)) == multiset(vals)
  {
    SortSorts(Self, vals);
    var s := Sorted(vals);
    assert forall i, j :: 0 <= i < j < |s| ==> Self(s[i]) <= Self(s[j]);
  }

  /** Cut a sorted sequence where no value before the cut, or none after it, lies in [a, b]. */
  lemma WithinCut(vals: seq<real>, a: real, b: real, k: nat)
    requires k <= |vals|
    ensures (forall i :: 0 <= i < k ==> Sorted(vals)[i] < a) ==> Within(vals, a, b) <= |vals| - k
    ensures (forall i :: k <= i < |vals| ==> Sorted(vals)[i] > b) ==> Within(vals, a, b) <= k
  {
    var s := Sorted(vals);
    WithinSorted(vals, a, b);
    assert s == s[..k] + s[k..];
    WithinAppend(s[..k], s[k..], a, b);
    if forall i :: 0 <= i < k ==> s[i] < a {
      WithinNone(s[..k], a, b);
    }
    if forall i :: k <= i < |vals| ==> s[i] > b {
      WithinNone(s[k..], a, b);
    }
  }

  lemma OrderStatisticAtLeast(vals: seq<real>, a: real, b: real, k: nat)
    requires k < |vals| && Within(vals, a, b) >= |vals| - k
    ensures a <= Sorted(vals)[k]
  {
    var s := Sorted(vals);
    if s[k] < a {
      SortedOrder(vals);
      WithinCut(vals, a, b, k + 1);
    }
  }

  lemma OrderStatisticAtMost(vals: seq<real>, a: real, b: real, k: nat)
    requires k < |vals| && Within(vals, a, b) > k
    ensures Sorted(vals)[k] <= b
  {
    var s := Sorted(vals);
    if s[k] > b {
      SortedOrder(vals);
      WithinCut(vals, a, b, k);
    }
  }

  /** A strict majority of the values in [a, b] holds the median there, whatever the others are. */
  lemma MajorityMedian(vals: seq<real>, a: real, b: real)
    requires 2 * Within(vals, a, b) > |vals|
    ensures a <= MedianOf(vals) <= b
  {
    var n := |vals|;
    OrderStatisticAtLeast(vals, a, b, n / 2);
    OrderStatisticAtMost(vals, a, b, n / 2);
    if n % 2 == 0 {
      OrderStatisticAtLeast(vals, a, b, n / 2 - 1);
      OrderStatisticAtMost(vals, a, b, n / 2 - 1);
    }
  }

  // ----- Dominance ---------------------------------------------------------------------------

  predicate Dominates(t: seq<real>, s: seq<real>) {
    |s| == |t| && forall k :: 0 <= k < |s| ==> s[k] <= t[k]
  }

  predicate Ascending(s: seq<real>) {
    forall i, j :: 0 <= i < j < |s| ==> s[i] <= s[j]
  }

  lemma InsertLast(s: seq<real>)
    requires s != [] && Ascending(s)
    ensures Insert(Self, s[..|s| - 1], s[|s| - 1]) == s
  {
    assert s == s[..|s| - 1] + [s[|s| - 1]];
  }

  lemma {:induction false} InsertDominates(s: seq<real>, t: seq<real>, x: real, y: real)
    requires Ascending(s) && Ascending(t) && Dominates(t, s) && x <= y
    ensures Dominates(Insert(Self, t, y), Insert(Self, s, x))
  {
    var n := |s| - 1;
    if s != [] {
      if s[n] > x && t[n] > y {
        InsertDominates(s[..n], t[..n], x, y);
      } else if s[n] > x {
        InsertDominates(s[..n], t[..n], x, t[n]);
        InsertLast(t);
      } else if t[n] > y {
        InsertDominates(s[..n], t[..n], s[n], y);
        InsertLast(s);
      }
    }
  }

  /** Pointwise dominance carries through sorting. */
  lemma {:induction false} SortedDominates(a: seq<real>, b: seq<real>)
    requires Dominates(b, a)
    ensures Dominates(Sorted(b), Sorted(a))
  {
    if a != [] {
      var n := |a| - 1;
      SortedDominates(a[..n], b[..n]);
      SortedOrder(a[..n]);
      SortedOrder(b[..n]);
      InsertDominates(Sorted(a[..n]), Sorted(b[..n]), a[n], b[n]);
    }
  }

  lemma Interpolate(x: real, y: real, u: real, v: real, f: real)
    requires x <= u && y <= v && 0.0 <= f <= 1.0
    ensures Blend(x, y, f) <= Blend(u, v, f)
  {
    MulNonnegative(u - x, 1.0 - f);
    assert Blend(u, y, f) - Blend(x, y, f) == (u - x) * (1.0 - f);
    MulMonotone(y, v, f);
    assert Blend(u, v, f) - Blend(u, y, f) == v * f - y * f;
  }

  lemma BlendFrom(x: real, y: real, f: real)
    ensures Blend(x, y, f) == x + (y - x) * f == y - (y - x) * (1.0 - f)
  {
  }

  lemma Between(x: real, y: real, f: real, g: real)
    requires x <= y && 0.0 <= f <= g <= 1.0
    ensures x <= Blend(x, y, f) <= Blend(x, y, g) <= y
  {
    BlendFrom(x, y, f);
    BlendFrom(x, y, g);
    MulNonnegative(y - x, f);
    MulMonotone(f, g, y - x);
    MulNonnegative(y - x, 1.0 - g);
  }

  /** Percentiles respect pointwise dominance. */
  lemma PercentileDominates(a: seq<real>, b: seq<real>, p: real)
    requires Dominates(b, a)
    ensures PercentileOf(a, p) <= PercentileOf(b, p)
  {
    SortedDominates(a, b);
    if a != [] && 0.0 < p < 100.0 {
      var rank := Rank(|a|, p);
      var lo := rank.Floor;
      if lo + 1 < |a| {
        Interpolate(Sorted(a)[lo], Sorted(a)[lo + 1], Sorted(b)[lo], Sorted(b)[lo + 1], rank - lo as real);
      }
    }
  }

  lemma AtRange(s: seq<real>, r: real)
    requires s != [] && Ascending(s) && 0.0 <= r
    ensures var lo := r.Floor;
            if lo + 1 < |s| then s[lo] <= At(s, r) <= s[lo + 1] else At(s, r) == s[|s| - 1]
  {
    var lo := r.Floor;
    if lo + 1 < |s| {
      var f := r - lo as real;
      Between(s[lo], s[lo + 1], f, f);
    }
  }

  lemma AtMonotone(s: seq<real>, r: real, q: real)
    requires s != [] && Ascending(s) && 0.0 <= r <= q
    ensures At(s, r) <= At(s, q)
  {
    AtRange(s, r);
    AtRange(s, q);
    var lo, lo' := r.Floor, q.Floor;
    assert lo <= lo';
    if lo == lo' && lo + 1 < |s| {
      Between(s[lo], s[lo + 1], r - lo as real, q - lo as real);
    }
  }

  /** Percentiles rise with p, between the least and the greatest value. */
  lemma PercentileMonotone(a: seq<real>, p: real, q: real)
    requires p <= q
    ensures PercentileOf(a, p) <= PercentileOf(a, q)
  {
    if a != [] {
      SortedOrder(a);
      var n := |a|;
      if 0.0 < p < 100.0 {
        AtRange(Sorted(a), Rank(n, p));
      }
      if 0.0 < q < 100.0 {
        AtRange(Sorted(a), Rank(n, q));
      }
      if 0.0 < p && q < 100.0 {
        RankMonotone(n, p, q);
        AtMonotone(Sorted(a), Rank(n, p), Rank(n, q));
      }
    }
  }

  /** Half of the spread around the median is never negative. */
  lemma MADNonnegative(vals: seq<real>)
    ensures MADOf(vals) >= 0.0
  {
    var d := Deviations(vals, MedianOf(vals));
    SortedOrder(d);
    forall k | 0 <= k < |d| ensures Sorted(d)[k] >= 0.0 {
      assert Sorted(d)[k] in multiset(Sorted(d));
      assert Sorted(d)[k] in multiset(d);
    }
  }

  /** Values close to one another deviate little from any reference between them. */
  lemma DeviationBounded(px: real, ref: real, a: real, b: real, limit: real)
    requires 0.0 < a <= px <= b && a <= ref <= b && 10000.0 * (b - a) / a <= limit
    ensures DeviationBps(px, ref) <= limit
  {
    var d := Abs(px - ref);
    assert d <= b - a;
    assert limit >= 0.0;
    assert 10000.0 * (b - a) <= limit * a by {
      assert 10000.0 * (b - a) / a * a == 10000.0 * (b - a);
    }
    assert limit * a <= limit * ref;
    assert d * 10000.0 <= limit * ref;
    assert d / ref * 10000.0 == d * 10000.0 / ref;
    assert d * 10000.0 / ref <= limit;
  }

  // ----- Exactly how many hold the median ----------------------------------------------------

  /** Of n values, k in [a, b] hold the median there, whatever all of them are. */
  ghost predicate MedianHeld(n: nat, k: nat, a: real, b: real) {
    forall vals: seq<real> | |vals| == n && Within(vals, a, b) == k :: a <= MedianOf(vals) <= b
  }

  function Split(k: nat, n: nat, low: real, high: real): (s: seq<real>)
    ensures |s| == n
  {
    seq(n, i => if i < k then low else high)
  }

  lemma {:induction false} WithinSplit(k: nat, n: nat, a: real, b: real, high: real)
    requires a <= b < high
    ensures Within(Split(k, n, a, high), a, b) == if k < n then k else n
  {
    if n > 0 {
      WithinSplit(k, n - 1, a, b, high);
      assert Split(k, n, a, high)[..n - 1] == Split(k, n - 1, a, high);
    }
  }

  lemma {:induction false} SortedAscending(s: seq<real>)
    requires Ascending(s)
    ensures Sorted(s) == s
  {
    if s != [] {
      SortedAscending(s[..|s| - 1]);
      InsertLast(s);
    }
  }

  /** They do exactly when they are more than half. */
  lemma MajorityExactly(n: nat, k: nat, a: real, b: real)
    requires a <= b && k <= n && n > 0
    ensures MedianHeld(n, k, a, b) <==> 2 * k > n
  {
    if 2 * k > n {
      forall vals: seq<real> | |vals| == n && Within(vals, a, b) == k ensures a <= MedianOf(vals) <= b {
        MajorityMedian(vals, a, b);
      }
    } else {
      var high := b + b - a + 2.0;
      var vals := Split(k, n, a, high);
      WithinSplit(k, n, a, b, high);
      SortedAscending(vals);
      assert vals[n / 2] == high && (n % 2 == 0 ==> vals[n / 2 - 1] >= a);
      assert MedianOf(vals) > b;
    }
  }

  // ----- What the summaries are --------------------------------------------------------------

  /** Sorting forgets the order, and so does every summary. */
  lemma SortedPermuted(s: seq<real>, t: seq<real>)
    requires multiset(s) == multiset(t)
    ensures Sorted(s) == Sorted(t)
  {
    SortedOrder(s);
    SortedOrder(t);
    SameSorted(Sorted(s), Sorted(t));
  }

  lemma SameLast(s: seq<real>, t: seq<real>)
    requires Ascending(s) && Ascending(t) && multiset(s) == multiset(t) && s != [] && t != []
    ensures s[|s| - 1] == t[|t| - 1]
  {
    assert s[|s| - 1] in multiset(t) && t[|t| - 1] in multiset(s);
  }

  lemma SameFront(s: seq<real>, t: seq<real>)
    requires multiset(s) == multiset(t) && s != [] && |t| == |s| && s[|s| - 1] == t[|t| - 1]
    ensures multiset(s[..|s| - 1]) == multiset(t[..|t| - 1])
  {
    assert s == s[..|s| - 1] + [s[|s| - 1]] && t == t[..|t| - 1] + [t[|t| - 1]];
    assert multiset(s[..|s| - 1]) == multiset(s) - multiset{s[|s| - 1]};
    assert multiset(t[..|t| - 1]) == multiset(t) - multiset{t[|t| - 1]};
  }

  lemma {:induction false} SameSorted(s: seq<real>, t: seq<real>)
    requires Ascending(s) && Ascending(t) && multiset(s) == multiset(t)
    ensures s == t
  {
    if s == [] {
      assert |multiset(t)| == 0;
    } else {
      assert |s| == |multiset(s)| == |multiset(t)| == |t|;
      var n := |s| - 1;
      SameLast(s, t);
      SameFront(s, t);
      SameSorted(s[..n], t[..n]);
      assert s == s[..n] + [s[n]] && t == t[..n] + [t[n]];
    }
  }

  /** The median of values in order is the mean of the two in the middle, which are one for an odd number. */
  lemma MedianIs(s: seq<real>)
    requires s != [] && Ascending(s)
    ensures 2.0 * MedianOf(s) == s[(|s| - 1) / 2] + s[|s| / 2]
  {
    SortedAscending(s);
    var n := |s|;
    if n % 2 == 0 {
      assert (n - 1) / 2 == n / 2 - 1;
      assert MedianOf(s) == (s[n / 2 - 1] + s[n / 2]) / 2.0;
    } else {
      assert (n - 1) / 2 == n / 2;
      assert MedianOf(s) == s[n / 2];
    }
  }

  /** And is the same in any other order. */
  lemma MedianPermuted(s: seq<real>, t: seq<real>)
    requires multiset(s) == multiset(t)
    ensures MedianOf(s) == MedianOf(t)
  {
    assert |s| == |multiset(s)| == |multiset(t)| == |t|;
    SortedPermuted(s, t);
  }

  /** The deviation is the median of the distances from the median. */
  lemma MADIs(vals: seq<real>, distances: seq<real>)
    requires |distances| == |vals|
    requires forall k :: 0 <= k < |vals| ==>
               distances[k] == Max(vals[k] - MedianOf(vals), MedianOf(vals) - vals[k])
    ensures MADOf(vals) == MedianOf(distances)
  {
    assert Deviations(vals, MedianOf(vals)) == distances;
  }

  /**
   The percentile of values in order lies on the line between the two neighbours of its rank, the rank
   of all of n values being n - 1.
   */
  lemma PercentileInterpolates(s: seq<real>, p: real, k: nat)
    requires Ascending(s) && k + 1 < |s| && 0.0 < p < 100.0
    requires 100.0 * k as real <= Times(p, (|s| - 1) as real) <= 100.0 * (k + 1) as real
    ensures 100.0 * (PercentileOf(s, p) - s[k]) ==
            Times(Times(p, (|s| - 1) as real) - 100.0 * k as real, s[k + 1] - s[k])
  {
    SortedAscending(s);
    var rank, last := Rank(|s|, p), (|s| - 1) as real;
    RankTimes(p, last);
    assert 100.0 * rank == Times(p, last);
    if rank == (k + 1) as real {
      assert PercentileOf(s, p) == s[k + 1];
    } else {
      assert rank.Floor == k;
      BlendOffset(s[k], s[k + 1], rank - k as real);
      HundredTimes(rank - k as real, s[k + 1] - s[k]);
    }
  }

  lemma RankTimes(p: real, last: real)
    ensures 100.0 * Times(p / 100.0, last) == Times(p, last)
  {
  }

  lemma BlendOffset(x: real, y: real, f: real)
    ensures Blend(x, y, f) - x == Times(f, y - x)
  {
  }

  lemma HundredTimes(f: real, d: real)
    ensures 100.0 * Times(f, d) == Times(100.0 * f, d)
  {
  }

  /** At the ends it is the least and the greatest value, and in any order the same. */
  lemma PercentileEnds(s: seq<real>, p: real)
    requires s != [] && Ascending(s)
    ensures p <= 0.0 ==> PercentileOf(s, p) == s[0]
    ensures p >= 100.0 ==> PercentileOf(s, p) == s[|s| - 1]
  {
    SortedAscending(s);
  }

  lemma PercentilePermuted(s: seq<real>, t: seq<real>, p: real)
    requires multiset(s) == multiset(t)
    ensures PercentileOf(s, p) == PercentileOf(t, p)
  {
    assert |s| == |multiset(s)| == |multiset(t)| == |t|;
    SortedPermuted(s, t);
  }

  // ----- Thresholds without divisions --------------------------------------------------------

  lemma QuotientOver(x: real, y: real, scale: real, limit: real)
    requires y > 0.0
    ensures x / y * scale > limit <==> scale * x > Times(limit, y)
  {
    var q := x / y;
    assert q * y == x;
    assert (q * scale - limit) * y == scale * x - Times(limit, y);
    if q * scale - limit > 0.0 {
      assert (q * scale - limit) * y > 0.0;
    } else {
      MulNonnegative(limit - q * scale, y);
      assert (limit - q * scale) * y == -((q * scale - limit) * y);
    }
  }

  /** A deviation over a limit in basis points, against a positive reference. */
  lemma DeviationOver(px: real, ref: real, limit: real)
    requires ref >= 0.0000000001
    ensures DeviationBps(px, ref) > limit <==> 10000.0 * Abs(px - ref) > Times(limit, ref)
  {
    QuotientOver(Abs(px - ref), ref, 10000.0, limit);
  }

  /** A spread over a limit, against a positive mid. */
  lemma SpreadOver(bid: real, ask: real, limit: real)
    requires bid + ask >= 0.0000000002
    ensures SpreadBps(bid, ask) > limit <==> 20000.0 * (ask - bid) > Times(limit, bid + ask)
  {
    QuotientOver(ask - bid, (bid + ask) / 2.0, 10000.0, limit);
    assert Times(limit, (bid + ask) / 2.0) == Times(limit, bid + ask) / 2.0;
  }

  /** A score over a limit: the distance against the deviation. */
  lemma ScoreOver(val: real, med: real, mad: real, limit: real)
    requires mad >= 0.0
    ensures RobustZScore(val, med, mad) > limit <==> 0.6745 * Abs(val - med) > Times(limit, mad + 0.0000000001)
  {
    QuotientOver(0.6745 * Abs(val - med), mad + EPSILON, 1.0, limit);
  }
}
