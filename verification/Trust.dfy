/** How much each venue counts: penalties on a base trust, and weights that sum to one. */
module Trust {
  import opened Sums
  import opened Statistics

  datatype State = OK | WARN | BLACKLISTED

  datatype Penalties = Penalties(isOutlier: bool, isHardOutlier: bool, spreadBps: real,
                                 stalenessMs: int, staleTholdMs: int, state: State)

  // ----- Trust -------------------------------------------------------------------------------

  function OutlierFactor(p: Penalties): real {
    if p.isHardOutlier then 0.05 else if p.isOutlier then 0.10 else 1.0
  }

  function WarnFactor(p: Penalties): real {
    if p.state == WARN then 0.60 else 1.0
  }

  function StaleFactor(p: Penalties): real {
    if p.staleTholdMs > 0 && p.stalenessMs > p.staleTholdMs / 2 then
      1.0 - 0.6 * Min(p.stalenessMs as real / p.staleTholdMs as real, 1.0)
    else 1.0
  }

  function SpreadFactor(p: Penalties): real {
    if p.spreadBps > 25.0 then 0.70 else if p.spreadBps > 10.0 then 0.80 else 1.0
  }

  function TrustOf(base: real, p: Penalties): real {
    if p.state == BLACKLISTED then 0.0
    else Times(Times(Times(Times(base, OutlierFactor(p)), WarnFactor(p)), StaleFactor(p)), SpreadFactor(p))
  }

  method ComputeTrust(base: real, p: Penalties) returns (t: real)
    ensures t == TrustOf(base, p)
  {
    if p.state == BLACKLISTED {
      return 0.0;
    }
    t := base;
    if p.isHardOutlier {
      t := t * 0.05;
    } else if p.isOutlier {
      t := t * 0.10;
    }
    if p.state == WARN {
      t := t * 0.60;
    }
    if p.staleTholdMs > 0 && p.stalenessMs > p.staleTholdMs / 2 {
      var fraction := p.stalenessMs as real / p.staleTholdMs as real;
      if fraction > 1.0 {
        fraction := 1.0;
      }
      t := Times(t, 1.0 - 0.6 * fraction);
    }
    if p.spreadBps > 25.0 {
      t := t * 0.70;
    } else if p.spreadBps > 10.0 {
      t := t * 0.80;
    }
  }

  lemma Scale(x: real, k: real)
    requires x > 0.0 && 0.0 < k <= 1.0
    ensures 0.0 < Times(x, k) <= x
  {
    MulNonnegative(x, 1.0 - k);
  }

  /** Penalties never raise trust, and only blacklisting takes it away altogether. */
  lemma TrustRange(base: real, p: Penalties)
    requires base > 0.0
    ensures 0.0 <= TrustOf(base, p) <= base
    ensures TrustOf(base, p) == 0.0 <==> p.state == BLACKLISTED
  {
    if p.state != BLACKLISTED {
      var t := Times(base, OutlierFactor(p));
      var u := Times(t, WarnFactor(p));
      Scale(base, OutlierFactor(p));
      Scale(t, WarnFactor(p));
      StaleRange(p);
      Scale(u, StaleFactor(p));
      Scale(Times(u, StaleFactor(p)), SpreadFactor(p));
    }
  }

  lemma StaleRange(p: Penalties)
    ensures 0.4 <= StaleFactor(p) <= 1.0
  {
    if p.staleTholdMs > 0 && p.stalenessMs > p.staleTholdMs / 2 {
      assert p.stalenessMs as real / p.staleTholdMs as real >= 0.0;
    }
  }

  /** q is at least as bad as p in every respect. */
  predicate Worse(p: Penalties, q: Penalties) {
    && (p.isHardOutlier ==> q.isHardOutlier) && (p.isOutlier ==> q.isOutlier || q.isHardOutlier)
    && (q.state == BLACKLISTED || p.state == OK || q.state == p.state == WARN)
    && p.spreadBps <= q.spreadBps
    && p.staleTholdMs == q.staleTholdMs && p.stalenessMs <= q.stalenessMs
  }

  lemma ScaleBoth(x: real, y: real, k: real, l: real)
    requires 0.0 <= x <= y && 0.0 <= k <= l
    ensures 0.0 <= Times(x, k) <= Times(y, l)
  {
    MulNonnegative(x, k);
    MulMonotone(x, y, k);
    MulMonotone(k, l, y);
  }

  lemma StalerIsWorse(p: Penalties, q: Penalties)
    requires p.staleTholdMs == q.staleTholdMs && p.stalenessMs <= q.stalenessMs
    ensures StaleFactor(q) <= StaleFactor(p)
  {
    StaleRange(q);
    if p.staleTholdMs > 0 && p.stalenessMs > p.staleTholdMs / 2 {
      var t := p.staleTholdMs as real;
      assert (q.stalenessMs - p.stalenessMs) as real / t >= 0.0;
      assert p.stalenessMs as real / t <= q.stalenessMs as real / t;
    }
  }

  /** What is worse in some respects and better in none is never trusted more. */
  lemma TrustFalls(base: real, p: Penalties, q: Penalties)
    requires base >= 0.0 && Worse(p, q)
    ensures TrustOf(base, q) <= TrustOf(base, p)
  {
    if q.state != BLACKLISTED {
      StaleRange(q);
      StalerIsWorse(p, q);
      var (t, u) := (Times(base, OutlierFactor(p)), Times(base, OutlierFactor(q)));
      ScaleBoth(base, base, OutlierFactor(q), OutlierFactor(p));
      ScaleBoth(u, t, WarnFactor(q), WarnFactor(p));
      ScaleBoth(Times(u, WarnFactor(q)), Times(t, WarnFactor(p)), StaleFactor(q), StaleFactor(p));
      ScaleBoth(Times(Times(u, WarnFactor(q)), StaleFactor(q)), Times(Times(t, WarnFactor(p)), StaleFactor(p)),
                SpreadFactor(q), SpreadFactor(p));
    } else {
      TrustNonnegative(base, p);
    }
  }

  lemma TrustNonnegative(base: real, p: Penalties)
    requires base >= 0.0
    ensures TrustOf(base, p) >= 0.0
  {
    if base > 0.0 {
      TrustRange(base, p);
    } else {
      assert forall k: real :: Times(0.0, k) == 0.0;
    }
  }

  lemma TimesNegates(x: real, k: real)
    ensures Times(-x, k) == -Times(x, k)
  {
  }

  /** A negative base trust is penalised like a positive one. */
  lemma TrustNegates(base: real, p: Penalties)
    ensures TrustOf(-base, p) == -TrustOf(base, p)
  {
    var t := Times(base, OutlierFactor(p));
    var u := Times(t, WarnFactor(p));
    TimesNegates(base, OutlierFactor(p));
    TimesNegates(t, WarnFactor(p));
    TimesNegates(u, StaleFactor(p));
    TimesNegates(Times(u, StaleFactor(p)), SpreadFactor(p));
  }

  /** Of any base but zero, trust is zero exactly for a blacklisted venue, and else has the sign of the base. */
  lemma TrustSigns(base: real, p: Penalties)
    requires base != 0.0
    ensures TrustOf(base, p) == 0.0 <==> p.state == BLACKLISTED
    ensures TrustOf(base, p) > 0.0 <==> p.state != BLACKLISTED && base > 0.0
  {
    if base > 0.0 {
      TrustRange(base, p);
    } else {
      TrustRange(-base, p);
      TrustNegates(base, p);
    }
  }

  // ----- What each penalty costs -------------------------------------------------------------

  lemma TimesRotates(a: real, b: real, c: real)
    ensures Times(Times(a, b), c) == Times(Times(a, c), b)
  {
  }

  /** The factors may be taken in any order. */
  lemma FactorsCommute(base: real, a: real, b: real, c: real, d: real)
    ensures var t := Times(Times(Times(Times(base, a), b), c), d);
            && t == Times(a, Times(Times(Times(base, b), c), d)) && t == Times(b, Times(Times(Times(base, a), c), d))
            && t == Times(c, Times(Times(Times(base, a), b), d)) && t == Times(d, Times(Times(Times(base, a), b), c))
  {
    TimesRotates(base, a, b);
    TimesRotates(Times(base, b), a, c);
    TimesRotates(Times(Times(base, b), c), a, d);
    TimesRotates(Times(base, a), b, c);
    TimesRotates(Times(Times(base, a), c), b, d);
    TimesRotates(Times(Times(base, a), b), c, d);
    TimesCommutes(Times(Times(Times(base, b), c), d), a);
    TimesCommutes(Times(Times(Times(base, a), c), d), b);
    TimesCommutes(Times(Times(Times(base, a), b), d), c);
    TimesCommutes(Times(Times(Times(base, a), b), c), d);
  }

  lemma TimesOne(x: real)
    ensures Times(x, 1.0) == x
  {
  }

  lemma TrustIsProduct(base: real, p: Penalties)
    requires p.state != BLACKLISTED
    ensures var (a, b, c, d) := (OutlierFactor(p), WarnFactor(p), StaleFactor(p), SpreadFactor(p));
            && TrustOf(base, p) == Times(a, Times(Times(Times(base, b), c), d))
            && TrustOf(base, p) == Times(b, Times(Times(Times(base, a), c), d))
            && TrustOf(base, p) == Times(c, Times(Times(Times(base, a), b), d))
            && TrustOf(base, p) == Times(d, Times(Times(Times(base, a), b), c))
  {
    FactorsCommute(base, OutlierFactor(p), WarnFactor(p), StaleFactor(p), SpreadFactor(p));
  }

  /** Without penalties a venue has its base trust. */
  lemma CleanTrust(base: real, staleTholdMs: int)
    ensures TrustOf(base, Penalties(false, false, 0.0, 0, staleTholdMs, OK)) == base
  {
    TimesOne(base);
  }

  /** An outlier keeps a tenth of what it would have otherwise, a hard one a twentieth. */
  lemma OutlierCosts(base: real, p: Penalties)
    requires p.state != BLACKLISTED
    ensures var inlier := TrustOf(base, p.(isOutlier := false, isHardOutlier := false));
            && TrustOf(base, p.(isHardOutlier := true)) == Times(0.05, inlier)
            && TrustOf(base, p.(isOutlier := true, isHardOutlier := false)) == Times(0.1, inlier)
  {
    var q := p.(isOutlier := false, isHardOutlier := false);
    TimesOne(base);
    TrustIsProduct(base, q);
    TrustIsProduct(base, p.(isHardOutlier := true));
    TrustIsProduct(base, p.(isOutlier := true, isHardOutlier := false));
  }

  /** A warned venue keeps three fifths. */
  lemma WarningCosts(base: real, p: Penalties)
    ensures TrustOf(base, p.(state := WARN)) == Times(0.6, TrustOf(base, p.(state := OK)))
  {
    TimesOne(Times(base, OutlierFactor(p)));
    TrustIsProduct(base, p.(state := WARN));
    TrustIsProduct(base, p.(state := OK));
  }

  /** A spread over 10 basis points costs a fifth, one over 25 three tenths. */
  lemma SpreadCosts(base: real, p: Penalties)
    requires p.state != BLACKLISTED
    ensures TrustOf(base, p) ==
            Times(if p.spreadBps > 25.0 then 0.7 else if p.spreadBps > 10.0 then 0.8 else 1.0,
                  TrustOf(base, p.(spreadBps := 0.0)))
  {
    TrustIsProduct(base, p);
    TrustIsProduct(base, p.(spreadBps := 0.0));
    TimesOne(Times(Times(Times(base, OutlierFactor(p)), WarnFactor(p)), StaleFactor(p)));
  }

  /** Staleness over half the threshold costs three fifths of the part of the threshold it is, at most three fifths. */
  lemma StalenessCosts(base: real, p: Penalties)
    requires p.state != BLACKLISTED
    ensures var (recent, t) := (TrustOf(base, p.(stalenessMs := 0)), p.staleTholdMs as real);
            if p.staleTholdMs > 0 && p.stalenessMs > p.staleTholdMs / 2 then
              Times(t, TrustOf(base, p)) == Times(t - 0.6 * Min(p.stalenessMs as real, t), recent)
            else TrustOf(base, p) == recent
  {
    var q := p.(stalenessMs := 0);
    TrustIsProduct(base, p);
    TrustIsProduct(base, q);
    var x := Times(Times(Times(base, OutlierFactor(p)), WarnFactor(p)), SpreadFactor(p));
    TimesCommutes(1.0, x);
    TimesOne(x);
    if p.staleTholdMs > 0 && p.stalenessMs > p.staleTholdMs / 2 {
      var t, f := p.staleTholdMs as real, StaleFactor(p);
      StaleShare(p.stalenessMs as real, t);
      assert Times(t, f) == t - 0.6 * Min(p.stalenessMs as real, t);
      TimesAssociates(t, f, x);
    }
  }

  lemma TimesAssociates(a: real, b: real, c: real)
    ensures Times(a, Times(b, c)) == Times(Times(a, b), c)
  {
  }

  lemma StaleShare(s: real, t: real)
    requires t > 0.0
    ensures Times(t, 1.0 - 0.6 * Min(s / t, 1.0)) == t - 0.6 * Min(s, t)
  {
    var q := s / t;
    assert q * t == s;
    if q >= 1.0 {
      MulMonotone(1.0, q, t);
    } else {
      assert (1.0 - q) * t > 0.0;
      assert (1.0 - q) * t == t - s;
    }
  }

  // ----- Normalisation -----------------------------------------------------------------------

  function Positive(w: real): real {
    if w > 0.0 then w else 0.0
  }

  /** The weights, one a venue, divided by the sum of the positive ones; all zero if that sum is negligible. */
  function Normalized(weights: seq<real>): (norm: seq<real>)
    ensures |norm| == |weights|
  {
    var sum := SumBy(Positive, weights);
    if sum < EPSILON then seq(|weights|, _ => 0.0)
    else seq(|weights|, k requires 0 <= k < |weights| => weights[k] / sum)
  }

  method NormalizeTrust(weights: seq<real>) returns (norm: seq<real>)
    ensures norm == Normalized(weights)
  {
    var sum := 0.0;
    for i := 0 to |weights|
      invariant sum == SumBy(Positive, weights[..i])
    {
      assert weights[..i + 1][..i] == weights[..i];
      if weights[i] > 0.0 {
        sum := sum + weights[i];
      }
    }
    assert weights[..|weights|] == weights;
    if sum < EPSILON {
      return seq(|weights|, _ => 0.0);
    }
    norm := [];
    for i := 0 to |weights|
      invariant norm == Normalized(weights)[..i]
    {
      norm := norm + [weights[i] / sum];
    }
  }

  predicate Nonnegative(w: seq<real>) {
    forall k :: 0 <= k < |w| ==> w[k] >= 0.0
  }

  predicate AllZero(w: seq<real>) {
    forall k :: 0 <= k < |w| ==> w[k] == 0.0
  }

  lemma {:induction false} SumOfPositives(w: seq<real>)
    ensures SumBy(Positive, w) >= SumBy(Self, w)
    ensures SumBy(Positive, w) == SumBy(Self, w) <==> Nonnegative(w)
    ensures SumBy(Positive, w) >= 0.0
  {
    if w != [] {
      var n := |w| - 1;
      SumOfPositives(w[..n]);
      assert Nonnegative(w) <==> Nonnegative(w[..n]) && w[n] >= 0.0;
    }
  }

  lemma {:induction false} SumOfQuotients(w: seq<real>, d: real, q: seq<real>)
    requires d > 0.0 && |q| == |w| && forall k :: 0 <= k < |w| ==> q[k] == w[k] / d
    ensures SumBy(Self, q) * d == SumBy(Self, w)
  {
    if w != [] {
      var n := |w| - 1;
      SumOfQuotients(w[..n], d, q[..n]);
      assert (SumBy(Self, q[..n]) + q[n]) * d == SumBy(Self, q[..n]) * d + q[n] * d;
    }
  }

  lemma QuotientSign(w: real, d: real)
    requires d > 0.0
    ensures w / d > 0.0 <==> w > 0.0
    ensures w / d == 0.0 <==> w == 0.0
  {
    assert w / d * d == w;
  }

  lemma QuotientSigns(w: seq<real>)
    requires SumBy(Positive, w) >= EPSILON
    ensures forall k :: 0 <= k < |w| ==>
              && (Normalized(w)[k] > 0.0 <==> w[k] > 0.0)
              && (Normalized(w)[k] == 0.0 <==> w[k] == 0.0)
  {
    forall k | 0 <= k < |w|
      ensures (Normalized(w)[k] > 0.0 <==> w[k] > 0.0) && (Normalized(w)[k] == 0.0 <==> w[k] == 0.0)
    {
      QuotientSign(w[k], SumBy(Positive, w));
    }
  }

  /** A normalised weight has the sign of the raw one, or else trust is negligible and all weights are zero. */
  lemma NormalizedSigns(w: seq<real>)
    ensures if SumBy(Positive, w) < EPSILON then AllZero(Normalized(w))
            else && (forall k :: 0 <= k < |w| ==>
                       && (Normalized(w)[k] > 0.0 <==> w[k] > 0.0)
                       && (Normalized(w)[k] == 0.0 <==> w[k] == 0.0))
                 && (Nonnegative(Normalized(w)) <==> Nonnegative(w))
  {
    if SumBy(Positive, w) >= EPSILON {
      QuotientSigns(w);
    }
  }

  lemma Unit(x: real, sum: real, total: real)
    requires sum > 0.0 && x * sum == total
    ensures x == 1.0 <==> total == sum
  {
    assert (x - 1.0) * sum == total - sum;
  }

  lemma NormalizedTotal(w: seq<real>)
    requires SumBy(Positive, w) >= EPSILON
    ensures SumBy(Self, Normalized(w)) == 1.0 <==> SumBy(Self, w) == SumBy(Positive, w)
  {
    SumOfQuotients(w, SumBy(Positive, w), Normalized(w));
    Unit(SumBy(Self, Normalized(w)), SumBy(Positive, w), SumBy(Self, w));
  }

  /**
   Normalised weights are shares, non-negative and summing to one, exactly when the positive raw
   weights are not negligible and no raw weight is negative; when they are negligible every
   normalised weight is zero.
   */
  lemma NormalizedShares(w: seq<real>)
    ensures SumBy(Positive, w) < EPSILON ==> AllZero(Normalized(w))
    ensures SumBy(Positive, w) >= EPSILON ==>
              (Nonnegative(w) <==> Nonnegative(Normalized(w)) && SumBy(Self, Normalized(w)) == 1.0)
  {
    if SumBy(Positive, w) >= EPSILON {
      NormalizedSigns(w);
      SumOfPositives(w);
      NormalizedTotal(w);
    }
  }

  /** Unless trust is negligible the weights are in proportion to the raw ones. */
  lemma NormalizedInProportion(w: seq<real>, i: nat, j: nat)
    requires i < |w| && j < |w| && SumBy(Positive, w) >= EPSILON
    ensures Times(Normalized(w)[i], w[j]) == Times(Normalized(w)[j], w[i])
  {
    Quotients(w[i], w[j], SumBy(Positive, w));
  }

  lemma Quotients(x: real, y: real, sum: real)
    requires sum > 0.0
    ensures Times(x / sum, y) == Times(y / sum, x)
  {
    assert x / sum * y == x * y / sum;
    assert y / sum * x == y * x / sum;
  }

  // ----- Weighted means ----------------------------------------------------------------------

  /** The sum of w[k] * v[k]. */
  function Weighted(w: seq<real>, v: seq<real>): real
    requires |w| == |v|
  {
    if w == [] then 0.0
    else Weighted(w[..|w| - 1], v[..|v| - 1]) + Times(v[|v| - 1], w[|w| - 1])
  }

  /** A weighted mean lies between bounds on the values that carry weight. */
  lemma {:induction false} WeightedWithin(w: seq<real>, v: seq<real>, lo: real, hi: real)
    requires |w| == |v| && Nonnegative(w)
    requires forall k :: 0 <= k < |w| && w[k] > 0.0 ==> lo <= v[k] <= hi
    ensures Times(lo, SumBy(Self, w)) <= Weighted(w, v) <= Times(hi, SumBy(Self, w))
  {
    if w != [] {
      var n := |w| - 1;
      WeightedWithin(w[..n], v[..n], lo, hi);
      if w[n] > 0.0 {
        TimesMonotone(lo, v[n], w[n]);
        TimesMonotone(v[n], hi, w[n]);
      }
      TimesAdds(lo, SumBy(Self, w[..n]), w[n]);
      TimesAdds(hi, SumBy(Self, w[..n]), w[n]);
    }
  }

  lemma {:induction false} WeightedOrders(w: seq<real>, u: seq<real>, v: seq<real>)
    requires |w| == |u| == |v| && Nonnegative(w)
    requires forall k :: 0 <= k < |w| ==> u[k] <= v[k]
    ensures Weighted(w, u) <= Weighted(w, v)
  {
    if w != [] {
      var n := |w| - 1;
      WeightedOrders(w[..n], u[..n], v[..n]);
      TimesMonotone(u[n], v[n], w[n]);
    }
  }

  // ----- Exactly when a weighted mean is a mean ----------------------------------------------

  predicate Shares(w: seq<real>) {
    Nonnegative(w) && SumBy(Self, w) == 1.0
  }

  predicate CarriedWithin(w: seq<real>, v: seq<real>, lo: real, hi: real) {
    |v| == |w| && forall k :: 0 <= k < |w| && w[k] > 0.0 ==> lo <= v[k] <= hi
  }

  /** Whatever the values, the weighted mean lies between any bounds on those that carry weight. */
  ghost predicate MeanStaysWithin(w: seq<real>) {
    forall v: seq<real>, lo: real, hi: real | CarriedWithin(w, v, lo, hi) :: lo <= Weighted(w, v) <= hi
  }

  predicate NowhereGreater(u: seq<real>, v: seq<real>) {
    |u| == |v| && forall k :: 0 <= k < |u| ==> u[k] <= v[k]
  }

  /** Whatever the values, the weighted mean of greater ones is no less. */
  ghost predicate MeanKeepsOrder(w: seq<real>) {
    forall u: seq<real>, v: seq<real> | |u| == |w| && NowhereGreater(u, v) :: Weighted(w, u) <= Weighted(w, v)
  }

  function Ones(n: nat): (v: seq<real>)
    ensures |v| == n
  {
    seq(n, k => 1.0)
  }

  function OneAt(n: nat, i: nat): (v: seq<real>)
    ensures |v| == n
  {
    seq(n, k => if k == i then 1.0 else 0.0)
  }

  function Zeros(n: nat): (v: seq<real>)
    ensures |v| == n
  {
    seq(n, k => 0.0)
  }

  lemma {:induction false} WeightedOnes(w: seq<real>)
    ensures Weighted(w, Ones(|w|)) == SumBy(Self, w)
  {
    if w != [] {
      WeightedOnes(w[..|w| - 1]);
      assert Ones(|w|)[..|w| - 1] == Ones(|w| - 1);
      assert Times(1.0, w[|w| - 1]) == w[|w| - 1];
    }
  }

  lemma {:induction false} WeightedOneAt(w: seq<real>, i: nat)
    ensures Weighted(w, OneAt(|w|, i)) == if i < |w| then w[i] else 0.0
  {
    if w != [] {
      var n := |w| - 1;
      WeightedOneAt(w[..n], i);
      assert OneAt(|w|, i)[..n] == OneAt(n, i);
      assert Times(1.0, w[n]) == w[n] && Times(0.0, w[n]) == 0.0;
    }
  }

  lemma WeightedZeros(w: seq<real>)
    ensures Weighted(w, Zeros(|w|)) == 0.0
  {
    WeightedOneAt(w, |w|);
    assert OneAt(|w|, |w|) == Zeros(|w|);
  }

  /** A weighted mean stays within bounds on what carries weight exactly for non-negative weights that sum to one. */
  lemma ConvexExactly(w: seq<real>)
    ensures MeanStaysWithin(w) <==> Shares(w)
  {
    if Shares(w) {
      forall v: seq<real>, lo: real, hi: real | CarriedWithin(w, v, lo, hi) ensures lo <= Weighted(w, v) <= hi {
        WeightedWithin(w, v, lo, hi);
        assert Times(lo, 1.0) == lo && Times(hi, 1.0) == hi;
      }
    } else if i :| 0 <= i < |w| && w[i] < 0.0 {
      WeightedOneAt(w, i);
      assert CarriedWithin(w, OneAt(|w|, i), 0.0, 0.0);
    } else {
      WeightedOnes(w);
      assert CarriedWithin(w, Ones(|w|), 1.0, 1.0);
    }
  }

  /** And it keeps the order of values exactly for non-negative weights. */
  lemma OrderExactly(w: seq<real>)
    ensures MeanKeepsOrder(w) <==> Nonnegative(w)
  {
    if Nonnegative(w) {
      forall u: seq<real>, v: seq<real> | |u| == |w| && NowhereGreater(u, v) ensures Weighted(w, u) <= Weighted(w, v) {
        WeightedOrders(w, u, v);
      }
    } else {
      var i :| 0 <= i < |w| && w[i] < 0.0;
      WeightedOneAt(w, i);
      WeightedZeros(w);
      assert NowhereGreater(Zeros(|w|), OneAt(|w|, i));
    }
  }
}
