/**
 The Pearson correlation of two series, from five running sums.

 That it lies in [-1, 1] is the Cauchy-Schwarz inequality; that it reaches 1 or -1 only for
 collinear series is its equality case.
 */
module Correlation {
  import opened Sums
  import opened Statistics

  // ----- Sums of a pair of series ------------------------------------------------------------

  function Total(x: seq<real>): real {
    SumBy(Self, x)
  }

  function Dot(x: seq<real>, y: seq<real>): real
    requires |x| == |y|
  {
    if x == [] then 0.0 else Dot(x[..|x| - 1], y[..|y| - 1]) + Times(x[|x| - 1], y[|y| - 1])
  }

  /** n times the sum of products less the product of sums: n squared times the covariance. */
  function Covariance(x: seq<real>, y: seq<real>): real
    requires |x| == |y|
  {
    Times(|x| as real, Dot(x, y)) - Times(Total(x), Total(y))
  }

  function Variance(x: seq<real>): real {
    Covariance(x, x)
  }

  /** The square root, wherever the source needs one, is this: non-negative, with the right square. */
  ghost predicate IsSquareRoot(sqrt: real -> real) {
    forall v: real :: v >= 0.0 ==> sqrt(v) >= 0.0 && Times(sqrt(v), sqrt(v)) == v
  }

  function Pearson(x: seq<real>, y: seq<real>, sqrt: real -> real): real {
    if |x| != |y| || |x| < 2 then 0.0
    else
      var den := sqrt(Times(Variance(x), Variance(y)));
      if den == 0.0 then 0.0 else Covariance(x, y) / den
  }

  method PearsonCorrelation(x: seq<real>, y: seq<real>, sqrt: real -> real) returns (r: real)
    ensures r == Pearson(x, y, sqrt)
  {
    var n := |x|;
    if n != |y| || n < 2 {
      return 0.0;
    }
    var sumX, sumY, sumXY, sumX2, sumY2 := 0.0, 0.0, 0.0, 0.0, 0.0;
    for i := 0 to n
      invariant sumX == Total(x[..i]) && sumY == Total(y[..i])
      invariant sumXY == Dot(x[..i], y[..i])
      invariant sumX2 == Dot(x[..i], x[..i]) && sumY2 == Dot(y[..i], y[..i])
    {
      assert x[..i + 1][..i] == x[..i] && y[..i + 1][..i] == y[..i];
      sumX := sumX + x[i];
      sumY := sumY + y[i];
      sumXY := sumXY + Times(x[i], y[i]);
      sumX2 := sumX2 + Times(x[i], x[i]);
      sumY2 := sumY2 + Times(y[i], y[i]);
    }
    assert x[..n] == x && y[..n] == y;
    var nf := n as real;
    var num := Times(nf, sumXY) - Times(sumX, sumY);
    var den := sqrt(Times(Times(nf, sumX2) - Times(sumX, sumX), Times(nf, sumY2) - Times(sumY, sumY)));
    if den == 0.0 {
      return 0.0;
    }
    return num / den;
  }

  // ----- The variance is a sum of squares ----------------------------------------------------

  /** The sum of squared distances to a point. */
  function Spread(x: seq<real>, a: real): real {
    if x == [] then 0.0 else Spread(x[..|x| - 1], a) + Times(x[|x| - 1] - a, x[|x| - 1] - a)
  }

  lemma SquareNonnegative(d: real)
    ensures Times(d, d) >= 0.0
    ensures Times(d, d) == 0.0 <==> d == 0.0
  {
    if d > 0.0 {
      PositiveTimes(d, d);
    } else if d < 0.0 {
      PositiveTimes(-d, -d);
      assert Times(d, d) == Times(-d, -d);
    }
  }

  lemma PositiveTimes(a: real, c: real)
    requires a > 0.0 && c > 0.0
    ensures Times(a, c) > 0.0
  {
  }

  lemma {:induction false} SpreadNonnegative(x: seq<real>, a: real)
    ensures Spread(x, a) >= 0.0
    ensures Spread(x, a) == 0.0 <==> forall k :: 0 <= k < |x| ==> x[k] == a
  {
    if x != [] {
      var n := |x| - 1;
      SpreadNonnegative(x[..n], a);
      SquareNonnegative(x[n] - a);
      assert (forall k :: 0 <= k < |x| ==> x[k] == a) <==> (forall k :: 0 <= k < n ==> x[..n][k] == a) && x[n] == a;
    }
  }

  /** The sum of squared distances of n values to a, from the sum q of their squares and their sum s. */
  function Expanded(q: real, n: real, s: real, a: real): real {
    q + n * a * a - 2.0 * a * s
  }

  lemma ExpandOne(q: real, n: real, s: real, a: real, b: real)
    ensures Expanded(q, n, s, a) + Times(b - a, b - a) == Expanded(q + Times(b, b), n + 1.0, s + b, a)
  {
  }

  lemma {:induction false} SpreadExpands(x: seq<real>, a: real)
    ensures Spread(x, a) == Expanded(Dot(x, x), |x| as real, Total(x), a)
  {
    if x != [] {
      var n := |x| - 1;
      SpreadExpands(x[..n], a);
      ExpandOne(Dot(x[..n], x[..n]), n as real, Total(x[..n]), a, x[n]);
      assert n as real + 1.0 == |x| as real;
    }
  }

  function FromSums(n: real, q: real, s: real): real {
    Times(n, q) - Times(s, s)
  }

  lemma GrowOne(n: real, q: real, s: real, b: real)
    ensures FromSums(n + 1.0, q + Times(b, b), s + b) == FromSums(n, q, s) + Expanded(q, n, s, b)
  {
  }

  /** One more value adds its squared distances to all the earlier ones. */
  lemma VarianceGrows(x: seq<real>)
    requires x != []
    ensures var n := |x| - 1; Variance(x) == Variance(x[..n]) + Spread(x[..n], x[n])
  {
    var n := |x| - 1;
    SpreadExpands(x[..n], x[n]);
    GrowOne(n as real, Dot(x[..n], x[..n]), Total(x[..n]), x[n]);
    assert n as real + 1.0 == |x| as real;
    assert Variance(x) == FromSums(|x| as real, Dot(x, x), Total(x));
    assert Variance(x[..n]) == FromSums(n as real, Dot(x[..n], x[..n]), Total(x[..n]));
  }

  predicate Constant(x: seq<real>) {
    forall i, j :: 0 <= i < j < |x| ==> x[i] == x[j]
  }

  lemma {:induction false} VarianceNonnegative(x: seq<real>)
    ensures Variance(x) >= 0.0
    ensures Variance(x) == 0.0 <==> Constant(x)
  {
    if x != [] {
      var n := |x| - 1;
      VarianceNonnegative(x[..n]);
      VarianceGrows(x);
      SpreadNonnegative(x[..n], x[n]);
      assert Constant(x) <==> Constant(x[..n]) && forall k :: 0 <= k < n ==> x[..n][k] == x[n];
    }
  }

  // ----- Cauchy-Schwarz ----------------------------------------------------------------------

  /** x less t times y, term by term. */
  function Less(x: seq<real>, y: seq<real>, t: real): (z: seq<real>)
    requires |x| == |y|
    ensures |z| == |x|
  {
    if x == [] then []
    else Less(x[..|x| - 1], y[..|y| - 1], t) + [x[|x| - 1] - Times(t, y[|y| - 1])]
  }

  function Quadratic(a: real, b: real, c: real, t: real): real {
    a - 2.0 * Times(t, b) + Times(Times(t, t), c)
  }

  lemma QuadraticAdds(a: real, b: real, c: real, a': real, b': real, c': real, t: real)
    ensures Quadratic(a + a', b + b', c + c', t) == Quadratic(a, b, c, t) + Quadratic(a', b', c', t)
  {
    TimesAdds(t, b, b');
    TimesAdds(Times(t, t), c, c');
  }

  lemma SquareOfLess(x: real, y: real, t: real)
    ensures Times(x - Times(t, y), x - Times(t, y)) == Quadratic(Times(x, x), Times(x, y), Times(y, y), t)
  {
  }

  lemma {:induction false} LessSums(x: seq<real>, y: seq<real>, t: real)
    requires |x| == |y|
    ensures var z := Less(x, y, t);
            && Total(z) == Total(x) - Times(t, Total(y))
            && Dot(z, z) == Quadratic(Dot(x, x), Dot(x, y), Dot(y, y), t)
  {
    if x != [] {
      var n := |x| - 1;
      var z := Less(x, y, t);
      assert z[..n] == Less(x[..n], y[..n], t);
      LessSums(x[..n], y[..n], t);
      TimesAdds(t, Total(y[..n]), y[n]);
      SquareOfLess(x[n], y[n], t);
      QuadraticAdds(Dot(x[..n], x[..n]), Dot(x[..n], y[..n]), Dot(y[..n], y[..n]),
                    Times(x[n], x[n]), Times(x[n], y[n]), Times(y[n], y[n]), t);
    }
  }

  lemma QuadraticScales(n: real, p: real, q: real, r: real, u: real, v: real, t: real)
    ensures Times(n, Quadratic(p, q, r, t)) - Times(u - Times(t, v), u - Times(t, v))
         == Quadratic(Times(n, p) - Times(u, u), Times(n, q) - Times(u, v), Times(n, r) - Times(v, v), t)
  {
  }

  lemma VarianceOfLess(x: seq<real>, y: seq<real>, t: real)
    requires |x| == |y|
    ensures Variance(Less(x, y, t)) == Quadratic(Variance(x), Covariance(x, y), Variance(y), t)
  {
    LessSums(x, y, t);
    QuadraticScales(|x| as real, Dot(x, x), Dot(x, y), Dot(y, y), Total(x), Total(y), t);
  }

  /** The quadratic at its vertex. */
  lemma AtVertex(a: real, b: real, c: real, t: real)
    requires c > 0.0 && Times(t, c) == b
    ensures Times(Quadratic(a, b, c, t), c) == Times(a, c) - Times(b, b)
  {
  }

  lemma Vertex(b: real, c: real) returns (t: real)
    requires c != 0.0
    ensures Times(t, c) == b
  {
    t := b / c;
  }

  lemma NonnegativeTimes(v: real, c: real)
    requires v >= 0.0 && c >= 0.0
    ensures Times(v, c) >= 0.0
  {
  }

  /** The covariance squared is at most the product of the variances. */
  lemma CauchySchwarz(x: seq<real>, y: seq<real>)
    requires |x| == |y|
    ensures Times(Covariance(x, y), Covariance(x, y)) <= Times(Variance(x), Variance(y))
  {
    var a, b, c := Variance(x), Covariance(x, y), Variance(y);
    VarianceNonnegative(y);
    if c > 0.0 {
      var t := Vertex(b, c);
      VarianceOfLess(x, y, t);
      VarianceNonnegative(Less(x, y, t));
      AtVertex(a, b, c, t);
      NonnegativeTimes(Quadratic(a, b, c, t), c);
    } else if b != 0.0 {
      var t := Vertex((a + 1.0) / 2.0, b);
      assert Quadratic(a, b, 0.0, t) == -1.0;
      VarianceOfLess(x, y, t);
      VarianceNonnegative(Less(x, y, t));
    }
  }

  // ----- The equality case -------------------------------------------------------------------

  /** x is the line with slope t and intercept d through y. */
  predicate OnLine(x: seq<real>, y: seq<real>, t: real, d: real) {
    |x| == |y| && forall k :: 0 <= k < |x| ==> x[k] == Times(t, y[k]) + d
  }

  lemma {:induction false} LessAt(x: seq<real>, y: seq<real>, t: real, k: nat)
    requires k < |x| == |y|
    ensures Less(x, y, t)[k] == x[k] - Times(t, y[k])
  {
    var n := |x| - 1;
    if k < n {
      LessAt(x[..n], y[..n], t, k);
    }
  }

  /** A line fits with slope t exactly when the quadratic vanishes there. */
  lemma LineIffRoot(x: seq<real>, y: seq<real>, t: real)
    requires |x| == |y|
    ensures (exists d :: OnLine(x, y, t, d)) <==> Quadratic(Variance(x), Covariance(x, y), Variance(y), t) == 0.0
  {
    var z := Less(x, y, t);
    VarianceOfLess(x, y, t);
    VarianceNonnegative(z);
    forall k | 0 <= k < |x| ensures z[k] == x[k] - Times(t, y[k]) {
      LessAt(x, y, t, k);
    }
    if Constant(z) {
      assert OnLine(x, y, t, if z == [] then 0.0 else z[0]);
    }
  }

  lemma RootIsVertex(a: real, b: real, c: real, t: real)
    requires c > 0.0 && Times(a, c) >= Times(b, b) && Quadratic(a, b, c, t) == 0.0
    ensures Times(a, c) == Times(b, b) && Times(t, c) == b
  {
    var e := Times(t, c) - b;
    assert Times(e, e) == Times(Quadratic(a, b, c, t), c) - (Times(a, c) - Times(b, b));
    SquareNonnegative(e);
  }

  /** A line through y has the slope covariance over variance, and makes Cauchy-Schwarz an equality. */
  lemma LineIsTight(x: seq<real>, y: seq<real>, t: real, d: real)
    requires OnLine(x, y, t, d) && !Constant(y)
    ensures Times(Covariance(x, y), Covariance(x, y)) == Times(Variance(x), Variance(y))
    ensures Times(t, Variance(y)) == Covariance(x, y)
  {
    VarianceNonnegative(y);
    CauchySchwarz(x, y);
    LineIffRoot(x, y, t);
    RootIsVertex(Variance(x), Covariance(x, y), Variance(y), t);
  }

  lemma FactorIsZero(v: real, c: real)
    requires c > 0.0 && Times(v, c) == 0.0
    ensures v == 0.0
  {
  }

  lemma TightIsLine(x: seq<real>, y: seq<real>) returns (t: real, d: real)
    requires |x| == |y| && !Constant(y)
    requires Times(Covariance(x, y), Covariance(x, y)) == Times(Variance(x), Variance(y))
    ensures OnLine(x, y, t, d)
  {
    var a, b, c := Variance(x), Covariance(x, y), Variance(y);
    VarianceNonnegative(y);
    t := Vertex(b, c);
    AtVertex(a, b, c, t);
    FactorIsZero(Quadratic(a, b, c, t), c);
    LineIffRoot(x, y, t);
    d :| OnLine(x, y, t, d);
  }

  lemma ConstantIsTight(x: seq<real>, y: seq<real>)
    requires |x| == |y| && Constant(y)
    ensures Times(Covariance(x, y), Covariance(x, y)) == Times(Variance(x), Variance(y))
  {
    VarianceNonnegative(y);
    CauchySchwarz(x, y);
    SquareNonnegative(Covariance(x, y));
    assert Times(Variance(x), 0.0) == 0.0;
  }

  /** Cauchy-Schwarz is an equality exactly for series of which the second is constant or the first a line in it. */
  lemma CauchySchwarzEquality(x: seq<real>, y: seq<real>)
    requires |x| == |y|
    ensures Times(Covariance(x, y), Covariance(x, y)) == Times(Variance(x), Variance(y))
       <==> Constant(y) || exists t, d :: OnLine(x, y, t, d)
  {
    if Constant(y) {
      ConstantIsTight(x, y);
    } else if Times(Covariance(x, y), Covariance(x, y)) == Times(Variance(x), Variance(y)) {
      var t, d := TightIsLine(x, y);
    }
    if t, d :| !Constant(y) && OnLine(x, y, t, d) {
      LineIsTight(x, y, t, d);
    }
  }

  // ----- The correlation ---------------------------------------------------------------------

  lemma SquareOrder(u: real, v: real)
    requires v > 0.0 && Times(u, u) <= Times(v, v)
    ensures -v <= u <= v
    ensures Times(u, u) == Times(v, v) <==> u == v || u == -v
  {
    if u > v {
      MulMonotone(v, u, v);
      assert (u - v) * u > 0.0;
    } else if u < -v {
      assert (-u - v) * -u > 0.0;
      MulMonotone(v, -u, v);
    }
    var p, q := v - u, v + u;
    assert p * q == v * v - u * u;
    if p > 0.0 && q > 0.0 {
      assert p * q > 0.0;
    }
  }

  lemma Ratio(num: real, den: real)
    requires den > 0.0 && -den <= num <= den
    ensures -1.0 <= num / den <= 1.0
    ensures num / den == 1.0 <==> num == den
    ensures num / den == -1.0 <==> num == -den
  {
    var r := num / den;
    assert r * den == num;
    assert (r - 1.0) * den == num - den;
    assert (r + 1.0) * den == num + den;
  }

  /** For all series the correlation lies in [-1, 1]. */
  lemma PearsonInRange(x: seq<real>, y: seq<real>, sqrt: real -> real)
    requires IsSquareRoot(sqrt)
    ensures -1.0 <= Pearson(x, y, sqrt) <= 1.0
  {
    if |x| == |y| && |x| >= 2 {
      var den := sqrt(Times(Variance(x), Variance(y)));
      VarianceNonnegative(x);
      VarianceNonnegative(y);
      NonnegativeTimes(Variance(x), Variance(y));
      CauchySchwarz(x, y);
      if den != 0.0 {
        SquareOrder(Covariance(x, y), den);
        Ratio(Covariance(x, y), den);
      }
    }
  }

  lemma SlopeSign(t: real, c: real, b: real)
    requires c > 0.0 && Times(t, c) == b
    ensures (t > 0.0 <==> b > 0.0) && (t < 0.0 <==> b < 0.0)
  {
  }

  /** The extremes, before they are put in terms of lines. */
  lemma PearsonTight(x: seq<real>, y: seq<real>, sqrt: real -> real)
    requires IsSquareRoot(sqrt) && |x| == |y| >= 2 && !Constant(x) && !Constant(y)
    ensures var b := Covariance(x, y);
            var tight := Times(b, b) == Times(Variance(x), Variance(y));
            && (Pearson(x, y, sqrt) == 1.0 <==> tight && b > 0.0)
            && (Pearson(x, y, sqrt) == -1.0 <==> tight && b < 0.0)
  {
    var den := sqrt(Times(Variance(x), Variance(y)));
    VarianceNonnegative(x);
    VarianceNonnegative(y);
    PositiveTimes(Variance(x), Variance(y));
    SquareNonnegative(den);
    CauchySchwarz(x, y);
    SquareOrder(Covariance(x, y), den);
    Ratio(Covariance(x, y), den);
  }

  /**
   Of two series that are not constant, the correlation is 1 exactly when one is a rising line of
   the other, and -1 exactly when it is a falling one.
   */
  lemma PearsonExtreme(x: seq<real>, y: seq<real>, sqrt: real -> real)
    requires IsSquareRoot(sqrt) && |x| == |y| >= 2 && !Constant(x) && !Constant(y)
    ensures Pearson(x, y, sqrt) == 1.0 <==> exists t, d :: t > 0.0 && OnLine(x, y, t, d)
    ensures Pearson(x, y, sqrt) == -1.0 <==> exists t, d :: t < 0.0 && OnLine(x, y, t, d)
  {
    var b := Covariance(x, y);
    PearsonTight(x, y, sqrt);
    VarianceNonnegative(y);
    forall t, d | OnLine(x, y, t, d)
      ensures Times(b, b) == Times(Variance(x), Variance(y)) && (t > 0.0 <==> b > 0.0) && (t < 0.0 <==> b < 0.0)
    {
      LineIsTight(x, y, t, d);
      SlopeSign(t, Variance(y), b);
    }
    if Times(b, b) == Times(Variance(x), Variance(y)) {
      var t, d := TightIsLine(x, y);
    }
  }

  // ----- What the correlation is -------------------------------------------------------------

  /** The sum of the products of the distances of the one series to a and of the other to b. */
  function CrossSpread(x: seq<real>, y: seq<real>, a: real, b: real): real
    requires |x| == |y|
  {
    if x == [] then 0.0
    else CrossSpread(x[..|x| - 1], y[..|y| - 1], a, b) + Times(x[|x| - 1] - a, y[|y| - 1] - b)
  }

  function CrossExpanded(q: real, n: real, s: real, t: real, a: real, b: real): real {
    q - b * s - a * t + n * a * b
  }

  lemma CrossExpandOne(q: real, n: real, s: real, t: real, a: real, b: real, u: real, v: real)
    ensures CrossExpanded(q, n, s, t, a, b) + Times(u - a, v - b) ==
            CrossExpanded(q + Times(u, v), n + 1.0, s + u, t + v, a, b)
  {
  }

  lemma {:induction false} CrossSpreadExpands(x: seq<real>, y: seq<real>, a: real, b: real)
    requires |x| == |y|
    ensures CrossSpread(x, y, a, b) == CrossExpanded(Dot(x, y), |x| as real, Total(x), Total(y), a, b)
  {
    if x != [] {
      var n := |x| - 1;
      CrossSpreadExpands(x[..n], y[..n], a, b);
      CrossExpandOne(Dot(x[..n], y[..n]), n as real, Total(x[..n]), Total(y[..n]), a, b, x[n], y[n]);
      assert n as real + 1.0 == |x| as real;
    }
  }

  lemma ExpandedAtMean(q: real, n: real, s: real, t: real, a: real, b: real)
    requires Times(n, a) == s
    ensures Times(n, CrossExpanded(q, n, s, t, a, b)) == Times(n, q) - Times(s, t)
  {
    assert n * (q - b * s - a * t + n * a * b) == n * q - b * n * s - (n * a) * t + n * b * (n * a);
  }

  /** The numerator is n times the sum of the products of the distances from the means. */
  lemma CovarianceCentred(x: seq<real>, y: seq<real>, a: real, b: real)
    requires |x| == |y| && Times(|x| as real, a) == Total(x)
    ensures Covariance(x, y) == Times(|x| as real, CrossSpread(x, y, a, b))
  {
    CrossSpreadExpands(x, y, a, b);
    ExpandedAtMean(Dot(x, y), |x| as real, Total(x), Total(y), a, b);
  }

  /**
   Of series of one length that vary, the correlation is the number with the sign of the covariance
   whose square times both variances is the square of the covariance; of any others it is zero.
   */
  lemma PearsonIs(x: seq<real>, y: seq<real>, sqrt: real -> real)
    requires IsSquareRoot(sqrt)
    ensures var r := Pearson(x, y, sqrt);
            if |x| != |y| || |x| < 2 || Constant(x) || Constant(y) then r == 0.0
            else && Times(Times(r, r), Times(Variance(x), Variance(y))) == Times(Covariance(x, y), Covariance(x, y))
                 && (r > 0.0 <==> Covariance(x, y) > 0.0) && (r < 0.0 <==> Covariance(x, y) < 0.0)
  {
    if |x| == |y| && |x| >= 2 {
      var product := Times(Variance(x), Variance(y));
      var den := sqrt(product);
      VarianceNonnegative(x);
      VarianceNonnegative(y);
      NonnegativeTimes(Variance(x), Variance(y));
      SquareNonnegative(den);
      if Constant(x) || Constant(y) {
        ProductIsZero(Variance(x), Variance(y));
      } else {
        PositiveTimes(Variance(x), Variance(y));
        QuotientSquared(Covariance(x, y), den);
      }
    }
  }

  lemma ProductIsZero(a: real, b: real)
    requires a == 0.0 || b == 0.0
    ensures Times(a, b) == 0.0
  {
  }

  lemma QuotientSquared(num: real, den: real)
    requires den > 0.0
    ensures var r := num / den;
            && Times(Times(r, r), Times(den, den)) == Times(num, num)
            && (r > 0.0 <==> num > 0.0) && (r < 0.0 <==> num < 0.0)
  {
    var r := num / den;
    assert r * den == num;
    assert (r * r) * (den * den) == (r * den) * (r * den);
  }
}
