/** The weighted linear fit through the origin that turns windows of measurements into a slope. */
module Regression {
  import opened MeasurementWindow

  // ---------- Sums ----------

  ghost function Sum(s: seq<real>): real {
    if s == [] then 0.0 else Sum(s[..|s| - 1]) + s[|s| - 1]
  }

  lemma SumPrefix(s: seq<real>, i: nat)
    requires i < |s|
    ensures Sum(s[..i + 1]) == Sum(s[..i]) + s[i]
  {
    assert s[..i + 1][..i] == s[..i];
  }

  /** A sum of numbers that are not negative is zero exactly when all of them are. */
  lemma {:induction false} SumZeroIff(s: seq<real>)
    requires forall i | 0 <= i < |s| :: s[i] >= 0.0
    ensures Sum(s) >= 0.0
    ensures Sum(s) == 0.0 <==> forall i | 0 <= i < |s| :: s[i] == 0.0
  {
    if s != [] {
      var front := s[..|s| - 1];
      SumZeroIff(front);
      assert forall i | 0 <= i < |front| :: s[i] == front[i];
    }
  }

  lemma {:induction false} SumOrdered(s: seq<real>, t: seq<real>)
    requires |s| == |t| && forall i | 0 <= i < |s| :: s[i] <= t[i]
    ensures Sum(s) <= Sum(t)
  {
    if s != [] {
      SumOrdered(s[..|s| - 1], t[..|t| - 1]);
    }
  }

  lemma {:induction false} SumScaled(s: seq<real>, t: seq<real>, k: real)
    requires |s| == |t| && forall i | 0 <= i < |s| :: t[i] == s[i] * k
    ensures Sum(t) == Sum(s) * k
  {
    if s != [] {
      SumScaled(s[..|s| - 1], t[..|t| - 1], k);
    }
  }

  /** r is a combination of three terms, with coefficients u and v for two of them. */
  predicate Combines(r: real, yy: real, xy: real, xx: real, u: real, v: real) {
    r == yy + u * xy + v * xx
  }

  lemma CombineSums(r: real, yy: real, xy: real, xx: real, dr: real, dyy: real, dxy: real, dxx: real, u: real, v: real)
    requires Combines(r, yy, xy, xx, u, v) && Combines(dr, dyy, dxy, dxx, u, v)
    ensures Combines(r + dr, yy + dyy, xy + dxy, xx + dxx, u, v)
  {
  }

  lemma {:induction false} SumCombines(r: seq<real>, yy: seq<real>, xy: seq<real>, xx: seq<real>, u: real, v: real)
    requires |r| == |yy| == |xy| == |xx|
    requires forall i | 0 <= i < |r| :: Combines(r[i], yy[i], xy[i], xx[i], u, v)
    ensures Combines(Sum(r), Sum(yy), Sum(xy), Sum(xx), u, v)
  {
    if r != [] {
      var n := |r| - 1;
      SumCombines(r[..n], yy[..n], xy[..n], xx[..n], u, v);
      CombineSums(Sum(r[..n]), Sum(yy[..n]), Sum(xy[..n]), Sum(xx[..n]), r[n], yy[n], xy[n], xx[n], u, v);
    }
  }

  /** Of the quadratic polynomials of this shape, the least value is at the quotient of the sums. */
  lemma LeastCombination(least: real, r: real, yy: real, xy: real, xx: real, s: real, a: real)
    requires xx > 0.0 && s * xx == xy
    requires Combines(least, yy, xy, xx, -2.0 * s, s * s) && Combines(r, yy, xy, xx, -2.0 * a, a * a)
    ensures least <= r
  {
    var d := a - s;
    assert d * d * xx >= 0.0 by { SquareSign(xx, d); }
    assert d * d * xx == a * a * xx - 2.0 * a * (s * xx) + s * (s * xx);
    assert s * s * xx == s * (s * xx);
  }

  lemma InverseOfQuotient(a: real, b: real)
    requires a > 0.0 && b > 0.0
    ensures a / b > 0.0 && 1.0 / (a / b) == b / a
  {
  }

  lemma TimesBetween(lo: real, a: real, hi: real, k: real, product: real)
    requires k > 0.0 && lo <= a < hi && product == a * k
    ensures lo * k <= product < hi * k
  {
    ProductPositive(hi - a, k);
    assert (hi - a) * k == hi * k - product;
    assert (a - lo) * k >= 0.0;
    assert (a - lo) * k == product - lo * k;
  }

  /** A weighted square. */
  function Square(w: real, d: real): real {
    w * d * d
  }

  lemma SquareSign(w: real, d: real)
    requires w > 0.0
    ensures Square(w, d) >= 0.0
    ensures Square(w, d) == 0.0 <==> d == 0.0
  {
    if d == 0.0 {
      assert w * d == 0.0;
    } else {
      var a := if d > 0.0 then d else -d;
      ProductPositive(w, a);
      ProductPositive(w * a, a);
      assert Square(w, d) == w * a * a;
    }
  }

  lemma ProductPositive(a: real, b: real)
    requires a > 0.0 && b > 0.0
    ensures a * b > 0.0
  {
  }

  lemma ExpandSquare(w: real, y: real, x: real, a: real)
    ensures Combines(Square(w, y - a * x), w * y * y, w * x * y, w * x * x, -2.0 * a, a * a)
  {
  }

  // ---------- The average and the deviation of a window ----------

  /** Fractions and positive weights, as every tracked measurement has. */
  ghost predicate Plausible(ms: Measurements) {
    forall i | 0 <= i < |ms| :: 0.0 <= ms[i].distance <= 1.0 && ms[i].weight > 0.0
  }

  function Weighted(m: Measurement): real { m.weight * m.distance }

  function WeightedSquare(m: Measurement): real { m.weight * m.distance * m.distance }

  function Deviation(m: Measurement, a: real): real { Square(m.weight, m.distance - a) }

  ghost function Weights(ms: Measurements): seq<real> {
    seq(|ms|, i requires 0 <= i < |ms| => ms[i].weight)
  }

  ghost function Distances(ms: Measurements): seq<real> {
    seq(|ms|, i requires 0 <= i < |ms| => Weighted(ms[i]))
  }

  ghost function Squares(ms: Measurements): seq<real> {
    seq(|ms|, i requires 0 <= i < |ms| => WeightedSquare(ms[i]))
  }

  ghost function Deviations(ms: Measurements, a: real): seq<real> {
    seq(|ms|, i requires 0 <= i < |ms| => Deviation(ms[i], a))
  }

  ghost function Average(ms: Measurements): real
    requires Sum(Weights(ms)) > 0.0
  {
    Sum(Distances(ms)) / Sum(Weights(ms))
  }

  ghost function Variance(ms: Measurements): real
    requires |ms| > 1 && Sum(Weights(ms)) > 0.0
  {
    VarianceOf(Sum(Deviations(ms, Average(ms))), |ms|, Sum(Weights(ms)))
  }

  function VarianceOf(deviations: real, count: nat, weights: real): (v: real)
    requires count > 1 && weights > 0.0
    ensures deviations >= 0.0 ==> v >= 0.0
    ensures v == 0.0 <==> deviations == 0.0
  {
    var share := (count - 1) as real / count as real;
    assert share > 0.0;
    assert share * weights > 0.0;
    deviations / (share * weights)
  }

  /** The variance is the sum of deviations over the weights, with the correction for a sample. */
  lemma VarianceTimes(deviations: real, count: nat, weights: real)
    requires count > 1 && weights > 0.0
    ensures VarianceOf(deviations, count, weights) * ((count - 1) as real / count as real * weights) == deviations
  {
    var share := (count - 1) as real / count as real;
    assert share > 0.0;
    ProductPositive(share, weights);
    QuotientTimes(deviations, share * weights);
  }

  lemma WeightedInRange(m: Measurement)
    requires m.weight > 0.0 && 0.0 <= m.distance <= 1.0
    ensures 0.0 <= Weighted(m) <= m.weight
    ensures Weighted(m) == 0.0 ==> m.distance == 0.0
  {
    var product := Weighted(m);
    assert product == m.weight * m.distance;
    TimesFraction(m.weight, m.distance, product);
  }

  lemma TimesFraction(w: real, d: real, product: real)
    requires w > 0.0 && 0.0 <= d <= 1.0 && product == w * d
    ensures 0.0 <= product <= w
    ensures product == 0.0 <==> d == 0.0
  {
    assert w * (1.0 - d) >= 0.0;
  }

  /** The average of a window lies in [0, 1], and it is zero only if all distances are. */
  lemma AverageInRange(ms: Measurements)
    requires Plausible(ms) && ms != []
    ensures Sum(Weights(ms)) > 0.0 && 0.0 <= Average(ms) <= 1.0
    ensures Average(ms) == 0.0 ==> AllAt(ms, 0.0)
  {
    WindowSums(ms);
    FractionRange(Sum(Distances(ms)), Sum(Weights(ms)));
  }

  lemma WindowSums(ms: Measurements)
    requires Plausible(ms) && ms != []
    ensures Sum(Weights(ms)) > 0.0
    ensures 0.0 <= Sum(Distances(ms)) <= Sum(Weights(ms))
    ensures Sum(Distances(ms)) == 0.0 ==> AllAt(ms, 0.0)
  {
    forall i | 0 <= i < |ms|
      ensures 0.0 <= Distances(ms)[i] <= Weights(ms)[i] && Weights(ms)[i] > 0.0
      ensures Distances(ms)[i] == 0.0 ==> ms[i].distance == 0.0
    {
      WeightedInRange(ms[i]);
    }
    assert Weights(ms)[0] > 0.0;
    SumZeroIff(Weights(ms));
    SumZeroIff(Distances(ms));
    SumOrdered(Distances(ms), Weights(ms));
  }

  ghost predicate AllAt(ms: Measurements, d: real) {
    forall i | 0 <= i < |ms| :: ms[i].distance == d
  }

  /** A window where every measurement has the same distance. */
  ghost predicate Uniform(ms: Measurements) {
    exists d: real :: AllAt(ms, d)
  }

  /** There is no deviation from a value exactly when all distances are that value. */
  lemma NoDeviationIff(ms: Measurements, a: real)
    requires Plausible(ms)
    ensures Sum(Deviations(ms, a)) >= 0.0
    ensures Sum(Deviations(ms, a)) == 0.0 <==> AllAt(ms, a)
  {
    forall i | 0 <= i < |ms|
      ensures Deviations(ms, a)[i] >= 0.0
      ensures Deviations(ms, a)[i] == 0.0 <==> ms[i].distance == a
    {
      SquareSign(ms[i].weight, ms[i].distance - a);
    }
    SumZeroIff(Deviations(ms, a));
  }

  lemma AllAtAverage(ms: Measurements, d: real)
    requires Sum(Weights(ms)) > 0.0 && AllAt(ms, d)
    ensures Average(ms) == d
  {
    SumScaled(Weights(ms), Distances(ms), d);
    CancelFactor(Sum(Weights(ms)), d);
  }

  lemma CancelFactor(w: real, d: real)
    requires w > 0.0
    ensures w * d / w == d
  {
  }

  lemma DeviationCombines(m: Measurement, a: real)
    ensures Combines(Deviation(m, a), WeightedSquare(m), Weighted(m), m.weight, -2.0 * a, a * a)
  {
    ExpandSquare(m.weight, m.distance, 1.0, a);
  }

  lemma DeviationsCombine(ms: Measurements, a: real)
    ensures Combines(Sum(Deviations(ms, a)), Sum(Squares(ms)), Sum(Distances(ms)), Sum(Weights(ms)), -2.0 * a, a * a)
  {
    forall i | 0 <= i < |ms|
      ensures Combines(Deviations(ms, a)[i], Squares(ms)[i], Distances(ms)[i], Weights(ms)[i], -2.0 * a, a * a)
    {
      DeviationCombines(ms[i], a);
    }
    SumCombines(Deviations(ms, a), Squares(ms), Distances(ms), Weights(ms), -2.0 * a, a * a);
  }

  lemma LeastDeviations(ms: Measurements, least: real, a: real)
    requires Sum(Weights(ms)) > 0.0 && least * Sum(Weights(ms)) == Sum(Distances(ms))
    ensures Sum(Deviations(ms, least)) <= Sum(Deviations(ms, a))
  {
    DeviationsCombine(ms, least);
    DeviationsCombine(ms, a);
    LeastCombination(Sum(Deviations(ms, least)), Sum(Deviations(ms, a)),
                     Sum(Squares(ms)), Sum(Distances(ms)), Sum(Weights(ms)), least, a);
  }

  /** The weighted average has the least weighted squared deviation of all values. */
  lemma AverageMinimises(ms: Measurements, a: real)
    requires Sum(Weights(ms)) > 0.0
    ensures Sum(Deviations(ms, Average(ms))) <= Sum(Deviations(ms, a))
  {
    QuotientTimes(Sum(Distances(ms)), Sum(Weights(ms)));
    LeastDeviations(ms, Average(ms), a);
  }

  /** A square root, on the numbers that have one. */
  ghost predicate IsSqrt(sqrt: real -> real) {
    forall x | x >= 0.0 :: sqrt(x) >= 0.0 && sqrt(x) * sqrt(x) == x
  }

  lemma SqrtZero(sqrt: real -> real, x: real)
    requires IsSqrt(sqrt) && x >= 0.0
    ensures sqrt(x) >= 0.0
    ensures sqrt(x) == 0.0 <==> x == 0.0
  {
    var r := sqrt(x);
    assert r * r == x;
    SquareSign(1.0, r);
  }

  /** One point of the regression: its height is the average distance of a window, and it counts
      with the standard deviation of it. */
  datatype Point = Point(x: real, y: real, err: real)

  ghost function PointOf(x: real, ms: Measurements, sqrt: real -> real): Point
    requires |ms| > 1 && Sum(Weights(ms)) > 0.0
  {
    Point(x, Average(ms), sqrt(Variance(ms)))
  }

  /** A point with an average in [0, 1] that is positive if there is any deviation. */
  ghost predicate PlausiblePoint(p: Point) {
    p.x >= 1.0 && 0.0 <= p.y <= 1.0 && p.err >= 0.0 && (p.err > 0.0 ==> p.y > 0.0)
  }

  /** The point of a plausible window is plausible, and it counts unless the window is uniform. */
  lemma PointIsPlausible(x: real, ms: Measurements, sqrt: real -> real)
    requires x >= 1.0 && Plausible(ms) && |ms| > 1 && IsSqrt(sqrt)
    ensures Sum(Weights(ms)) > 0.0 && PlausiblePoint(PointOf(x, ms, sqrt))
    ensures PointOf(x, ms, sqrt).err == 0.0 <==> Uniform(ms)
  {
    AverageInRange(ms);
    NoDeviationIff(ms, Average(ms));
    SqrtZero(sqrt, Variance(ms));
    if d: real :| AllAt(ms, d) {
      AllAtAverage(ms, d);
    }
  }

  // ---------- The fit ----------

  function XY(p: Point): real { p.err * p.x * p.y }

  function XX(p: Point): real { p.err * p.x * p.x }

  function YY(p: Point): real { p.err * p.y * p.y }

  /** The weighted squared error of the line through the origin with slope a. */
  function Residual(p: Point, a: real): real { Square(p.err, p.y - a * p.x) }

  ghost function XYs(ps: seq<Point>): seq<real> {
    seq(|ps|, i requires 0 <= i < |ps| => XY(ps[i]))
  }

  ghost function XXs(ps: seq<Point>): seq<real> {
    seq(|ps|, i requires 0 <= i < |ps| => XX(ps[i]))
  }

  ghost function YYs(ps: seq<Point>): seq<real> {
    seq(|ps|, i requires 0 <= i < |ps| => YY(ps[i]))
  }

  ghost function Residuals(ps: seq<Point>, a: real): seq<real> {
    seq(|ps|, i requires 0 <= i < |ps| => Residual(ps[i], a))
  }

  lemma ResidualCombines(p: Point, a: real)
    ensures Combines(Residual(p, a), YY(p), XY(p), XX(p), -2.0 * a, a * a)
  {
    ExpandSquare(p.err, p.y, p.x, a);
  }

  lemma ResidualsCombine(ps: seq<Point>, a: real)
    ensures Combines(Sum(Residuals(ps, a)), Sum(YYs(ps)), Sum(XYs(ps)), Sum(XXs(ps)), -2.0 * a, a * a)
  {
    forall i | 0 <= i < |ps|
      ensures Combines(Residuals(ps, a)[i], YYs(ps)[i], XYs(ps)[i], XXs(ps)[i], -2.0 * a, a * a)
    {
      ResidualCombines(ps[i], a);
    }
    SumCombines(Residuals(ps, a), YYs(ps), XYs(ps), XXs(ps), -2.0 * a, a * a);
  }

  ghost function Slope(ps: seq<Point>): real
    requires Sum(XXs(ps)) > 0.0
  {
    Sum(XYs(ps)) / Sum(XXs(ps))
  }

  lemma LeastResiduals(ps: seq<Point>, least: real, a: real)
    requires Sum(XXs(ps)) > 0.0 && least * Sum(XXs(ps)) == Sum(XYs(ps))
    ensures Sum(Residuals(ps, least)) <= Sum(Residuals(ps, a))
  {
    ResidualsCombine(ps, least);
    ResidualsCombine(ps, a);
    LeastCombination(Sum(Residuals(ps, least)), Sum(Residuals(ps, a)),
                     Sum(YYs(ps)), Sum(XYs(ps)), Sum(XXs(ps)), least, a);
  }

  /** The computed slope has the least weighted squared error of all lines through the origin. */
  lemma SlopeMinimises(ps: seq<Point>, a: real)
    requires Sum(XXs(ps)) > 0.0
    ensures Sum(Residuals(ps, Slope(ps))) <= Sum(Residuals(ps, a))
  {
    QuotientTimes(Sum(XYs(ps)), Sum(XXs(ps)));
    LeastResiduals(ps, Slope(ps), a);
  }

  /** No line through the origin has a smaller weighted squared error than that with the slope. */
  ghost predicate BestFit(ps: seq<Point>)
    requires Sum(XXs(ps)) > 0.0
  {
    forall a: real :: Sum(Residuals(ps, Slope(ps))) <= Sum(Residuals(ps, a))
  }

  lemma SlopeIsBest(ps: seq<Point>)
    requires Sum(XXs(ps)) > 0.0
    ensures BestFit(ps)
  {
    forall a: real
      ensures Sum(Residuals(ps, Slope(ps))) <= Sum(Residuals(ps, a))
    {
      SlopeMinimises(ps, a);
    }
  }

  lemma PointTerms(p: Point)
    requires PlausiblePoint(p)
    ensures 0.0 <= XY(p) <= XX(p)
    ensures XY(p) == 0.0 <==> p.err == 0.0
    ensures XX(p) == 0.0 <==> p.err == 0.0
  {
    var z := p.err * p.x;
    assert XY(p) == z * p.y && XX(p) == z * p.x;
    if p.err > 0.0 {
      ProductPositive(p.err, p.x);
      TimesFraction(z, p.y, XY(p));
      TimesAtLeastOne(z, p.x, XX(p));
    } else {
      assert z == 0.0;
    }
  }

  lemma TimesAtLeastOne(w: real, x: real, product: real)
    requires w > 0.0 && x >= 1.0 && product == w * x
    ensures product >= w
  {
    assert w * (x - 1.0) >= 0.0;
  }

  /** Both sums are positive unless no point counts, and then both are zero. */
  lemma RegressionSums(ps: seq<Point>)
    requires forall i | 0 <= i < |ps| :: PlausiblePoint(ps[i])
    ensures 0.0 <= Sum(XYs(ps)) <= Sum(XXs(ps))
    ensures Sum(XXs(ps)) > 0.0 <==> Sum(XYs(ps)) > 0.0
    ensures Sum(XXs(ps)) == 0.0 <==> forall i | 0 <= i < |ps| :: ps[i].err == 0.0
  {
    forall i | 0 <= i < |ps|
      ensures 0.0 <= XYs(ps)[i] <= XXs(ps)[i]
      ensures XYs(ps)[i] == 0.0 <==> ps[i].err == 0.0
      ensures XXs(ps)[i] == 0.0 <==> ps[i].err == 0.0
    {
      PointTerms(ps[i]);
    }
    SumZeroIff(XYs(ps));
    SumZeroIff(XXs(ps));
    SumOrdered(XYs(ps), XXs(ps));
  }

  /** A slope between zero and one gives a size that is not negative, so in particular not the
      mark of an invalid estimate. */
  lemma SlopeInRange(xy: real, xx: real)
    requires 0.0 < xy <= xx
    ensures 0.0 < xy / xx <= 1.0
    ensures (1.0 / (xy / xx) - 1.0).Floor >= 0
  {
  }
}
