/** The network size estimator: it tracks how far the closest peers of looked-up keys are and
    fits a line through the averages. */
module NetSize {
  import opened Base
  import opened BitStrings
  import opened KeySpace
  import opened MeasurementWindow
  import opened Regression

  const INVALID_ESTIMATE: int := -1

  datatype Estimate = Size(size: int) | NotEnoughData

  // ---------- What an estimate is ----------

  /** Windows with as much data as an estimate needs. */
  ghost predicate Sufficient(windows: seq<Measurements>) {
    forall i | 0 <= i < |windows| :: |windows[i]| >= MIN_MEASUREMENTS_THRESHOLD
  }

  ghost predicate AllPlausible(windows: seq<Measurements>) {
    forall i | 0 <= i < |windows| :: Plausible(windows[i])
  }

  /** The i-th point, counted from zero, lies at i + 1. */
  function At(i: nat): (x: real)
    ensures x >= 1.0
  {
    (i + 1) as real
  }

  ghost function Points(windows: seq<Measurements>, sqrt: real -> real): (ps: seq<Point>)
    requires Sufficient(windows) && AllPlausible(windows)
    ensures |ps| == |windows|
  {
    seq(|windows|, i requires 0 <= i < |windows| => AverageInRange(windows[i]); PointOf(At(i), windows[i], sqrt))
  }

  /** The size that a fit gives. Without a single deviation the slope is no number, and what the
      platform makes of that as an integer is notANumber. */
  function SizeOf(xy: real, xx: real, notANumber: int): int
    requires xx != 0.0 ==> xy != 0.0
  {
    if xx == 0.0 then notANumber
    else
      var slope := xy / xx;
      assert slope * xx == xy;
      (1.0 / slope - 1.0).Floor
  }

  lemma PointsPlausible(windows: seq<Measurements>, sqrt: real -> real)
    requires Sufficient(windows) && AllPlausible(windows) && IsSqrt(sqrt)
    ensures var ps := Points(windows, sqrt);
            forall i | 0 <= i < |ps| :: PlausiblePoint(ps[i]) && (ps[i].err == 0.0 <==> Uniform(windows[i]))
  {
    forall i | 0 <= i < |windows|
      ensures PlausiblePoint(Points(windows, sqrt)[i])
      ensures Points(windows, sqrt)[i].err == 0.0 <==> Uniform(windows[i])
    {
      PointIsPlausible(At(i), windows[i], sqrt);
    }
  }

  lemma SumsOfPoints(windows: seq<Measurements>, sqrt: real -> real)
    requires Sufficient(windows) && AllPlausible(windows) && IsSqrt(sqrt)
    ensures var ps := Points(windows, sqrt);
            0.0 <= Sum(XYs(ps)) <= Sum(XXs(ps)) && (Sum(XXs(ps)) > 0.0 <==> Sum(XYs(ps)) > 0.0)
    ensures Sum(XXs(Points(windows, sqrt))) == 0.0 <==> forall i | 0 <= i < |windows| :: Uniform(windows[i])
  {
    PointsPlausible(windows, sqrt);
    RegressionSums(Points(windows, sqrt));
  }

  /** The slope lies in (0, 1], and the size is no negative number. */
  ghost predicate IsProper(xy: real, xx: real, notANumber: int) {
    xy > 0.0 && xx > 0.0 && 0.0 < xy / xx <= 1.0 && SizeOf(xy, xx, notANumber) >= 0
  }

  lemma SizeIsProper(xy: real, xx: real, notANumber: int)
    requires 0.0 < xy <= xx
    ensures IsProper(xy, xx, notANumber)
  {
    SlopeInRange(xy, xx);
  }

  ghost predicate AllUniform(windows: seq<Measurements>) {
    forall i | 0 <= i < |windows| :: Uniform(windows[i])
  }

  /** If the distances vary in at least one window, the estimate comes from a slope in (0, 1], which
      is that of the line through the origin with the least weighted error, and the size is no
      negative number; if they vary in none, there is no slope. */
  lemma EstimateIsProper(windows: seq<Measurements>, sqrt: real -> real, notANumber: int)
    requires Sufficient(windows) && AllPlausible(windows) && IsSqrt(sqrt)
    ensures var ps := Points(windows, sqrt);
            if AllUniform(windows) then
              Sum(XXs(ps)) == 0.0 == Sum(XYs(ps)) && SizeOf(Sum(XYs(ps)), Sum(XXs(ps)), notANumber) == notANumber
            else
              IsProper(Sum(XYs(ps)), Sum(XXs(ps)), notANumber) && BestFit(ps)
  {
    SumsOfPoints(windows, sqrt);
    var ps := Points(windows, sqrt);
    if Sum(XXs(ps)) > 0.0 {
      SizeIsProper(Sum(XYs(ps)), Sum(XXs(ps)), notANumber);
      SlopeIsBest(ps);
    }
  }

  /** What the estimate is for the windows at hand. */
  ghost predicate IsEstimate(windows: seq<Measurements>, sqrt: real -> real, notANumber: int, r: Estimate) {
    && AllPlausible(windows) && IsSqrt(sqrt)
    && if Sufficient(windows) then
         SumsOfPoints(windows, sqrt);
         var ps := Points(windows, sqrt);
         r == Size(SizeOf(Sum(XYs(ps)), Sum(XXs(ps)), notANumber))
       else r == NotEnoughData
  }

  /** There is an estimate unless a window is too short, and its size is no negative number unless all
      windows are uniform. */
  lemma EstimateMeans(windows: seq<Measurements>, sqrt: real -> real, notANumber: int, r: Estimate)
    requires IsEstimate(windows, sqrt, notANumber, r)
    ensures r.NotEnoughData? <==> exists i | 0 <= i < |windows| :: |windows[i]| < MIN_MEASUREMENTS_THRESHOLD
    ensures r.Size? ==> if AllUniform(windows) then r.size == notANumber else r.size >= 0
  {
    if r.Size? {
      EstimateIsProper(windows, sqrt, notANumber);
    }
  }

  // ---------- What the estimate says ----------

  /** A point lies at its rank, counted from one, and at the weighted average of its window; and the square
      of its error is the unbiased weighted variance. */
  ghost predicate Describes(p: Point, i: nat, ms: Measurements) {
    && ms != []
    && p.x == (i + 1) as real
    && p.y * Sum(Weights(ms)) == Sum(Distances(ms))
    && p.err >= 0.0
    && p.err * p.err * ((|ms| - 1) as real / |ms| as real * Sum(Weights(ms))) == Sum(Deviations(ms, p.y))
  }

  ghost predicate AllDescribed(ps: seq<Point>, windows: seq<Measurements>) {
    |ps| == |windows| && forall i | 0 <= i < |ps| :: Describes(ps[i], i, windows[i])
  }

  lemma PointDescribes(i: nat, ms: Measurements, sqrt: real -> real)
    requires Plausible(ms) && |ms| > 1 && IsSqrt(sqrt)
    ensures Sum(Weights(ms)) > 0.0 && Describes(PointOf(At(i), ms, sqrt), i, ms)
  {
    AverageInRange(ms);
    QuotientTimes(Sum(Distances(ms)), Sum(Weights(ms)));
    NoDeviationIff(ms, Average(ms));
    VarianceTimes(Sum(Deviations(ms, Average(ms))), |ms|, Sum(Weights(ms)));
    SqrtZero(sqrt, Variance(ms));
  }

  lemma PointsDescribe(windows: seq<Measurements>, sqrt: real -> real)
    requires Sufficient(windows) && AllPlausible(windows) && IsSqrt(sqrt)
    ensures AllDescribed(Points(windows, sqrt), windows)
  {
    forall i | 0 <= i < |windows|
      ensures Describes(Points(windows, sqrt)[i], i, windows[i])
    {
      PointDescribes(i, windows[i], sqrt);
    }
  }

  /** One more than the size, and with a fraction at most one, is the inverse of the slope xy / xx. */
  predicate Rounds(size: int, xy: real, xx: real) {
    (size as real + 1.0) * xy <= xx < (size as real + 2.0) * xy
  }

  lemma SizeRounds(xy: real, xx: real, notANumber: int)
    requires 0.0 < xy && 0.0 < xx
    ensures Rounds(SizeOf(xy, xx, notANumber), xy, xx)
  {
    var size := SizeOf(xy, xx, notANumber);
    assert size == (xx / xy - 1.0).Floor by {
      InverseOfQuotient(xy, xx);
    }
    QuotientTimes(xx, xy);
    TimesBetween(size as real + 1.0, xx / xy, size as real + 2.0, xy, xx);
  }

  /** There is too little data exactly if some window is too short. Otherwise the size is the inverse of the
      slope less one, rounded down, for the points of the windows; and without a slope it is notANumber. */
  ghost predicate SizeFits(windows: seq<Measurements>, ps: seq<Point>, notANumber: int, r: Estimate) {
    && (r.NotEnoughData? <==> exists i | 0 <= i < |windows| :: |windows[i]| < MIN_MEASUREMENTS_THRESHOLD)
    && (r.Size? ==>
          && AllDescribed(ps, windows)
          && if AllUniform(windows) then r.size == notANumber
             else r.size >= 0 && Rounds(r.size, Sum(XYs(ps)), Sum(XXs(ps))))
  }

  lemma EstimateFits(windows: seq<Measurements>, sqrt: real -> real, notANumber: int, r: Estimate)
    returns (ps: seq<Point>)
    requires IsEstimate(windows, sqrt, notANumber, r)
    ensures SizeFits(windows, ps, notANumber, r)
  {
    EstimateMeans(windows, sqrt, notANumber, r);
    ps := [];
    if r.Size? {
      ps := Points(windows, sqrt);
      PointsDescribe(windows, sqrt);
      if !AllUniform(windows) {
        EstimateIsProper(windows, sqrt, notANumber);
        SizeRounds(Sum(XYs(ps)), Sum(XXs(ps)), notANumber);
      }
    }
  }

  // ---------- Computing it ----------

  method AverageDistance(ms: Measurements) returns (average: real, weights: real)
    requires Plausible(ms) && ms != []
    ensures weights == Sum(Weights(ms)) > 0.0
    ensures average == Average(ms)
  {
    var distances := 0.0;
    weights := 0.0;
    for i := 0 to |ms|
      invariant weights == Sum(Weights(ms)[..i]) && distances == Sum(Distances(ms)[..i])
    {
      SumPrefix(Weights(ms), i);
      SumPrefix(Distances(ms), i);
      distances := distances + Weighted(ms[i]);
      weights := weights + ms[i].weight;
    }
    assert Weights(ms)[..|ms|] == Weights(ms) && Distances(ms)[..|ms|] == Distances(ms);
    AverageInRange(ms);
    average := distances / weights;
  }

  method WeightedDiffs(ms: Measurements, average: real) returns (diffs: real)
    ensures diffs == Sum(Deviations(ms, average))
  {
    diffs := 0.0;
    for i := 0 to |ms|
      invariant diffs == Sum(Deviations(ms, average)[..i])
    {
      SumPrefix(Deviations(ms, average), i);
      diffs := diffs + Deviation(ms[i], average);
    }
    assert Deviations(ms, average)[..|ms|] == Deviations(ms, average);
  }

  method MeasurePoint(x: real, ms: Measurements, sqrt: real -> real) returns (p: Point)
    requires Plausible(ms) && |ms| > 1
    ensures Sum(Weights(ms)) > 0.0 && p == PointOf(x, ms, sqrt)
  {
    var average, weights := AverageDistance(ms);
    var diffs := WeightedDiffs(ms, average);
    p := Point(x, average, sqrt(VarianceOf(diffs, |ms|, weights)));
  }

  ghost predicate IsPointOf(p: Point, i: nat, ms: Measurements, sqrt: real -> real) {
    |ms| > 1 && Sum(Weights(ms)) > 0.0 && p == PointOf(At(i), ms, sqrt)
  }

  ghost predicate ArePoints(ps: seq<Point>, windows: seq<Measurements>, sqrt: real -> real) {
    |ps| <= |windows| && forall j | 0 <= j < |ps| :: IsPointOf(ps[j], j, windows[j], sqrt)
  }

  lemma OneMorePoint(ps: seq<Point>, p: Point, windows: seq<Measurements>, i: nat, sqrt: real -> real)
    requires |ps| == i < |windows| && Sufficient(windows[..i]) && ArePoints(ps, windows, sqrt)
    requires |windows[i]| >= MIN_MEASUREMENTS_THRESHOLD && IsPointOf(p, i, windows[i], sqrt)
    ensures Sufficient(windows[..i + 1]) && ArePoints(ps + [p], windows, sqrt)
  {
  }

  /** The points to fit, unless a window is too short. */
  method Measure(windows: seq<Measurements>, sqrt: real -> real) returns (r: Option<seq<Point>>)
    requires AllPlausible(windows)
    ensures r.Some? <==> Sufficient(windows)
    ensures r.Some? ==> r.value == Points(windows, sqrt)
  {
    var ps: seq<Point> := [];
    for i := 0 to |windows|
      invariant |ps| == i && Sufficient(windows[..i]) && ArePoints(ps, windows, sqrt)
    {
      if |windows[i]| < MIN_MEASUREMENTS_THRESHOLD {
        return None;
      }
      assert Plausible(windows[i]);
      var p := MeasurePoint(At(i), windows[i], sqrt);
      OneMorePoint(ps, p, windows, i, sqrt);
      ps := ps + [p];
    }
    assert windows[..|windows|] == windows;
    PointsFromEach(ps, windows, sqrt);
    return Some(ps);
  }

  lemma PointsFromEach(ps: seq<Point>, windows: seq<Measurements>, sqrt: real -> real)
    requires Sufficient(windows) && AllPlausible(windows) && |ps| == |windows| && ArePoints(ps, windows, sqrt)
    ensures ps == Points(windows, sqrt)
  {
    forall j | 0 <= j < |ps|
      ensures ps[j] == Points(windows, sqrt)[j]
    {
      assert IsPointOf(ps[j], j, windows[j], sqrt);
    }
  }

  method Fit(ps: seq<Point>) returns (xy: real, xx: real)
    ensures xy == Sum(XYs(ps)) && xx == Sum(XXs(ps))
  {
    xy, xx := 0.0, 0.0;
    for i := 0 to |ps|
      invariant xy == Sum(XYs(ps)[..i]) && xx == Sum(XXs(ps)[..i])
    {
      SumPrefix(XYs(ps), i);
      SumPrefix(XXs(ps), i);
      xy := xy + XY(ps[i]);
      xx := xx + XX(ps[i]);
    }
    assert XYs(ps)[..|ps|] == XYs(ps) && XXs(ps)[..|ps|] == XXs(ps);
  }

  // ---------- The estimator ----------

  /** A list holds the window, at a time, of all measurements ever made for it. */
  ghost predicate Tracked(h: Measurements, ms: Measurements, time: int) {
    && SortedByTime(h) && Plausible(h)
    && (forall i | 0 <= i < |h| :: h[i].timestamp <= time)
    && ms == Newest(Young(h, time - MAX_MEASUREMENT_AGE))
  }

  lemma TrackedIsPlausible(h: Measurements, ms: Measurements, time: int)
    requires Tracked(h, ms, time)
    ensures Plausible(ms) && SortedByTime(ms)
  {
    var i := WindowIsSuffix(h, time - MAX_MEASUREMENT_AGE);
    assert forall j | 0 <= j < |ms| :: ms[j] == h[i + j];
  }

  lemma TrackExtends(h: Measurements, ms: Measurements, before: int, m: Measurement, now: int)
    requires Tracked(h, ms, before) && before <= now
    requires m.timestamp == now && 0.0 <= m.distance <= 1.0 && m.weight > 0.0
    ensures SortedByTime(ms + [m])
    ensures Tracked(h + [m], Newest(Young(ms + [m], now - MAX_MEASUREMENT_AGE)), now)
  {
    WindowExtends(h, before - MAX_MEASUREMENT_AGE, m, now - MAX_MEASUREMENT_AGE);
    var i := WindowIsSuffix(h, before - MAX_MEASUREMENT_AGE);
    assert forall j | 0 <= j < |ms| :: ms[j] == h[i + j];
  }

  lemma CollectKeepsTracked(h: Measurements, ms: Measurements, before: int, now: int)
    requires Tracked(h, ms, before) && before <= now
    ensures SortedByTime(ms) && Tracked(h, Young(ms, now - MAX_MEASUREMENT_AGE), now)
  {
    WindowOfWindow(h, before - MAX_MEASUREMENT_AGE, now - MAX_MEASUREMENT_AGE);
    TrackedIsPlausible(h, ms, before);
  }

  /** Every list holds its window. */
  ghost predicate AllTracked(hs: seq<Measurements>, lists: seq<Measurements>, time: int) {
    && |hs| == |lists|
    && forall i | 0 <= i < |hs| :: Tracked(hs[i], lists[i], time)
  }

  lemma AllTrackedPlausible(hs: seq<Measurements>, lists: seq<Measurements>, time: int)
    requires AllTracked(hs, lists, time)
    ensures AllPlausible(lists)
  {
    forall i | 0 <= i < |lists|
      ensures Plausible(lists[i])
    {
      TrackedIsPlausible(hs[i], lists[i], time);
    }
  }

  /** One measurement was added to each list. */
  ghost predicate EachExtended(before: seq<Measurements>, after: seq<Measurements>, ms: Measurements) {
    && |before| == |after| == |ms|
    && forall i | 0 <= i < |ms| :: after[i] == before[i] + [ms[i]]
  }

  lemma OneMoreTracked(hs: seq<Measurements>, lists: seq<Measurements>, i: nat, time: int)
    requires i < |hs| == |lists| && AllTracked(hs[..i], lists[..i], time) && Tracked(hs[i], lists[i], time)
    ensures AllTracked(hs[..i + 1], lists[..i + 1], time)
  {
  }

  lemma OneMoreExtended(before: seq<Measurements>, after: seq<Measurements>, ms: Measurements, i: nat)
    requires i < |before| == |after| == |ms| && EachExtended(before[..i], after[..i], ms[..i])
    requires after[i] == before[i] + [ms[i]]
    ensures EachExtended(before[..i + 1], after[..i + 1], ms[..i + 1])
  {
  }

  /** Each list lost exactly what is not young. */
  ghost predicate EachYoung(before: seq<Measurements>, after: seq<Measurements>, cutoff: int) {
    && |before| == |after|
    && forall i | 0 <= i < |after| :: after[i] == Young(before[i], cutoff)
  }

  lemma OneMoreYoung(before: seq<Measurements>, after: seq<Measurements>, i: nat, cutoff: int)
    requires i < |before| == |after| && EachYoung(before[..i], after[..i], cutoff)
    requires after[i] == Young(before[i], cutoff)
    ensures EachYoung(before[..i + 1], after[..i + 1], cutoff)
  {
  }

  lemma CollectKeepsAllTracked(
      hs: seq<Measurements>, before: seq<Measurements>, after: seq<Measurements>, clock: int, now: int)
    requires AllTracked(hs, before, clock) && clock <= now
    requires EachYoung(before, after, now - MAX_MEASUREMENT_AGE)
    ensures AllTracked(hs, after, now)
  {
    forall i | 0 <= i < |hs|
      ensures Tracked(hs[i], after[i], now)
    {
      CollectKeepsTracked(hs[i], before[i], clock, now);
    }
  }

  class Estimator {
    const bucketSize: nat
    const localId: Key
    const hash: PeerId -> Key
    /** A list for each of the bucketSize closest ranks. */
    var measurements: seq<Measurements>
    var netSizeCache: int
    /** The platform's square root, and its integer for a float that is not a number. */
    const sqrt: real -> real
    const notANumber: int
    /** All measurements ever made, and the last time that lists were trimmed. */
    ghost var history: seq<Measurements>
    ghost var clock: int
    /** The windows behind the latest estimate, and their time. */
    ghost var fitted: seq<Measurements>
    ghost var fittedAt: int

    /** The estimate is that of the windows of all measurements made, at some time since the latest. */
    ghost predicate Estimates(r: Estimate)
      reads this`history, this`clock, this`fitted, this`fittedAt
    {
      fittedAt <= clock && AllTracked(history, fitted, fittedAt) && IsEstimate(fitted, sqrt, notANumber, r)
    }

    ghost predicate Valid()
      reads this
    {
      && IsSqrt(sqrt)
      && |measurements| == bucketSize && AllTracked(history, measurements, clock)
      && (netSizeCache != INVALID_ESTIMATE ==> Estimates(Size(netSizeCache)))
    }

    constructor (bucketSize: nat, localId: Key, hash: PeerId -> Key, sqrt: real -> real, notANumber: int, now: int)
      requires IsSqrt(sqrt)
      ensures Valid() && netSizeCache == INVALID_ESTIMATE
      ensures this.bucketSize == bucketSize && this.localId == localId && this.hash == hash
      ensures forall i | 0 <= i < bucketSize :: history[i] == []
    {
      this.bucketSize, this.localId, this.hash := bucketSize, localId, hash;
      this.sqrt, this.notANumber := sqrt, notANumber;
      measurements := seq(bucketSize, _ => []);
      netSizeCache := INVALID_ESTIMATE;
      history := seq(bucketSize, _ => []);
      clock := now;
      fitted, fittedAt := [], now;
    }

    function Ids(peers: seq<PeerId>): seq<Key> {
      seq(|peers|, i requires 0 <= i < |peers| => hash(peers[i]))
    }

    /** The measurements that the peers found for a key give, one for each rank. */
    ghost function MeasurementsFor(key: Key, peers: seq<PeerId>, bucketLevel: nat, now: int): (ms: Measurements)
      ensures |ms| == |peers|
    {
      var weight := WeightFor(bucketSize, localId, key, Ids(peers), bucketLevel);
      seq(|peers|, i requires 0 <= i < |peers| => Measurement(NormedDistance(hash(peers[i]), key), weight, now))
    }

    /** Incorporates the peers found for a key, given how many peers its bucket holds. */
    method Track(key: Key, peers: seq<PeerId>, bucketLevel: nat, now: int) returns (ok: bool)
      requires Valid() && clock <= now
      modifies this
      ensures Valid()
      ensures ok <==> |peers| == bucketSize
      ensures !ok ==> unchanged(this)
      ensures ok ==> netSizeCache == INVALID_ESTIMATE && clock == now
      ensures ok ==> EachExtended(old(history), history, MeasurementsFor(key, peers, bucketLevel, now))
    {
      if |peers| != bucketSize {
        return false;
      }
      netSizeCache := INVALID_ESTIMATE;
      var weight := CalcWeight(bucketSize, localId, key, Ids(peers), bucketLevel);
      ghost var ms := MeasurementsFor(key, peers, bucketLevel, now);
      for i := 0 to |peers|
        modifies this`measurements, this`history
        invariant |history| == |measurements| == bucketSize
        invariant AllTracked(history[..i], measurements[..i], now)
        invariant EachExtended(old(history)[..i], history[..i], ms[..i])
        invariant history[i..] == old(history)[i..] && measurements[i..] == old(measurements)[i..]
      {
        NormedDistanceRange(hash(peers[i]), key);
        TrackOne(i, Measurement(NormedDistance(hash(peers[i]), key), weight, now), now);
        OneMoreTracked(history, measurements, i, now);
        OneMoreExtended(old(history), history, ms, i);
      }
      clock := now;
      assert history[..|peers|] == history && measurements[..|peers|] == measurements;
      assert old(history)[..|peers|] == old(history) && ms[..|peers|] == ms;
      return true;
    }

    method TrackOne(i: nat, m: Measurement, now: int)
      requires i < |measurements| == |history| && clock <= now
      requires Tracked(history[i], measurements[i], clock)
      requires m.timestamp == now && 0.0 <= m.distance <= 1.0 && m.weight > 0.0
      modifies this`measurements, this`history
      ensures |measurements| == |history| == old(|history|)
      ensures history[i] == old(history[i]) + [m] && Tracked(history[i], measurements[i], now)
      ensures history[..i] == old(history[..i]) && measurements[..i] == old(measurements[..i])
      ensures history[i + 1..] == old(history[i + 1..]) && measurements[i + 1..] == old(measurements[i + 1..])
    {
      TrackExtends(history[i], measurements[i], clock, m, now);
      var kept := Trim(measurements[i] + [m], now - MAX_MEASUREMENT_AGE);
      measurements := measurements[i := kept];
      history := history[i := history[i] + [m]];
    }

    /** Drops what fell out of the time window. */
    method GarbageCollect(now: int)
      requires Valid() && clock <= now
      modifies this`measurements, this`clock
      ensures Valid() && clock == now && |measurements| == bucketSize
      ensures EachYoung(old(measurements), measurements, now - MAX_MEASUREMENT_AGE)
    {
      for i := 0 to bucketSize
        modifies this`measurements
        invariant |measurements| == bucketSize
        invariant EachYoung(old(measurements)[..i], measurements[..i], now - MAX_MEASUREMENT_AGE)
        invariant measurements[i..] == old(measurements)[i..]
      {
        TrackedIsPlausible(history[i], measurements[i], clock);
        CollectOne(i, now - MAX_MEASUREMENT_AGE);
        OneMoreYoung(old(measurements), measurements, i, now - MAX_MEASUREMENT_AGE);
      }
      assert measurements[..bucketSize] == measurements && old(measurements)[..bucketSize] == old(measurements);
      CollectKeepsAllTracked(history, old(measurements), measurements, clock, now);
      clock := now;
    }

    method CollectOne(i: nat, cutoff: int)
      requires i < |measurements| && SortedByTime(measurements[i])
      modifies this`measurements
      ensures |measurements| == old(|measurements|) && measurements[i] == Young(old(measurements)[i], cutoff)
      ensures measurements[..i] == old(measurements)[..i] && measurements[i + 1..] == old(measurements)[i + 1..]
    {
      var idx := SearchYoung(measurements[i], cutoff);
      YoungIsSuffix(measurements[i], cutoff, idx);
      if idx == |measurements[i]| {
        measurements := measurements[i := []];
      } else if idx != 0 {
        measurements := measurements[i := measurements[i][idx..]];
      }
    }

    /** The estimate, computed if there is none cached. Either way it is that of the windows of all
        measurements made, and it fits their points. */
    method NetworkSize(now: int) returns (r: Estimate, ghost points: seq<Point>)
      requires Valid() && clock <= now
      modifies this`measurements, this`clock, this`netSizeCache, this`fitted, this`fittedAt
      ensures Valid() && Estimates(r)
      ensures old(netSizeCache) != INVALID_ESTIMATE ==> r == Size(old(netSizeCache)) && unchanged(this)
      ensures old(netSizeCache) == INVALID_ESTIMATE ==> fittedAt == clock == now && fitted == measurements
      ensures netSizeCache == if r.Size? then r.size else INVALID_ESTIMATE
      ensures SizeFits(fitted, points, notANumber, r)
    {
      if netSizeCache != INVALID_ESTIMATE {
        r := Size(netSizeCache);
      } else {
        r := Renew(now);
      }
      points := EstimateFits(fitted, sqrt, notANumber, r);
    }

    /** Compute the estimate and cache it. */
    method Renew(now: int) returns (r: Estimate)
      requires Valid() && clock <= now && netSizeCache == INVALID_ESTIMATE
      modifies this`measurements, this`clock, this`netSizeCache, this`fitted, this`fittedAt
      ensures Valid() && Estimates(r) && fittedAt == clock == now && fitted == measurements
      ensures netSizeCache == if r.Size? then r.size else INVALID_ESTIMATE
    {
      GarbageCollect(now);
      r := Fresh(now);
      if r.Size? {
        netSizeCache := r.size;
      }
    }

    /** The estimate of the lists as they are. */
    method Fresh(ghost now: int) returns (r: Estimate)
      requires Valid() && netSizeCache == INVALID_ESTIMATE && clock == now
      modifies this`fitted, this`fittedAt
      ensures Valid() && Estimates(r) && fittedAt == now && fitted == measurements
    {
      AllTrackedPlausible(history, measurements, clock);
      fitted, fittedAt := measurements, now;
      var ps := Measure(measurements, sqrt);
      if ps.None? {
        return NotEnoughData;
      }
      var xy, xx := Fit(ps.value);
      SumsOfPoints(measurements, sqrt);
      return Size(SizeOf(xy, xx, notANumber));
    }
  }

  /** The measurement of a rank: the distance of the peer found there as a share of the largest one, with the
      weight of the key's bucket, at the time of the tracking. */
  lemma MeasurementMeans(e: Estimator, key: Key, peers: seq<PeerId>, bucketLevel: nat, now: int, i: nat)
    requires i < |peers|
    ensures var m := e.MeasurementsFor(key, peers, bucketLevel, now)[i];
            && m.distance * (Pow2(KEY_BITS) - 1) as real == Distance(e.hash(peers[i]), key) as real
            && m.weight == WeightFor(e.bucketSize, e.localId, key, e.Ids(peers), bucketLevel)
            && m.timestamp == now
  {
    NormedDistanceScales(e.hash(peers[i]), key);
  }

  // ---------- The same peers again and again ----------

  /** A history of n measurements, all at one distance and none before a time. */
  ghost predicate Repeats(h: Measurements, d: real, n: nat, start: int) {
    |h| == n && AllAt(h, d) && forall j | 0 <= j < n :: h[j].timestamp >= start
  }

  /** The histories after each of some lookups that found the same peers for the same key, beginning
      with a new estimator. */
  ghost predicate SamePeersFound(e: Estimator, histories: seq<seq<Measurements>>, key: Key, peers: seq<PeerId>,
                                 levels: seq<nat>, times: seq<int>)
  {
    && |histories| == |times| + 1 && |levels| == |times|
    && |histories[0]| == |peers| && (forall i | 0 <= i < |peers| :: histories[0][i] == [])
    && forall k | 0 <= k < |times| :: FoundAgain(e, histories[k], histories[k + 1], key, peers, levels[k], times, k)
  }

  ghost predicate FoundAgain(e: Estimator, before: seq<Measurements>, after: seq<Measurements>,
                             key: Key, peers: seq<PeerId>, level: nat, times: seq<int>, k: nat)
    requires k < |times|
  {
    times[0] <= times[k] && EachExtended(before, after, e.MeasurementsFor(key, peers, level, times[k]))
  }

  lemma {:induction false} SamePeersRepeat(
      e: Estimator, histories: seq<seq<Measurements>>, key: Key, peers: seq<PeerId>, levels: seq<nat>, times: seq<int>,
      n: nat)
    requires SamePeersFound(e, histories, key, peers, levels, times) && n <= |times| && times != []
    ensures |histories[n]| == |peers|
    ensures forall i | 0 <= i < |peers| ::
              Repeats(histories[n][i], NormedDistance(e.hash(peers[i]), key), n, times[0])
  {
    if n > 0 {
      SamePeersRepeat(e, histories, key, peers, levels, times, n - 1);
      assert FoundAgain(e, histories[n - 1], histories[n], key, peers, levels[n - 1], times, n - 1);
      var ms := e.MeasurementsFor(key, peers, levels[n - 1], times[n - 1]);
      forall i | 0 <= i < |peers|
        ensures Repeats(histories[n][i], NormedDistance(e.hash(peers[i]), key), n, times[0])
      {
        RepeatOnce(histories[n - 1][i], ms[i], n - 1, times[0]);
      }
    }
  }

  lemma RepeatOnce(h: Measurements, m: Measurement, n: nat, start: int)
    requires Repeats(h, m.distance, n, start) && m.timestamp >= start
    ensures Repeats(h + [m], m.distance, n + 1, start)
  {
  }

  lemma RepeatedWindow(h: Measurements, ms: Measurements, time: int, d: real, n: nat, start: int)
    requires Tracked(h, ms, time) && Repeats(h, d, n, start)
    requires n >= MIN_MEASUREMENTS_THRESHOLD && time - start < MAX_MEASUREMENT_AGE
    ensures |ms| >= MIN_MEASUREMENTS_THRESHOLD && Uniform(ms)
  {
    YoungIsSuffix(h, time - MAX_MEASUREMENT_AGE, 0);
    assert h[0..] == h;
    assert AllAt(ms, d);
  }

  /** Once the same peers were found for the same key five times within the age of a measurement, and nothing
      else, all windows are uniform: there is data enough for an estimate, but it has no slope. */
  lemma SamePeersGiveNoSlope(
      e: Estimator, histories: seq<seq<Measurements>>, key: Key, peers: seq<PeerId>, levels: seq<nat>, times: seq<int>,
      windows: seq<Measurements>, time: int, r: Estimate)
    requires SamePeersFound(e, histories, key, peers, levels, times)
    requires |times| >= MIN_MEASUREMENTS_THRESHOLD && time - times[0] < MAX_MEASUREMENT_AGE
    requires AllTracked(histories[|times|], windows, time) && IsEstimate(windows, e.sqrt, e.notANumber, r)
    ensures Sufficient(windows) && AllUniform(windows) && r == Size(e.notANumber)
  {
    SamePeersRepeat(e, histories, key, peers, levels, times, |times|);
    forall i | 0 <= i < |windows|
      ensures |windows[i]| >= MIN_MEASUREMENTS_THRESHOLD && Uniform(windows[i])
    {
      var h, d := histories[|times|][i], NormedDistance(e.hash(peers[i]), key);
      RepeatedWindow(h, windows[i], time, d, |times|, times[0]);
    }
    EstimateMeans(windows, e.sqrt, e.notANumber, r);
  }
}
