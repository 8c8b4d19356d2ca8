/** The measurements behind the network size estimate: distances as fractions of the key space,
    weights, and the sliding window that is kept of them. Floats are modelled as reals. */
module MeasurementWindow {
  import opened Base
  import opened BitStrings
  import opened KeySpace

  const MAX_MEASUREMENT_AGE: int := 2 * 3600 * 1_000_000_000
  const MIN_MEASUREMENTS_THRESHOLD: nat := 5
  const MAX_MEASUREMENTS_THRESHOLD: nat := 150

  datatype Measurement = Measurement(distance: real, weight: real, timestamp: int)

  type Measurements = seq<Measurement>

  // ---------- Distances ----------

  /** The distance of two keys as a fraction of the largest one. */
  function NormedDistance(a: Key, b: Key): real {
    assert Pow2(KEY_BITS) == 2 * Pow2(KEY_BITS - 1) >= 2;
    Distance(a, b) as real / (Pow2(KEY_BITS) - 1) as real
  }

  lemma NormedDistanceRange(a: Key, b: Key)
    ensures 0.0 <= NormedDistance(a, b) <= 1.0
    ensures NormedDistance(a, b) == 0.0 <==> a == b
  {
    DistanceRange(a, b);
    assert Pow2(KEY_BITS) == 2 * Pow2(KEY_BITS - 1) >= 2;
    FractionRange(Distance(a, b) as real, (Pow2(KEY_BITS) - 1) as real);
  }

  lemma QuotientTimes(a: real, b: real)
    requires b > 0.0
    ensures a / b * b == a
  {
  }

  /** It is the share of the distance in the largest one. */
  lemma NormedDistanceScales(a: Key, b: Key)
    ensures NormedDistance(a, b) * (Pow2(KEY_BITS) - 1) as real == Distance(a, b) as real
  {
    assert Pow2(KEY_BITS) == 2 * Pow2(KEY_BITS - 1) >= 2;
    QuotientTimes(Distance(a, b) as real, (Pow2(KEY_BITS) - 1) as real);
  }

  lemma FractionRange(a: real, b: real)
    requires 0.0 <= a <= b && b > 0.0
    ensures 0.0 <= a / b <= 1.0
    ensures a / b == 0.0 <==> a == 0.0
  {
  }

  // ---------- Weights ----------

  /** Two to an integer power. */
  function Power(e: int): (r: real)
    ensures r > 0.0
    ensures e <= 0 ==> r <= 1.0
    decreases if e < 0 then -e else e
  {
    if e == 0 then 1.0 else if e > 0 then 2.0 * Power(e - 1) else Power(e + 1) / 2.0
  }

  lemma PowerDoubles(e: int)
    ensures Power(e + 1) == 2.0 * Power(e) && Power(0) == 1.0
  {
  }

  /** The common prefix lengths of keys with a local one. */
  function PrefixLens(local: Key, ids: seq<Key>): seq<nat> {
    seq(|ids|, i requires 0 <= i < |ids| => CommonPrefixLen(ids[i], local))
  }

  /** A bucket counts as holding as many peers as were found for it, if it is not full and
      that is more than it has. */
  function EffectiveLevel(bucketSize: nat, bucketLevel: nat, found: nat): nat {
    if bucketLevel < bucketSize && found > bucketLevel then found else bucketLevel
  }

  /** The weight of the measurements for a key: one if its bucket is full, and half as much for
      each peer the bucket misses. */
  ghost function WeightFor(bucketSize: nat, local: Key, key: Key, peers: seq<Key>, bucketLevel: nat): real {
    var found := multiset(PrefixLens(local, peers))[CommonPrefixLen(key, local)];
    Power(EffectiveLevel(bucketSize, bucketLevel, found) - bucketSize)
  }

  method CalcWeight(bucketSize: nat, local: Key, key: Key, peers: seq<Key>, bucketLevel: nat) returns (weight: real)
    ensures weight == WeightFor(bucketSize, local, key, peers, bucketLevel)
  {
    var cpl := CommonPrefixLen(key, local);
    ghost var cpls := PrefixLens(local, peers);
    if bucketLevel < bucketSize {
      var peerLevel := 0;
      for i := 0 to |peers|
        invariant peerLevel == multiset(cpls[..i])[cpl]
      {
        assert cpls[..i + 1] == cpls[..i] + [cpls[i]];
        if cpl == CommonPrefixLen(peers[i], local) {
          peerLevel := peerLevel + 1;
        }
      }
      assert cpls[..|peers|] == cpls;
      if peerLevel > bucketLevel {
        return Power(peerLevel - bucketSize);
      }
    }
    return Power(bucketLevel - bucketSize);
  }

  /** The peers that share as many leading bits with the local key as the looked-up key does. */
  function InBucket(local: Key, key: Key, peers: seq<Key>): set<nat> {
    set i: nat | i < |peers| && CommonPrefixLen(peers[i], local) == CommonPrefixLen(key, local)
  }

  lemma InBucketMore(local: Key, key: Key, peers: seq<Key>)
    requires peers != []
    ensures var n := |peers| - 1;
            var more := if CommonPrefixLen(peers[n], local) == CommonPrefixLen(key, local) then {n} else {};
            InBucket(local, key, peers) == InBucket(local, key, peers[..n]) + more
  {
  }

  lemma PrefixLensMore(local: Key, peers: seq<Key>)
    requires peers != []
    ensures var n := |peers| - 1;
            PrefixLens(local, peers) == PrefixLens(local, peers[..n]) + [CommonPrefixLen(peers[n], local)]
  {
  }

  lemma {:induction false} CountInBucket(local: Key, key: Key, peers: seq<Key>)
    ensures multiset(PrefixLens(local, peers))[CommonPrefixLen(key, local)] == |InBucket(local, key, peers)|
  {
    if peers != [] {
      var n := |peers| - 1;
      CountInBucket(local, key, peers[..n]);
      PrefixLensMore(local, peers);
      InBucketMore(local, key, peers);
      assert n !in InBucket(local, key, peers[..n]);
    }
  }

  /** The weight is two to the power of what the bucket has less the bucket size; what a bucket that is not
      full has is raised to the number of peers found for it. */
  lemma WeightIs(bucketSize: nat, local: Key, key: Key, peers: seq<Key>, bucketLevel: nat)
    ensures var weight, found := WeightFor(bucketSize, local, key, peers, bucketLevel), |InBucket(local, key, peers)|;
            var level := if bucketLevel < bucketSize && found > bucketLevel then found else bucketLevel;
            weight == Power(level - bucketSize)
  {
    CountInBucket(local, key, peers);
  }

  /** For a bucket of at most the bucket size and as many peers, a weight is in (0, 1], and one
      only if the bucket counts as full. */
  lemma WeightRange(bucketSize: nat, bucketLevel: nat, cpls: seq<nat>, cpl: nat)
    requires bucketLevel <= bucketSize && |cpls| <= bucketSize
    ensures var level := EffectiveLevel(bucketSize, bucketLevel, multiset(cpls)[cpl]);
            0.0 < Power(level - bucketSize) <= 1.0 && (Power(level - bucketSize) == 1.0 <==> level == bucketSize)
  {
  }

  // ---------- The window ----------

  ghost predicate SortedByTime(ms: Measurements) {
    forall i, j | 0 <= i < j < |ms| :: ms[i].timestamp <= ms[j].timestamp
  }

  /** The measurements after a point in time. */
  ghost function Young(ms: Measurements, cutoff: int): Measurements {
    if ms == [] then []
    else
      var n := |ms| - 1;
      Young(ms[..n], cutoff) + (if ms[n].timestamp > cutoff then [ms[n]] else [])
  }

  /** The last measurements, up to the most that are kept. */
  ghost function Newest(ms: Measurements): (r: Measurements)
    ensures |r| <= MAX_MEASUREMENTS_THRESHOLD
  {
    if |ms| > MAX_MEASUREMENTS_THRESHOLD then ms[|ms| - MAX_MEASUREMENTS_THRESHOLD..] else ms
  }

  /** Where the young part of a sorted list begins. */
  ghost predicate YoungFrom(ms: Measurements, cutoff: int, index: nat) {
    && index <= |ms|
    && (forall j | 0 <= j < index :: ms[j].timestamp <= cutoff)
    && (forall j | index <= j < |ms| :: ms[j].timestamp > cutoff)
  }

  lemma {:induction false} YoungIsSuffix(ms: Measurements, cutoff: int, i: nat)
    requires YoungFrom(ms, cutoff, i)
    ensures Young(ms, cutoff) == ms[i..]
  {
    if ms != [] {
      var n := |ms| - 1;
      if i <= n {
        YoungIsSuffix(ms[..n], cutoff, i);
        assert ms[i..] == ms[..n][i..] + [ms[n]];
      } else {
        YoungIsSuffix(ms[..n], cutoff, n);
        assert ms[i..] == [];
      }
    }
  }

  /** Binary search for the first young measurement. */
  method SearchYoung(ms: Measurements, cutoff: int) returns (index: nat)
    requires SortedByTime(ms)
    ensures YoungFrom(ms, cutoff, index)
  {
    var i, j := 0, |ms|;
    while i < j
      invariant 0 <= i <= j <= |ms|
      invariant forall k | 0 <= k < i :: ms[k].timestamp <= cutoff
      invariant forall k | j <= k < |ms| :: ms[k].timestamp > cutoff
    {
      var h := (i + j) / 2;
      if ms[h].timestamp > cutoff {
        j := h;
      } else {
        i := h + 1;
      }
    }
    return i;
  }

  lemma {:induction false} YoungStart(ms: Measurements, cutoff: int) returns (i: nat)
    requires SortedByTime(ms)
    ensures YoungFrom(ms, cutoff, i)
  {
    i := 0;
    while i < |ms| && ms[i].timestamp <= cutoff
      invariant i <= |ms|
      invariant forall j | 0 <= j < i :: ms[j].timestamp <= cutoff
    {
      i := i + 1;
    }
  }

  /** What the window method keeps of a list with a new measurement at its end. */
  method Trim(ms: Measurements, cutoff: int) returns (kept: Measurements)
    requires SortedByTime(ms)
    ensures kept == Newest(Young(ms, cutoff))
  {
    var idx := SearchYoung(ms, cutoff);
    YoungIsSuffix(ms, cutoff, idx);
    kept := ms;
    if idx != 0 {
      kept := ms[idx..];
    }
    if |kept| > MAX_MEASUREMENTS_THRESHOLD {
      kept := kept[|kept| - MAX_MEASUREMENTS_THRESHOLD..];
    }
  }

  /** Dropping old measurements and then older ones still is dropping the older ones, and the
      newest of what remains are the newest overall. */
  lemma WindowOfWindow(h: Measurements, before: int, cutoff: int)
    requires SortedByTime(h) && before <= cutoff
    ensures Young(Newest(Young(h, before)), cutoff) == Newest(Young(h, cutoff))
  {
    var i := YoungStart(h, before);
    var j := YoungStart(h, cutoff);
    YoungIsSuffix(h, before, i);
    YoungIsSuffix(h, cutoff, j);
    assert j < |h| ==> h[j].timestamp > cutoff;
    var first := if |h| - i > MAX_MEASUREMENTS_THRESHOLD then |h| - MAX_MEASUREMENTS_THRESHOLD else i;
    assert Newest(h[i..]) == h[first..];
    SuffixYoung(h, cutoff, j, first);
  }

  lemma SuffixYoung(h: Measurements, cutoff: int, j: nat, first: nat)
    requires YoungFrom(h, cutoff, j) && first <= |h|
    ensures Young(h[first..], cutoff) == if j < first then h[first..] else h[j..]
  {
    var w := h[first..];
    var k := if j < first then 0 else j - first;
    assert forall l | 0 <= l < |w| :: w[l] == h[first + l];
    YoungIsSuffix(w, cutoff, k);
    assert w[k..] == if j < first then h[first..] else h[j..];
  }

  /** Adding a measurement to the window and trimming it gives the window of the whole history. */
  lemma WindowExtends(h: Measurements, before: int, m: Measurement, cutoff: int)
    requires SortedByTime(h + [m]) && before <= cutoff
    ensures Newest(Young(Newest(Young(h, before)) + [m], cutoff)) == Newest(Young(h + [m], cutoff))
  {
    assert SortedByTime(h) by {
      assert forall i | 0 <= i < |h| :: (h + [m])[i] == h[i];
    }
    var w := Newest(Young(h, before));
    WindowOfWindow(h, before, cutoff);
    assert (w + [m])[..|w|] == w && (h + [m])[..|h|] == h;
    var last := if m.timestamp > cutoff then [m] else [];
    assert Young(w + [m], cutoff) == Newest(Young(h, cutoff)) + last;
    assert Young(h + [m], cutoff) == Young(h, cutoff) + last;
    NewestOfMore(Young(h, cutoff), last);
  }

  lemma NewestOfMore(ms: Measurements, more: Measurements)
    ensures Newest(Newest(ms) + more) == Newest(ms + more)
  {
  }

  /** A window is part of its history. */
  lemma WindowIsSuffix(h: Measurements, cutoff: int) returns (i: nat)
    requires SortedByTime(h)
    ensures i <= |h| && Newest(Young(h, cutoff)) == h[i..]
  {
    i := WindowIsLongest(h, cutoff);
  }

  /** It is the longest end of the history that is young and no longer than what is kept. */
  lemma WindowIsLongest(h: Measurements, cutoff: int) returns (i: nat)
    requires SortedByTime(h)
    ensures i <= |h| && Newest(Young(h, cutoff)) == h[i..]
    ensures |h| - i <= MAX_MEASUREMENTS_THRESHOLD && forall j | i <= j < |h| :: h[j].timestamp > cutoff
    ensures i > 0 && |h| - i < MAX_MEASUREMENTS_THRESHOLD ==> h[i - 1].timestamp <= cutoff
  {
    i := YoungStart(h, cutoff);
    YoungIsSuffix(h, cutoff, i);
    if |h| - i > MAX_MEASUREMENTS_THRESHOLD {
      i := |h| - MAX_MEASUREMENTS_THRESHOLD;
    }
  }
}
