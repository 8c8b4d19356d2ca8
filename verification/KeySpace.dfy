/** The XOR key space in which a lookup orders its peers. */
module KeySpace {
  import opened Base
  import opened BitStrings

  const KEY_BITS := 256

  /** A point of the key space, most significant bit first. */
  type Key = k: seq<bool> | |k| == KEY_BITS witness seq(KEY_BITS, _ => false)

  function Xor(a: seq<bool>, b: seq<bool>): (r: seq<bool>)
    requires |a| == |b|
  {
    seq(|a|, i requires 0 <= i < |a| => a[i] != b[i])
  }

  function Distance(a: Key, b: Key): nat {
    Value(Xor(a, b))
  }

  /** Two keys at the same distance from a target are the same key. */
  lemma DistanceInjective(a: Key, b: Key, target: Key)
    requires Distance(a, target) == Distance(b, target)
    ensures a == b
  {
    ValueInjective(Xor(a, target), Xor(b, target));
    forall i | 0 <= i < KEY_BITS
      ensures a[i] == b[i]
    {
      assert Xor(a, target)[i] == Xor(b, target)[i];
    }
  }

  /** Only the target itself is at distance zero, and no distance exceeds the all-ones key. */
  lemma DistanceRange(a: Key, target: Key)
    ensures Distance(a, target) == 0 <==> a == target
    ensures 0 <= Distance(a, target) <= Pow2(KEY_BITS) - 1
  {
    var x := Xor(a, target);
    ValueBounded(x);
    DistanceSelf(target);
    if Distance(a, target) == 0 {
      DistanceInjective(a, target, target);
    }
  }

  lemma DistanceSelf(a: Key)
    ensures Distance(a, a) == 0
  {
    AllZeros(Xor(a, a));
  }

  /** The number of leading bits two keys share. */
  function CommonPrefixLen(a: seq<bool>, b: seq<bool>): nat
    requires |a| == |b|
  {
    if a == [] || a[0] != b[0] then 0 else 1 + CommonPrefixLen(a[1..], b[1..])
  }

  /** It is the first index at which the keys differ, or their length. */
  lemma {:induction false} PrefixEnds(a: seq<bool>, b: seq<bool>)
    requires |a| == |b|
    ensures var n := CommonPrefixLen(a, b);
            && n <= |a| && a[..n] == b[..n]
            && (n < |a| ==> a[n] != b[n])
  {
    if a != [] && a[0] == b[0] {
      PrefixEnds(a[1..], b[1..]);
      var n := CommonPrefixLen(a, b);
      assert a[..n] == [a[0]] + a[1..][..n - 1] && b[..n] == [b[0]] + b[1..][..n - 1];
    }
  }

  /** Keys are near each other as far as they share a prefix: each further bit halves the distance. */
  lemma PrefixBoundsDistance(a: Key, b: Key)
    requires a != b
    ensures var n := CommonPrefixLen(a, b);
            n < KEY_BITS && Pow2(KEY_BITS - 1 - n) <= Distance(a, b) < Pow2(KEY_BITS - n)
  {
    var n, x := CommonPrefixLen(a, b), Xor(a, b);
    PrefixEnds(a, b);
    assert a[..KEY_BITS] == a && b[..KEY_BITS] == b;
    assert n < KEY_BITS;
    forall i | 0 <= i < n
      ensures !x[i]
    {
      assert a[i] == a[..n][i] && b[i] == b[..n][i];
    }
    LeadingOne(x, n);
  }

  /** What a lookup knows about the key space: how far each peer is from its target, and
      the finite set of peers that exist. */
  datatype Space = Space(dist: PeerId -> nat, universe: set<PeerId>) {
    /** Distances tell the peers of the universe apart. */
    ghost predicate Valid() {
      forall p, q {:trigger dist(p), dist(q)} |
        p in universe && q in universe && dist(p) == dist(q) :: p == q
    }
  }

  /** The space of a target key under a hash of peer IDs into the key space. */
  function SpaceFor(hash: PeerId -> Key, target: Key, universe: set<PeerId>): Space {
    Space(p => Distance(hash(p), target), universe)
  }

  /** A collision-free hash makes all distances to a target distinct. */
  lemma SpaceForValid(hash: PeerId -> Key, target: Key, universe: set<PeerId>)
    requires forall p, q | p in universe && q in universe && hash(p) == hash(q) :: p == q
    ensures SpaceFor(hash, target, universe).Valid()
  {
    forall p, q | p in universe && q in universe && Distance(hash(p), target) == Distance(hash(q), target)
      ensures p == q
    {
      DistanceInjective(hash(p), hash(q), target);
    }
  }
}
