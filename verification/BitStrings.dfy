/** Bit strings and the numbers they spell, most significant bit first. */
module BitStrings {

  function Value(bits: seq<bool>): nat {
    if bits == [] then 0
    else 2 * Value(bits[..|bits| - 1]) + (if bits[|bits| - 1] then 1 else 0)
  }

  function Pow2(n: nat): (r: nat)
    ensures r > 0
  {
    if n == 0 then 1 else 2 * Pow2(n - 1)
  }

  /** The n low bits of x. */
  function Bits(x: nat, n: nat): (r: seq<bool>)
    ensures |r| == n
  {
    if n == 0 then [] else Bits(x / 2, n - 1) + [x % 2 == 1]
  }

  /** The j-th of the n low bits of x, counted from the most significant one. */
  lemma {:induction false} BitsAt(x: nat, n: nat, j: nat)
    requires j < n
    ensures Bits(x, n)[j] <==> x / Pow2(n - 1 - j) % 2 == 1
  {
    if j < n - 1 {
      BitsAt(x / 2, n - 1, j);
      HalfQuotient(x, Pow2(n - 2 - j));
    }
  }

  lemma HalfQuotient(x: nat, k: nat)
    requires k > 0
    ensures x / 2 / k == x / (2 * k)
  {
    var q := x / 2 / k;
    QuotientBounds(x / 2, k);
    assert 2 * k * q == 2 * (k * q);
    QuotientUnique(x, 2 * k, q);
  }

  lemma QuotientUnique(x: nat, k: nat, q: nat)
    requires k > 0 && k * q <= x < k * q + k
    ensures x / k == q
  {
    var d := x / k;
    assert x == k * d + x % k;
    if q < d {
      ProductOrdered(k, q + 1, d);
    } else if d < q {
      ProductOrdered(k, d + 1, q);
    }
  }

  lemma ProductOrdered(k: nat, a: nat, b: nat)
    requires a <= b
    ensures k * a <= k * b
  {
    assert k * (b - a) >= 0;
  }

  lemma QuotientBounds(x: nat, k: nat)
    requires k > 0
    ensures k * (x / k) <= x < k * (x / k) + k
  {
  }

  lemma {:induction false} ValueInjective(a: seq<bool>, b: seq<bool>)
    requires |a| == |b| && Value(a) == Value(b)
    ensures a == b
  {
    if a != [] {
      var n := |a| - 1;
      ValueInjective(a[..n], b[..n]);
      assert a == a[..n] + [a[n]] && b == b[..n] + [b[n]];
    }
  }

  lemma {:induction false} ValueBounded(bits: seq<bool>)
    ensures Value(bits) < Pow2(|bits|)
  {
    if bits != [] {
      ValueBounded(bits[..|bits| - 1]);
    }
  }

  /** The first one bit tells the size of a number to within a factor of two. */
  lemma {:induction false} LeadingOne(bits: seq<bool>, n: nat)
    requires n < |bits| && bits[n] && forall i | 0 <= i < n :: !bits[i]
    ensures Pow2(|bits| - 1 - n) <= Value(bits) < Pow2(|bits| - n)
  {
    var last := |bits| - 1;
    if n == last {
      AllZeros(bits[..last]);
      assert Pow2(1) == 2 * Pow2(0);
    } else {
      LeadingOne(bits[..last], n);
    }
  }

  lemma {:induction false} AllZeros(bits: seq<bool>)
    requires forall i | 0 <= i < |bits| :: !bits[i]
    ensures Value(bits) == 0
  {
    if bits != [] {
      AllZeros(bits[..|bits| - 1]);
    }
  }

  /** Spelling a number that fits and reading it back gives the number. */
  lemma {:induction false} ValueOfBits(x: nat, n: nat)
    requires x < Pow2(n)
    ensures Value(Bits(x, n)) == x
  {
    if n > 0 {
      ValueOfBits(x / 2, n - 1);
      assert Bits(x, n)[..n - 1] == Bits(x / 2, n - 1);
    }
  }

  /** Reading a bit string and spelling its value gives the bit string. */
  lemma BitsOfValue(bits: seq<bool>)
    ensures Bits(Value(bits), |bits|) == bits
  {
    ValueBounded(bits);
    ValueOfBits(Value(bits), |bits|);
    ValueInjective(Bits(Value(bits), |bits|), bits);
  }
}
