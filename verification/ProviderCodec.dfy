/** How provider records are written to the datastore: the name of a record, which tells the
    content key and the provider, and its value, which tells the time. */
module ProviderCodec {
  import opened Base
  import opened BitStrings

  type ContentKey = seq<byte>

  // ---------- Unpadded base32: section 6 of RFC 4648 without the padding ----------

  function Symbol(v: nat): char
    requires v < 32
  {
    if v < 26 then (v + 65) as char else (v + 24) as char
  }

  function SymbolValue(ch: char): Option<nat> {
    if 'A' <= ch <= 'Z' then Some(ch as int - 65)
    else if '2' <= ch <= '7' then Some(ch as int - 24)
    else None
  }

  function Zeros(n: nat): (r: seq<bool>)
    ensures |r| == n
  {
    seq(n, _ => false)
  }

  /** One symbol for each group of five bits, the last one filled up with zeros. */
  function EncodeBits(bits: seq<bool>): string {
    if bits == [] then ""
    else
      var group := if |bits| < 5 then bits + Zeros(5 - |bits|) else bits[..5];
      GroupFits(group);
      [Symbol(Value(group))] + (if |bits| <= 5 then "" else EncodeBits(bits[5..]))
  }

  lemma GroupFits(group: seq<bool>)
    requires |group| == 5
    ensures Value(group) < 32
  {
    ValueBounded(group);
    assert Pow2(5) == 32 by {
      assert Pow2(1) == 2 && Pow2(2) == 4 && Pow2(3) == 8;
    }
  }

  function DecodeBits(text: string): Option<seq<bool>> {
    if text == "" then Some([])
    else
      match (SymbolValue(text[0]), DecodeBits(text[1..]))
      case (Some(v), Some(rest)) => Some(Bits(v, 5) + rest)
      case _ => None
  }

  function ByteBits(data: seq<byte>): (r: seq<bool>)
    ensures |r| == 8 * |data|
  {
    if data == [] then [] else Bits(data[0] as nat, 8) + ByteBits(data[1..])
  }

  /** The whole bytes of a bit string; bits left over are dropped. */
  function BitsBytes(bits: seq<bool>): seq<byte> {
    if |bits| < 8 then []
    else
      OctetFits(bits[..8]);
      [Value(bits[..8]) as byte] + BitsBytes(bits[8..])
  }

  lemma OctetFits(octet: seq<bool>)
    requires |octet| == 8
    ensures Value(octet) < 256
    ensures Pow2(8) == 256
  {
    ValueBounded(octet);
    assert Pow2(8) == 256 by {
      assert Pow2(2) == 4 && Pow2(4) == 16 && Pow2(6) == 64;
    }
  }

  function Encode(data: seq<byte>): string {
    EncodeBits(ByteBits(data))
  }

  function Decode(text: string): Option<seq<byte>> {
    match DecodeBits(text)
    case Some(bits) => Some(BitsBytes(bits))
    case None => None
  }

  /** Decoding symbols gives the encoded bits back, followed by fewer than five others. */
  lemma {:induction false} DecodeEncodeBits(bits: seq<bool>)
    ensures DecodeBits(EncodeBits(bits)).Some?
    ensures var r := DecodeBits(EncodeBits(bits)).value;
            |bits| <= |r| < |bits| + 5 && r[..|bits|] == bits
  {
    if bits != [] {
      var group := if |bits| < 5 then bits + Zeros(5 - |bits|) else bits[..5];
      GroupFits(group);
      BitsOfValue(group);
      var text := EncodeBits(bits);
      assert SymbolValue(text[0]) == Some(Value(group));
      if |bits| <= 5 {
        assert text[1..] == "";
        assert DecodeBits(text) == Some(group + []);
      } else {
        DecodeEncodeBits(bits[5..]);
        assert text[1..] == EncodeBits(bits[5..]);
        var r := DecodeBits(text).value;
        assert r == group + DecodeBits(text[1..]).value;
        assert bits == bits[..5] + bits[5..];
      }
    }
  }

  lemma {:induction false} BitsBytesInverts(data: seq<byte>, rest: seq<bool>)
    requires |rest| < 8
    ensures BitsBytes(ByteBits(data) + rest) == data
  {
    if data != [] {
      var octet := Bits(data[0] as nat, 8);
      var bits := ByteBits(data) + rest;
      OctetFits(octet);
      ValueOfBits(data[0] as nat, 8);
      assert bits[..8] == octet && bits[8..] == ByteBits(data[1..]) + rest;
      BitsBytesInverts(data[1..], rest);
    }
  }

  /** Base32 decoding inverts encoding. */
  lemma DecodeEncode(data: seq<byte>)
    ensures Decode(Encode(data)) == Some(data)
  {
    var bits := ByteBits(data);
    DecodeEncodeBits(bits);
    var r := DecodeBits(EncodeBits(bits)).value;
    var rest := r[|bits|..];
    assert r == bits + rest;
    BitsBytesInverts(data, rest);
  }

  /** The k-th bit of some bytes, the most significant bit of each byte first. */
  predicate BitOf(data: seq<byte>, k: nat)
    requires k < 8 * |data|
  {
    data[k / 8] as nat / Pow2(7 - k % 8) % 2 == 1
  }

  lemma {:induction false} ByteBitsAt(data: seq<byte>, k: nat)
    requires k < 8 * |data|
    ensures ByteBits(data)[k] <==> BitOf(data, k)
  {
    if k < 8 {
      BitsAt(data[0] as nat, 8, k);
    } else {
      ByteBitsAt(data[1..], k - 8);
    }
  }

  /** The i-th group of five bits, filled up with zeros. */
  function GroupAt(bits: seq<bool>, i: nat): (r: seq<bool>)
    ensures |r| == 5
  {
    seq(5, j requires 0 <= j < 5 => 5 * i + j < |bits| && bits[5 * i + j])
  }

  lemma {:induction false} EncodeBitsAt(bits: seq<bool>, i: nat)
    requires 5 * i < |bits|
    ensures i < |EncodeBits(bits)| == (|bits| + 4) / 5
    ensures Value(GroupAt(bits, i)) < 32 && EncodeBits(bits)[i] == Symbol(Value(GroupAt(bits, i)))
    decreases |bits|
  {
    GroupFits(GroupAt(bits, i));
    if |bits| > 5 {
      EncodeBitsAt(bits[5..], if i == 0 then 0 else i - 1);
    }
    if i == 0 {
      assert GroupAt(bits, 0) == if |bits| < 5 then bits + Zeros(5 - |bits|) else bits[..5];
    } else {
      assert GroupAt(bits[5..], i - 1) == GroupAt(bits, i);
    }
  }

  /** The i-th five bits of some bytes. */
  function DataGroup(data: seq<byte>, i: nat): seq<bool> {
    seq(5, j requires 0 <= j < 5 => 5 * i + j < 8 * |data| && BitOf(data, 5 * i + j))
  }

  /** The symbol of each group of five bits, by the table of the RFC: the letters, then the digits from two. */
  lemma EncodeSymbols(data: seq<byte>, i: nat)
    requires 5 * i < 8 * |data|
    ensures i < |Encode(data)| == (8 * |data| + 4) / 5
    ensures var v := Value(DataGroup(data, i));
            Encode(data)[i] as int == if v < 26 then 'A' as int + v else '2' as int + (v - 26)
  {
    EncodeBitsAt(ByteBits(data), i);
    forall k | 0 <= k < 8 * |data|
      ensures ByteBits(data)[k] <==> BitOf(data, k)
    {
      ByteBitsAt(data, k);
    }
    assert GroupAt(ByteBits(data), i) == DataGroup(data, i);
  }

  predicate NoSlash(text: string) {
    forall i | 0 <= i < |text| :: text[i] != '/'
  }

  lemma {:induction false} EncodeBitsHasNoSlash(bits: seq<bool>)
    ensures NoSlash(EncodeBits(bits))
    ensures bits != [] ==> EncodeBits(bits) != ""
  {
    if bits != [] {
      var group := if |bits| < 5 then bits + Zeros(5 - |bits|) else bits[..5];
      GroupFits(group);
      assert EncodeBits(bits)[0] == Symbol(Value(group));
      if |bits| > 5 {
        EncodeBitsHasNoSlash(bits[5..]);
        assert EncodeBits(bits)[1..] == EncodeBits(bits[5..]);
      }
    }
  }

  /** Encodings have no slash, and only the empty string is encoded as the empty string. */
  lemma EncodeHasNoSlash(data: seq<byte>)
    ensures NoSlash(Encode(data))
    ensures data != [] <==> Encode(data) != ""
  {
    EncodeBitsHasNoSlash(ByteBits(data));
  }

  // ---------- Record names ----------

  const PREFIX: string := "/providers/"

  function MkProvKey(k: ContentKey): string {
    PREFIX + Encode(k)
  }

  function MkProvKeyFor(k: ContentKey, p: PeerId): string {
    MkProvKey(k) + "/" + Encode(p.raw)
  }

  /** The text after the last slash. */
  function AfterLastSlash(s: string): string {
    if s == "" || s[|s| - 1] == '/' then ""
    else AfterLastSlash(s[..|s| - 1]) + [s[|s| - 1]]
  }

  /** The provider that a record name tells, if it is well encoded. */
  function ProviderOf(name: string): Option<PeerId> {
    match Decode(AfterLastSlash(name))
    case Some(raw) => Some(PeerId(raw))
    case None => None
  }

  /** Whether a datastore query for the children of a name finds another one. */
  predicate IsChild(name: string, parent: string) {
    parent + "/" <= name
  }

  lemma {:induction false} AfterLastSlashSplits(a: string, b: string)
    requires NoSlash(b)
    ensures AfterLastSlash(a + "/" + b) == b
  {
    if b != "" {
      var n := |b| - 1;
      AfterLastSlashSplits(a, b[..n]);
      assert (a + "/" + b)[..|a + "/" + b| - 1] == a + "/" + b[..n];
    }
  }

  /** A record name gives its provider back. */
  lemma ProviderRoundTrip(k: ContentKey, p: PeerId)
    ensures ProviderOf(MkProvKeyFor(k, p)) == Some(p)
  {
    EncodeHasNoSlash(p.raw);
    AfterLastSlashSplits(MkProvKey(k), Encode(p.raw));
    DecodeEncode(p.raw);
  }

  /** The records found under a content key's name are those of that content key. */
  lemma ChildrenAreOwn(k: ContentKey, k': ContentKey, p: PeerId)
    ensures IsChild(MkProvKeyFor(k', p), MkProvKey(k)) <==> k == k'
  {
    var a, b := Encode(k), Encode(k');
    var name := MkProvKeyFor(k', p);
    EncodeHasNoSlash(k);
    EncodeHasNoSlash(k');
    assert name == MkProvKey(k') + "/" + Encode(p.raw);
    var n := |PREFIX|;
    assert name[n + |b|] == '/' && name[n..n + |b|] == b;
    if IsChild(name, MkProvKey(k)) {
      assert name[..n + |a| + 1] == PREFIX + a + "/";
      assert name[n + |a|] == '/' && name[n..n + |a|] == a;
      assert forall i | 0 <= i < |a| :: name[n + i] == a[i];
      assert forall i | 0 <= i < |b| :: name[n + i] == b[i];
      assert |a| == |b|;
      DecodeEncode(k);
      DecodeEncode(k');
    }
  }

  /** Different content keys or providers have different record names. */
  lemma MkProvKeyForInjective(k: ContentKey, p: PeerId, k': ContentKey, p': PeerId)
    requires MkProvKeyFor(k, p) == MkProvKeyFor(k', p')
    ensures k == k' && p == p'
  {
    ProviderRoundTrip(k, p);
    ProviderRoundTrip(k', p');
    ChildrenAreOwn(k, k, p);
    ChildrenAreOwn(k, k', p');
  }

  // ---------- Cleaning of names by the datastore ----------

  /** Without the slashes that follow another slash. */
  function Collapse(s: string): string {
    if |s| <= 1 then s
    else
      var n := |s| - 1;
      Collapse(s[..n]) + (if s[n] == '/' && s[n - 1] == '/' then "" else [s[n]])
  }

  /** The form in which the datastore keeps a name: no repeated and no trailing slash. Record
      names have no dots, so nothing else of a path cleaning applies to them. */
  function Clean(s: string): string {
    var t := Collapse(s);
    if |t| > 1 && t[|t| - 1] == '/' then t[..|t| - 1] else t
  }

  predicate DoubleSlashAt(s: string, i: int) {
    0 < i < |s| && s[i] == '/' && s[i - 1] == '/'
  }

  lemma {:induction false} CollapseShrinks(s: string)
    ensures |Collapse(s)| <= |s|
    ensures (forall i :: !DoubleSlashAt(s, i)) ==> Collapse(s) == s
    ensures (exists i :: DoubleSlashAt(s, i)) ==> |Collapse(s)| < |s|
  {
    if |s| > 1 {
      var n := |s| - 1;
      CollapseShrinks(s[..n]);
      assert s == s[..n] + [s[n]];
      assert DoubleSlashAt(s, n) <==> s[n] == '/' && s[n - 1] == '/';
      assert forall i :: DoubleSlashAt(s[..n], i) ==> DoubleSlashAt(s, i);
      assert forall i :: DoubleSlashAt(s, i) ==> DoubleSlashAt(s[..n], i) || i == n;
    }
  }

  /** The datastore keeps a record under the very name it was given exactly when neither the
      content key nor the peer ID is empty. */
  lemma CleanKeepsName(k: ContentKey, p: PeerId)
    ensures Clean(MkProvKeyFor(k, p)) == MkProvKeyFor(k, p) <==> k != [] && p.raw != []
  {
    var s := MkProvKeyFor(k, p);
    var a, b, n := Encode(k), Encode(p.raw), |PREFIX|;
    EncodeHasNoSlash(k);
    EncodeHasNoSlash(p.raw);
    CollapseShrinks(s);
    assert s == PREFIX + a + "/" + b;
    assert s[n - 1] == '/' && s[n + |a|] == '/' && |s| == n + |a| + 1 + |b|;
    if k == [] {
      assert DoubleSlashAt(s, n);
    } else {
      forall i
        ensures !DoubleSlashAt(s, i)
      {
        SlashPositions(a, b, i);
      }
      if p.raw == [] {
        assert Collapse(s) == s && s[|s| - 1] == '/';
      } else {
        assert s[|s| - 1] == b[|b| - 1];
      }
    }
  }

  lemma SlashPositions(a: string, b: string, i: int)
    requires NoSlash(a) && NoSlash(b) && a != ""
    ensures !DoubleSlashAt(PREFIX + a + "/" + b, i)
  {
  }

  // ---------- Record times ----------

  const TWO_63: int := 0x8000_0000_0000_0000
  const MAX_VARINT_LEN_64: nat := 10

  predicate IsInt64(t: int) {
    -TWO_63 <= t < TWO_63
  }

  function Zigzag(t: int): (u: nat) {
    if t >= 0 then 2 * t else -2 * t - 1
  }

  function Unzigzag(u: nat): int {
    if u % 2 == 0 then u / 2 else -(u / 2) - 1
  }

  function PutUvarint(u: nat): seq<byte> {
    if u < 128 then [u as byte] else [(u % 128 + 128) as byte] + PutUvarint(u / 128)
  }

  /** Read a varint of at most 64 bits whose first i bytes have been read. */
  function Uvarint(buf: seq<byte>, i: nat): Option<nat>
    decreases |buf|
  {
    if buf == [] || i == MAX_VARINT_LEN_64 then None
    else if buf[0] < 128 then
      if i == MAX_VARINT_LEN_64 - 1 && buf[0] > 1 then None else Some(buf[0] as nat)
    else
      match Uvarint(buf[1..], i + 1)
      case Some(v) => Some(buf[0] as nat - 128 + 128 * v)
      case None => None
  }

  function WriteTime(t: int): seq<byte> {
    PutUvarint(Zigzag(t))
  }

  function ReadTimeValue(data: seq<byte>): Option<int> {
    match Uvarint(data, 0)
    case Some(u) => Some(Unzigzag(u))
    case None => None
  }

  /** The numbers that fit in the bytes from the i-th on. */
  function Room(i: nat): nat
    requires i <= 9
    decreases 9 - i
  {
    if i == 9 then 2 else 128 * Room(i + 1)
  }

  lemma RoomAtStart()
    ensures Room(0) == 2 * TWO_63
  {
  }

  lemma {:induction false} UvarintRoundTrip(u: nat, i: nat)
    requires i <= 9 && u < Room(i)
    ensures Uvarint(PutUvarint(u), i) == Some(u)
    ensures |PutUvarint(u)| <= 10 - i
    decreases u
  {
    if u >= 128 {
      UvarintRoundTrip(u / 128, i + 1);
      assert PutUvarint(u)[1..] == PutUvarint(u / 128);
    }
  }

  /** Every time that fits in 64 bits is read back as it was written, from at most ten bytes,
      which the sixteen-byte buffer has room for. */
  lemma TimeRoundTrip(t: int)
    requires IsInt64(t)
    ensures ReadTimeValue(WriteTime(t)) == Some(t)
    ensures |WriteTime(t)| <= 10
  {
    RoomAtStart();
    UvarintRoundTrip(Zigzag(t), 0);
  }

  /** The bytes of a varint: seven bits each, the least significant ones first, and a mark on all but the last. */
  lemma {:induction false} UvarintBytes(u: nat, i: nat)
    requires i < |PutUvarint(u)|
    ensures PutUvarint(u)[i] as nat ==
            u / Pow2(7 * i) % 128 + (if i < |PutUvarint(u)| - 1 then 128 else 0)
    ensures u < Pow2(7 * |PutUvarint(u)|) && (i > 0 ==> u >= Pow2(7 * i))
    decreases u
  {
    assert Pow2(7) == 128 by {
      assert Pow2(3) == 8 && Pow2(5) == 32;
    }
    if u >= 128 {
      UvarintBytes(u / 128, if i == 0 then 0 else i - 1);
      assert PutUvarint(u)[1..] == PutUvarint(u / 128);
      Pow2More(7 * (|PutUvarint(u)| - 1));
      if i > 0 {
        Pow2More(7 * (i - 1));
        QuotientOfQuotient(u, Pow2(7 * (i - 1)));
      }
    }
  }

  lemma Pow2More(n: nat)
    ensures Pow2(n + 7) == 128 * Pow2(n)
  {
    assert Pow2(n + 1) == 2 * Pow2(n) && Pow2(n + 2) == 2 * Pow2(n + 1) && Pow2(n + 3) == 2 * Pow2(n + 2);
    assert Pow2(n + 4) == 2 * Pow2(n + 3) && Pow2(n + 5) == 2 * Pow2(n + 4) && Pow2(n + 6) == 2 * Pow2(n + 5);
  }

  lemma QuotientOfQuotient(u: nat, k: nat)
    requires k > 0
    ensures u / 128 / k == u / (128 * k)
  {
    var q := u / 128 / k;
    QuotientBounds(u / 128, k);
    assert 128 * k * q == 128 * (k * q);
    QuotientUnique(u, 128 * k, q);
  }

  /** A time is written as a zigzag varint: twice the time, or one less than minus twice a negative one. */
  lemma TimeBytes(t: int, i: nat)
    requires i < |WriteTime(t)|
    ensures var u := if t >= 0 then 2 * t else -2 * t - 1;
            WriteTime(t)[i] as nat == u / Pow2(7 * i) % 128 + (if i < |WriteTime(t)| - 1 then 128 else 0)
  {
    UvarintBytes(Zigzag(t), i);
  }

  /** How many bytes come before the first one without a mark. */
  function Marked(buf: seq<byte>): (n: nat)
    ensures n <= |buf| && (forall m | 0 <= m < n :: buf[m] >= 128) && (n < |buf| ==> buf[n] < 128)
  {
    if buf == [] || buf[0] < 128 then 0 else 1 + Marked(buf[1..])
  }

  /** A varint can be read exactly if it ends within ten bytes and fits in 64 bits; what follows is ignored. */
  lemma {:induction false} UvarintReadsIff(buf: seq<byte>, i: nat)
    requires i <= MAX_VARINT_LEN_64
    ensures var n := Marked(buf);
            Uvarint(buf, i).Some? <==> n < |buf| && i + n < 10 && (i + n == 9 ==> buf[n] <= 1)
    decreases |buf|
  {
    if buf != [] && buf[0] >= 128 && i < MAX_VARINT_LEN_64 {
      UvarintReadsIff(buf[1..], i + 1);
    }
  }
}
