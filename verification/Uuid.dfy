/** The two UUID classes of the framework (frameworks/native/nearlink_uuid.cpp and
    utils/src/sle_uuid.cpp, utils/include/sle_uuid.h): text, byte and 64-bit forms. */
module Uuid {

  type Uuid = u: seq<bv8> | |u| == 16 witness seq(16, _ => 0)

  /** The default of `Uuid`; the default of `UUID` is all zero. */
  const BASE_UUID: Uuid := [0x37, 0xBE, 0xA8, 0x80, 0xFC, 0x70, 0x11, 0xEA, 0xB7, 0x20, 0, 0, 0, 0, 0, 0]
  const ZERO_UUID: Uuid := seq(16, _ => 0)

  // ------------------------------------------------------------- 64-bit halves

  /** The shift-and-or expression of the parcel writer. */
  function Word(b: seq<bv8>): bv64
    requires |b| == 8
  {
    ((b[0] as bv64) << 56) | ((b[1] as bv64) << 48) | ((b[2] as bv64) << 40) | ((b[3] as bv64) << 32)
    | ((b[4] as bv64) << 24) | ((b[5] as bv64) << 16) | ((b[6] as bv64) << 8) | (b[7] as bv64)
  }

  function Low(w: bv64): bv8 {
    (w & 0xFF) as bv8
  }

  /** Byte `i` of a word, most significant first, by shifting it down. */
  function ByteAt(w: bv64, i: nat): bv8
    requires i < 8
  {
    match i
    case 0 => Low(w >> 56)
    case 1 => Low(w >> 48)
    case 2 => Low(w >> 40)
    case 3 => Low(w >> 32)
    case 4 => Low(w >> 24)
    case 5 => Low(w >> 16)
    case 6 => Low(w >> 8)
    case 7 => Low(w)
  }

  /** The same byte by masking in place first, as the `UUID(long, long)` constructor does. */
  function MaskedByteAt(w: bv64, i: nat): bv8
    requires i < 8
  {
    match i
    case 0 => Low((w & 0xFF00_0000_0000_0000) >> 56)
    case 1 => Low((w & 0x00FF_0000_0000_0000) >> 48)
    case 2 => Low((w & 0x0000_FF00_0000_0000) >> 40)
    case 3 => Low((w & 0x0000_00FF_0000_0000) >> 32)
    case 4 => Low((w & 0x0000_0000_FF00_0000) >> 24)
    case 5 => Low((w & 0x0000_0000_00FF_0000) >> 16)
    case 6 => Low((w & 0x0000_0000_0000_FF00) >> 8)
    case 7 => Low(w & 0xFF)
  }

  function Bytes(w: bv64): (b: seq<bv8>)
    ensures |b| == 8
  {
    [ByteAt(w, 0), ByteAt(w, 1), ByteAt(w, 2), ByteAt(w, 3), ByteAt(w, 4), ByteAt(w, 5), ByteAt(w, 6), ByteAt(w, 7)]
  }

  lemma WordOfBytes(w: bv64)
    ensures Word(Bytes(w)) == w
  {
  }

  lemma ByteOfWord(a: bv8, b: bv8, c: bv8, d: bv8, e: bv8, f: bv8, g: bv8, h: bv8)
    ensures var w := ((a as bv64) << 56) | ((b as bv64) << 48) | ((c as bv64) << 40) | ((d as bv64) << 32)
                     | ((e as bv64) << 24) | ((f as bv64) << 16) | ((g as bv64) << 8) | (h as bv64);
            && Low(w >> 56) == a && Low(w >> 48) == b && Low(w >> 40) == c && Low(w >> 32) == d
            && Low(w >> 24) == e && Low(w >> 16) == f && Low(w >> 8) == g && Low(w) == h
  {
  }

  lemma BytesOfWord(b: seq<bv8>)
    requires |b| == 8
    ensures Bytes(Word(b)) == b
  {
    ByteOfWord(b[0], b[1], b[2], b[3], b[4], b[5], b[6], b[7]);
  }

  lemma MaskingIsShifting(w: bv64, i: nat)
    requires i < 8
    ensures MaskedByteAt(w, i) == ByteAt(w, i)
  {
  }

  function MostBits(u: Uuid): bv64 { Word(u[..8]) }
  function LeastBits(u: Uuid): bv64 { Word(u[8..]) }

  function FromHalves(most: bv64, least: bv64): Uuid {
    Bytes(most) + Bytes(least)
  }

  /** The halves determine the UUID and are determined by it. */
  lemma HalvesRoundTrip(u: Uuid, most: bv64, least: bv64)
    ensures FromHalves(MostBits(u), LeastBits(u)) == u
    ensures MostBits(FromHalves(most, least)) == most && LeastBits(FromHalves(most, least)) == least
  {
    hide Word, Bytes;
    BytesOfWord(u[..8]);
    BytesOfWord(u[8..]);
    assert u == u[..8] + u[8..];
    WordOfBytes(most);
    WordOfBytes(least);
    var v := FromHalves(most, least);
    assert v[..8] == Bytes(most) && v[8..] == Bytes(least);
  }

  lemma ByBytes(u: Uuid, most: bv64, least: bv64)
    requires forall i :: 0 <= i < 8 ==> u[i] == ByteAt(most, i)
    requires forall i :: 8 <= i < 16 ==> u[i] == ByteAt(least, i - 8)
    ensures u == FromHalves(most, least)
    ensures MostBits(u) == most && LeastBits(u) == least
  {
    hide Word, ByteAt;
    assert u[..8] == Bytes(most) && u[8..] == Bytes(least);
    assert u == u[..8] + u[8..];
    HalvesRoundTrip(u, most, least);
  }

  function MaskedBytes(w: bv64): (b: seq<bv8>)
    ensures |b| == 8
  {
    [MaskedByteAt(w, 0), MaskedByteAt(w, 1), MaskedByteAt(w, 2), MaskedByteAt(w, 3),
     MaskedByteAt(w, 4), MaskedByteAt(w, 5), MaskedByteAt(w, 6), MaskedByteAt(w, 7)]
  }

  lemma MaskedBytesAreBytes(w: bv64)
    ensures MaskedBytes(w) == Bytes(w)
  {
    hide ByteAt, MaskedByteAt;
    forall i: nat | i < 8 ensures MaskedByteAt(w, i) == ByteAt(w, i) {
      MaskingIsShifting(w, i);
    }
  }

  /** The constructor `UUID(long, long)` masks every byte in place and then shifts it down; it
      inverts both 64-bit halves. */
  method FromLongs(most: bv64, least: bv64) returns (u: Uuid)
    ensures u == FromHalves(most, least)
    ensures MostBits(u) == most && LeastBits(u) == least
  {
    hide Word, Bytes, MaskedBytes, MostBits, LeastBits;
    u := MaskedBytes(most) + MaskedBytes(least);
    MaskedBytesAreBytes(most);
    MaskedBytesAreBytes(least);
    HalvesRoundTrip(u, most, least);
  }

  /** The accumulate loops of both classes. */
  method SignificantBits(u: Uuid, most: bool) returns (w: bv64)
    ensures w == if most then MostBits(u) else LeastBits(u)
  {
    hide Word, Prefix;
    var from := if most then 0 else 8;
    ghost var half := if most then u[..8] else u[8..];
    w := 0;
    PrefixStep(half, 0);
    var i := from;
    while i < from + 8
      invariant from <= i <= from + 8
      invariant w == Prefix(half, i - from)
    {
      AccumulateStep(half, i - from);
      assert half[i - from] == u[i];
      w := (w << 8) | ((u[i] & 0xFF) as bv64);
      i := i + 1;
    }
    PrefixAll(half);
  }

  /** The value of the first `n` bytes. */
  function Prefix(b: seq<bv8>, n: nat): bv64
    requires |b| == 8 && n <= 8
  {
    if n == 0 then 0 else (Prefix(b, n - 1) << 8) | (b[n - 1] as bv64)
  }

  lemma AccumulateStep(b: seq<bv8>, n: nat)
    requires |b| == 8 && n < 8
    ensures Prefix(b, n + 1) == (Prefix(b, n) << 8) | ((b[n] & 0xFF) as bv64)
  {
    assert b[n] & 0xFF == b[n];
  }

  lemma PrefixStep(b: seq<bv8>, n: nat)
    requires |b| == 8 && n < 8
    ensures Prefix(b, 0) == 0
    ensures Prefix(b, n + 1) == (Prefix(b, n) << 8) | (b[n] as bv64)
  {
  }

  lemma PrefixAll(b: seq<bv8>)
    requires |b| == 8
    ensures Prefix(b, 8) == Word(b)
  {
    hide Prefix;
    PrefixStep(b, 0);
    PrefixStep(b, 1);
    PrefixStep(b, 2);
    PrefixStep(b, 3);
    PrefixStep(b, 4);
    PrefixStep(b, 5);
    PrefixStep(b, 6);
    PrefixStep(b, 7);
    Accumulated(b[0], b[1], b[2], b[3], b[4], b[5], b[6], b[7]);
  }

  lemma Accumulated(a: bv8, b: bv8, c: bv8, d: bv8, e: bv8, f: bv8, g: bv8, h: bv8)
    ensures var p2 := ((((0 as bv64) << 8) | (a as bv64)) << 8) | (b as bv64);
            var p4 := (((p2 << 8) | (c as bv64)) << 8) | (d as bv64);
            var p6 := (((p4 << 8) | (e as bv64)) << 8) | (f as bv64);
            (((p6 << 8) | (g as bv64)) << 8) | (h as bv64)
            == ((a as bv64) << 56) | ((b as bv64) << 48) | ((c as bv64) << 40) | ((d as bv64) << 32)
               | ((e as bv64) << 24) | ((f as bv64) << 16) | ((g as bv64) << 8) | (h as bv64)
  {
  }

  /** `ConvertFromMostAndLeastBit` fills the array byte by byte. */
  method ConvertFromMostAndLeastBit(most: bv64, least: bv64) returns (u: Uuid)
    ensures u == FromHalves(most, least)
    ensures MostBits(u) == most && LeastBits(u) == least
  {
    hide Word, ByteAt, FromHalves, MostBits, LeastBits;
    var a := BASE_UUID;
    for i := 0 to 8
      invariant |a| == 16
      invariant forall j :: 0 <= j < i ==> a[j] == ByteAt(most, j)
    {
      a := a[i := ByteAt(most, i)];
    }
    for i := 8 to 16
      invariant |a| == 16
      invariant forall j :: 0 <= j < 8 ==> a[j] == ByteAt(most, j)
      invariant forall j :: 8 <= j < i ==> a[j] == ByteAt(least, j - 8)
    {
      a := a[i := ByteAt(least, i - 8)];
    }
    u := a;
    ByBytes(u, most, least);
  }

  // ------------------------------------------------------------------ 16 bits

  function To16(u: Uuid): bv16 {
    ((u[15] & 0xFF) as bv16) + ((u[14] as bv16) << 8)
  }

  function From16(n: bv16): Uuid {
    BASE_UUID[14 := ((n & 0xFF00) >> 8) as bv8][15 := (n & 0x00FF) as bv8]
  }

  /** The two bytes of a 16-bit identifier replace the last two of the base UUID, high byte
      first. */
  lemma SixteenBytes(hi: bv8, lo: bv8)
    ensures var u := From16(((hi as bv16) << 8) | (lo as bv16));
            u[14] == hi && u[15] == lo && u[..14] == BASE_UUID[..14]
  {
    var n := ((hi as bv16) << 8) | (lo as bv16);
    HighLow(hi, lo);
    assert From16(n)[14] == ((n & 0xFF00) >> 8) as bv8 && From16(n)[15] == (n & 0x00FF) as bv8;
  }

  lemma HighLow(hi: bv8, lo: bv8)
    ensures var n := ((hi as bv16) << 8) | (lo as bv16);
            ((n & 0xFF00) >> 8) as bv8 == hi && (n & 0x00FF) as bv8 == lo
  {
  }

  /** The base UUID as two 64-bit words. */
  lemma BaseHalves()
    ensures MostBits(BASE_UUID) == 0x37BE_A880_FC70_11EA && LeastBits(BASE_UUID) == 0xB720_0000_0000_0000
  {
    assert BASE_UUID[..8] == [0x37, 0xBE, 0xA8, 0x80, 0xFC, 0x70, 0x11, 0xEA];
    assert BASE_UUID[8..] == [0xB7, 0x20, 0, 0, 0, 0, 0, 0];
  }

  /** 2 when the first fourteen bytes are the base UUID's, 16 otherwise. */
  method GetUuidType(u: Uuid) returns (r: int)
    ensures r == 2 || r == 16
    ensures r == 2 <==> u == From16(To16(u))
  {
    var i := 0;
    while i < 14
      invariant 0 <= i <= 14
      invariant forall j :: 0 <= j < i ==> BASE_UUID[j] == u[j]
    {
      if BASE_UUID[i] != u[i] {
        assert From16(To16(u))[i] == BASE_UUID[i];
        return 16;
      }
      i := i + 1;
    }
    Sixteen(u[14], u[15]);
    assert u == From16(To16(u));
    return 2;
  }

  lemma Sixteen(hi: bv8, lo: bv8)
    ensures var n := ((lo & 0xFF) as bv16) + ((hi as bv16) << 8);
            ((n & 0xFF00) >> 8) as bv8 == hi && (n & 0x00FF) as bv8 == lo
  {
  }

  /** Sixteen-bit identifiers survive the trip through the full form. */
  lemma SixteenRoundTrip(n: bv16)
    ensures To16(From16(n)) == n
  {
    var u := From16(n);
    var hi, lo := ((n & 0xFF00) >> 8) as bv8, (n & 0x00FF) as bv8;
    assert u[14] == hi && u[15] == lo;
    Sixteenth(n);
  }

  lemma Sixteenth(n: bv16)
    ensures var hi, lo := ((n & 0xFF00) >> 8) as bv8, (n & 0x00FF) as bv8;
            ((lo & 0xFF) as bv16) + ((hi as bv16) << 8) == n
  {
  }
}
