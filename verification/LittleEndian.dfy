/** Fixed-width little-endian words, as `memcpy` of a `size_t` or `uint16_t` lays
    them out on the 64-bit targets the data-transfer socket runs on. */
module LittleEndian {

  type byte = b: int | 0 <= b < 256

  const WORD := 8

  function Pow256(k: nat): (p: nat)
    ensures p > 0
  {
    if k == 0 then 1 else 256 * Pow256(k - 1)
  }

  /** The `k` low-order bytes of `n`, least significant first. */
  function ToBytes(n: nat, k: nat): (s: seq<byte>)
    ensures |s| == k
  {
    if k == 0 then [] else [(n % 256) as byte] + ToBytes(n / 256, k - 1)
  }

  function FromBytes(s: seq<byte>): nat {
    if s == [] then 0 else s[0] + 256 * FromBytes(s[1..])
  }

  /** Every value that fits the width survives the write/read pair. */
  lemma {:induction false} FromToBytes(n: nat, k: nat)
    requires n < Pow256(k)
    ensures FromBytes(ToBytes(n, k)) == n
  {
    if k == 0 {
    } else {
      FromToBytes(n / 256, k - 1);
      assert ToBytes(n, k)[1..] == ToBytes(n / 256, k - 1);
    }
  }

  /** Reading is injective: the bytes can be recomputed from the value. */
  lemma {:induction false} ToFromBytes(s: seq<byte>)
    ensures FromBytes(s) < Pow256(|s|)
    ensures ToBytes(FromBytes(s), |s|) == s
  {
    if s == [] {
    } else {
      ToFromBytes(s[1..]);
      var n := FromBytes(s);
      assert n % 256 == s[0] && n / 256 == FromBytes(s[1..]);
      assert s == [s[0]] + s[1..];
    }
  }

  lemma WordRange()
    ensures Pow256(8) == 0x1_0000_0000_0000_0000
    ensures Pow256(2) == 0x1_0000
  {
    assert Pow256(2) == 256 * 256;
    assert Pow256(4) == 256 * (256 * Pow256(2));
    assert Pow256(6) == 256 * (256 * Pow256(4));
    assert Pow256(8) == 256 * (256 * Pow256(6));
  }
}
