/** Variable-length integers of section 16 of RFC 9000: the two most
    significant bits of the first byte give the length (1, 2, 4 or 8 bytes),
    the remaining 6, 14, 30 or 62 bits hold the value, big-endian. */
module Varint {
  import opened Common

  /** Values from this bound on have no encoding (neqo's `varint_len` panics). */
  const MaxVarint: nat := 0x4000_0000_0000_0000

  predicate IsVarintLen(n: nat)
  {
    n == 1 || n == 2 || n == 4 || n == 8
  }

  /** The number of values an encoding of `n` bytes can hold: 2^(8n - 2). */
  function Capacity(n: nat): (c: nat)
    requires IsVarintLen(n)
  {
    if n == 1 then 0x40
    else if n == 2 then 0x4000
    else if n == 4 then 0x4000_0000
    else 0x4000_0000_0000_0000
  }

  /** `Encoder::varint_len`: the length of the shortest encoding of `v`. */
  function VarintLen(v: nat): (n: nat)
    requires v < MaxVarint
    ensures IsVarintLen(n)
    ensures v < Capacity(n)
    ensures n > 1 ==> Capacity(n / 2) <= v
  {
    if v < 0x40 then 1
    else if v < 0x4000 then 2
    else if v < 0x4000_0000 then 4
    else 8
  }

  /** The two-bit length prefix for an encoding of `n` bytes. */
  function PrefixOf(n: nat): (p: nat)
    requires IsVarintLen(n)
    ensures p < 4
  {
    if n == 1 then 0 else if n == 2 then 1 else if n == 4 then 2 else 3
  }

  /** The encoding length announced by a two-bit prefix. */
  function LengthOfPrefix(p: nat): (n: nat)
    requires p < 4
    ensures IsVarintLen(n) && PrefixOf(n) == p
  {
    if p == 0 then 1 else if p == 1 then 2 else if p == 2 then 4 else 8
  }

  function Pow256(n: nat): (p: nat)
    ensures p >= 1
  {
    if n == 0 then 1 else 256 * Pow256(n - 1)
  }

  lemma CapacityIsPower(n: nat)
    requires IsVarintLen(n)
    ensures Capacity(n) == 64 * Pow256(n - 1)
  {
    assert Pow256(1) == 256;
    assert Pow256(3) == 256 * 256 * 256;
    assert Pow256(7) == 256 * 256 * 256 * 256 * 256 * 256 * 256;
  }

  /** The low `n` bytes of `v`, most significant first. */
  function BigEndian(v: nat, n: nat): (s: seq<byte>)
    ensures |s| == n
  {
    if n == 0 then [] else BigEndian(v / 256, n - 1) + [(v % 256) as byte]
  }

  function FromBigEndian(s: seq<byte>): nat
  {
    if s == [] then 0 else FromBigEndian(s[..|s| - 1]) * 256 + s[|s| - 1]
  }

  lemma {:induction false} FromBigEndianOf(v: nat, n: nat)
    requires v < Pow256(n)
    ensures FromBigEndian(BigEndian(v, n)) == v
  {
    if n > 0 {
      var s := BigEndian(v, n);
      assert s[..n - 1] == BigEndian(v / 256, n - 1);
      FromBigEndianOf(v / 256, n - 1);
    }
  }

  lemma {:induction false} BigEndianHead(v: nat, n: nat)
    requires n >= 1 && v < 64 * Pow256(n - 1)
    ensures BigEndian(v, n)[0] < 64
  {
    if n > 1 {
      assert BigEndian(v, n)[0] == BigEndian(v / 256, n - 1)[0];
      BigEndianHead(v / 256, n - 1);
    }
  }

  /** The shortest encoding of `v`. */
  function Encode(v: nat): (s: seq<byte>)
    requires v < MaxVarint
    ensures |s| == VarintLen(v)
    ensures s[0] / 64 == PrefixOf(|s|)
  {
    var n := VarintLen(v);
    var be := BigEndian(v, n);
    CapacityIsPower(n);
    BigEndianHead(v, n);
    [(PrefixOf(n) * 64 + be[0]) as byte] + be[1..]
  }

  /** Reads one varint from the front of `s`: its value and the number of
      bytes it took, or None when `s` is too short. */
  function Decode(s: seq<byte>): (r: Option<(nat, nat)>)
    ensures r.Some? ==> IsVarintLen(r.value.1) && r.value.1 <= |s|
  {
    if |s| == 0 then None
    else
      var n := LengthOfPrefix(s[0] / 64);
      if |s| < n then None
      else Some((FromBigEndian([(s[0] % 64) as byte] + s[1..n]), n))
  }

  /** Decoding an encoding gives back the value and consumes exactly the
      encoding, whatever follows it. */
  lemma DecodeEncode(v: nat, rest: seq<byte>)
    requires v < MaxVarint
    ensures Decode(Encode(v) + rest) == Some((v, VarintLen(v)))
  {
    var n := VarintLen(v);
    var be := BigEndian(v, n);
    CapacityIsPower(n);
    BigEndianHead(v, n);
    FromBigEndianOf(v, n);
    var s := Encode(v) + rest;
    assert s[0] == PrefixOf(n) * 64 + be[0];
    assert s[0] / 64 == PrefixOf(n);
    assert s[0] % 64 == be[0];
    assert [(s[0] % 64) as byte] + s[1..n] == be;
  }
}
