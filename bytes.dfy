/**
 * Machine integers and the big-endian byte layout shared by the trie keys
 * and the EVM words: `byte`, `u64`, `i64`, and a width-indexed big-endian
 * codec with both round-trip directions proved.
 */
module Bytes {

  type byte = b: int | 0 <= b < 256
  type u64 = n: int | 0 <= n < 0x1_0000_0000_0000_0000
  type i64 = n: int | -0x8000_0000_0000_0000 <= n < 0x8000_0000_0000_0000

  /** 256 to the power n: the number of values `n` bytes can hold. */
  function Pow256(n: nat): (p: nat)
    ensures p >= 1
  {
    if n == 0 then 1 else 256 * Pow256(n - 1)
  }

  /** The byte widths used by the model: 8 (u64), 20 (EVM address), 32 (EVM word). */
  lemma Pow256Values()
    ensures Pow256(8) == 0x1_0000_0000_0000_0000
    ensures Pow256(20) == 0x1_0000_0000_0000_0000_0000_0000_0000_0000_0000_0000
    ensures Pow256(32) == 0x1_0000_0000_0000_0000_0000_0000_0000_0000_0000_0000_0000_0000_0000_0000_0000_0000
  {
    assert Pow256(12) == 0x1_0000_0000_0000_0000_0000_0000;
    assert Pow256(16) == 0x1_0000_0000_0000_0000_0000_0000_0000_0000;
    assert Pow256(24) == 0x1_0000_0000_0000_0000_0000_0000_0000_0000_0000_0000_0000_0000;
    assert Pow256(28) == 0x1_0000_0000_0000_0000_0000_0000_0000_0000_0000_0000_0000_0000_0000_0000;
  }

  /** `n` zero bytes. */
  function Zeros(n: nat): (z: seq<byte>)
    ensures |z| == n
    ensures forall i :: 0 <= i < n ==> z[i] == 0
  {
    seq(n, _ => 0)
  }

  /** The number whose big-endian representation is `s` (most significant byte first). */
  function FromBigEndian(s: seq<byte>): (r: nat)
    ensures r < Pow256(|s|)
  {
    if s == [] then 0 else FromBigEndian(s[..|s| - 1]) * 256 + s[|s| - 1]
  }

  /** The big-endian representation of `x` in exactly `width` bytes. */
  function ToBigEndian(x: nat, width: nat): (r: seq<byte>)
    requires x < Pow256(width)
    ensures |r| == width
    ensures FromBigEndian(r) == x
  {
    if width == 0 then []
    else
      var high := ToBigEndian(x / 256, width - 1);
      assert (high + [x % 256])[..width - 1] == high;
      high + [x % 256]
  }

  /** Decoding then re-encoding at the same width gives the bytes back. */
  lemma {:induction false} ToFromBigEndian(s: seq<byte>)
    ensures ToBigEndian(FromBigEndian(s), |s|) == s
  {
    if s != [] {
      var init := s[..|s| - 1];
      ToFromBigEndian(init);
      assert s == init + [s[|s| - 1]];
    }
  }

  /** Leading zero bytes do not change the decoded value. */
  lemma {:induction false} FromBigEndianZeros(pad: nat, s: seq<byte>)
    ensures FromBigEndian(Zeros(pad) + s) == FromBigEndian(s)
  {
    if s == [] {
      assert Zeros(pad) + s == Zeros(pad);
      FromBigEndianAllZero(pad);
    } else {
      var init := s[..|s| - 1];
      FromBigEndianZeros(pad, init);
      assert (Zeros(pad) + s)[..pad + |s| - 1] == Zeros(pad) + init;
    }
  }

  lemma {:induction false} FromBigEndianAllZero(n: nat)
    ensures FromBigEndian(Zeros(n)) == 0
  {
    if n > 0 {
      FromBigEndianAllZero(n - 1);
      assert Zeros(n)[..n - 1] == Zeros(n - 1);
    }
  }

  /** Encoding at a larger width only prepends zero bytes. */
  lemma ToBigEndianWiden(x: nat, pad: nat, width: nat)
    requires x < Pow256(width)
    ensures Pow256(width) <= Pow256(pad + width)
    ensures ToBigEndian(x, pad + width) == Zeros(pad) + ToBigEndian(x, width)
  {
    Pow256Monotone(width, pad + width);
    var padded := Zeros(pad) + ToBigEndian(x, width);
    FromBigEndianZeros(pad, ToBigEndian(x, width));
    ToFromBigEndian(padded);
  }

  /** `pad` leading zero bytes are exactly a value that fits in the bytes after
      them, and those bytes then carry the whole value. */
  lemma ZeroPrefix(s: seq<byte>, pad: nat)
    requires pad <= |s|
    ensures s[..pad] == Zeros(pad) <==> FromBigEndian(s) < Pow256(|s| - pad)
    ensures s[..pad] == Zeros(pad) ==> FromBigEndian(s) == FromBigEndian(s[pad..])
  {
    if s[..pad] == Zeros(pad) {
      ZeroPrefixValue(s, pad);
    }
    if FromBigEndian(s) < Pow256(|s| - pad) {
      FitsHasZeroPrefix(s, pad);
    }
  }

  /** Leading zero bytes contribute nothing to the value. */
  lemma ZeroPrefixValue(s: seq<byte>, pad: nat)
    requires pad <= |s| && s[..pad] == Zeros(pad)
    ensures FromBigEndian(s) == FromBigEndian(s[pad..])
  {
    assert s == Zeros(pad) + s[pad..];
    FromBigEndianZeros(pad, s[pad..]);
  }

  /** A value that fits in the low bytes leaves the high bytes zero. */
  lemma FitsHasZeroPrefix(s: seq<byte>, pad: nat)
    requires pad <= |s| && FromBigEndian(s) < Pow256(|s| - pad)
    ensures s[..pad] == Zeros(pad)
  {
    var x := FromBigEndian(s);
    ToFromBigEndian(s);
    ToBigEndianWiden(x, pad, |s| - pad);
    assert s == Zeros(pad) + ToBigEndian(x, |s| - pad);
  }

  lemma {:induction false} Pow256Monotone(m: nat, n: nat)
    requires m <= n
    ensures Pow256(m) <= Pow256(n)
  {
    if m < n {
      Pow256Monotone(m, n - 1);
    }
  }
}
