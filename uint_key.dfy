/**
 * Numeric trie keys: `u64_key` / `parse_uint_key` and the `key as u64` cast
 * that turns a signed chain epoch into an outer-map key.
 *
 * The bodies of `u64_key` and `parse_uint_key` live outside the modelled
 * files.  The model assumes the fixed-width (8-byte) big-endian form, with a
 * parse that rejects every other length.  The multimap's properties rely only
 * on `ParseU64Key` (parsing undoes encoding) and on `Encoded` member keys,
 * not on how other keys parse.
 */
module UintKey {
  import opened Wrappers
  import opened Bytes

  /** A HAMT key: the raw bytes the trie hashes (`BytesKey`). */
  type BytesKey = seq<byte>

  /** Byte width of an encoded numeric key. */
  const KeyWidth: nat := 8

  /** Why `parse_uint_key` rejected a key. */
  datatype ParseError = WrongLength(key: BytesKey)

  /** `u64_key` (assumed body): the big-endian 8-byte encoding of `n`. */
  function U64Key(n: u64): (k: BytesKey)
    ensures |k| == KeyWidth
  {
    Pow256Values();
    ToBigEndian(n, KeyWidth)
  }

  /** `parse_uint_key` (assumed body): decodes an 8-byte key and rejects every other length. */
  function ParseUintKey(k: BytesKey): (r: Result<u64, ParseError>)
    ensures r.Success? <==> |k| == KeyWidth
    ensures r.Failure? ==> r.error == WrongLength(k)
  {
    if |k| == KeyWidth then
      Pow256Values();
      Success(FromBigEndian(k) as u64)
    else
      Failure(WrongLength(k))
  }

  /** `parse_uint_key` is a left inverse of `u64_key`. */
  lemma ParseU64Key(n: u64)
    ensures ParseUintKey(U64Key(n)) == Success(n)
  {
    Pow256Values();
  }

  /** `k` is the `u64_key` of the number it parses to: a key the multimap itself wrote. */
  predicate Encoded(k: BytesKey)
  {
    ParseUintKey(k).Success? && U64Key(ParseUintKey(k).value) == k
  }

  /** Every `u64_key` output is `Encoded`; this needs only the left inverse. */
  lemma EncodedKey(n: u64)
    ensures Encoded(U64Key(n)) && ParseUintKey(U64Key(n)).value == n
  {
    ParseU64Key(n);
  }

  /** Distinct numbers have distinct keys. */
  lemma U64KeyInjective(m: u64, n: u64)
    ensures U64Key(m) == U64Key(n) <==> m == n
  {
    if U64Key(m) == U64Key(n) {
      ParseU64Key(m);
      ParseU64Key(n);
    }
  }

  /** `key as u64` on an `i64`: two's-complement reinterpretation.  The result
      has the epoch's low 64 bits, and its top bit is the epoch's sign. */
  function EpochAsU64(epoch: i64): (n: u64)
    ensures n % 0x1_0000_0000_0000_0000 == epoch % 0x1_0000_0000_0000_0000
    ensures n < 0x8000_0000_0000_0000 <==> 0 <= epoch
  {
    if epoch < 0 then epoch + 0x1_0000_0000_0000_0000 else epoch
  }

  /** The outer-map key of a chain epoch: `u64_key(key as u64)`.  It decodes
      to the epoch's two's-complement `u64`. */
  function EpochKey(epoch: i64): (k: BytesKey)
    ensures |k| == KeyWidth
    ensures Encoded(k) && ParseUintKey(k) == Success(EpochAsU64(epoch))
  {
    EncodedKey(EpochAsU64(epoch));
    U64Key(EpochAsU64(epoch))
  }

  /** Distinct epochs, negative ones included, never share an outer key. */
  lemma EpochKeyInjective(a: i64, b: i64)
    ensures EpochKey(a) == EpochKey(b) <==> a == b
  {
    U64KeyInjective(EpochAsU64(a), EpochAsU64(b));
  }
}
