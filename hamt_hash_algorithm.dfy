/**
 * `Sha2HasherWrapper`: the HAMT's hash adapter.  Bytes written through the
 * streaming `Hasher` interface are buffered in `data`; `finalize` hands the
 * whole buffer to the host's hash syscall (SHA-256, FIPS PUB 180-4) and
 * empties the buffer, so each key is hashed in isolation.
 */
module HamtHashAlgorithm {
  import opened Bytes

  /** Hash functions the host offers (`SupportedHashes`). */
  datatype SupportedHashes = Sha2_256 | Blake2b256 | Blake2b512 | Keccak256 | Ripemd160

  /** The part of the host runtime the adapter uses: its hash syscall.  The
      digest is computed by the host and is not modelled. */
  datatype Runtime = Runtime(hash: (SupportedHashes, seq<byte>) -> seq<byte>)

  /** Length of a `HashedKey`, the digest the trie indexes by. */
  const HashedKeyLen: nat := 32

  type HashedKey = d: seq<byte> | |d| == HashedKeyLen witness Zeros(32)

  class Sha2HasherWrapper {
    const rt: Runtime
    /** Bytes written since the last `finalize`. */
    var data: seq<byte>

    /** `new`: a wrapper over `rt` with an empty buffer. */
    constructor (rt: Runtime)
      ensures this.rt == rt && data == []
    {
      this.rt := rt;
      data := [];
    }

    /** `finalize`: the host SHA-256 digest of the buffer; the buffer is reset.
        `copy_from_slice` panics unless the digest is exactly a `HashedKey` long. */
    method Finalize() returns (digest: HashedKey)
      requires |rt.hash(Sha2_256, data)| == HashedKeyLen
      modifies this
      ensures digest == rt.hash(Sha2_256, old(data))
      ensures data == []
    {
      digest := rt.hash(Sha2_256, data);
      data := [];
    }

    /** `Hasher::finish`: the 64-bit hash is unused by the HAMT and always 0. */
    method Finish() returns (h: u64)
      ensures h == 0
    {
      h := 0;
    }

    /** `Hasher::write`: append `bytes` to the buffer. */
    method Write(bytes: seq<byte>)
      modifies this
      ensures data == old(data) + bytes
    {
      data := data + bytes;
    }

    /** `rt_hash`: feed the key through its `Hash` implementation, whose
        output bytes are `hashBytes(key)`, then finalize. */
    method RtHash<X>(key: X, hashBytes: X -> seq<byte>) returns (digest: HashedKey)
      requires |rt.hash(Sha2_256, data + hashBytes(key))| == HashedKeyLen
      modifies this
      ensures digest == rt.hash(Sha2_256, old(data) + hashBytes(key))
      ensures data == []
    {
      Write(hashBytes(key));
      digest := Finalize();
    }
  }

  /** Hashing two keys in a row with one wrapper: each digest is that of its
      own key's bytes alone, and the buffer ends empty. */
  method HashTwoKeys<X>(w: Sha2HasherWrapper, a: X, b: X, hashBytes: X -> seq<byte>)
    returns (da: HashedKey, db: HashedKey)
    requires w.data == []
    requires |w.rt.hash(Sha2_256, hashBytes(a))| == HashedKeyLen
    requires |w.rt.hash(Sha2_256, hashBytes(b))| == HashedKeyLen
    modifies w
    ensures da == w.rt.hash(Sha2_256, hashBytes(a))
    ensures db == w.rt.hash(Sha2_256, hashBytes(b))
    ensures w.data == []
  {
    assert w.data + hashBytes(a) == hashBytes(a);
    da := w.RtHash(a, hashBytes);
    assert w.data + hashBytes(b) == hashBytes(b);
    db := w.RtHash(b, hashBytes);
  }
}
