/**
 * `RuntimeHasherWrapper`: a plain byte accumulator behind the streaming
 * `Hasher` interface.
 */
module RuntimeHashAlgorithm {
  import opened Bytes

  class RuntimeHasherWrapper {
    /** The wrapped `Vec<u8>`. */
    var bytes: seq<byte>

    /** `Default`: an empty vector. */
    constructor ()
      ensures bytes == []
    {
      bytes := [];
    }

    /** `Hasher::finish`: always 0; the 64-bit hash is unused by the HAMT. */
    method Finish() returns (h: u64)
      ensures h == 0
    {
      h := 0;
    }

    /** `Hasher::write`: append `written` after the bytes already held. */
    method Write(written: seq<byte>)
      modifies this
      ensures bytes == old(bytes) + written
    {
      bytes := bytes + written;
    }
  }
}
