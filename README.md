# A Dafny model of the FEVM storage, context and lifecycle opcodes, the epoch-indexed SetMultimap and the HAMT hash adapters

This project models three small sequential components of the Filecoin
built-in actors:

* **SetMultimap** (`set_multimap.dfy`): an outer HAMT from chain epoch to the
  root of an inner HAMT Set of deal ids. The trie is content-addressed, so
  for one fixed hash algorithm and bit width the model stands for a Set's
  root by the set of its member keys and for the
  outer map by a finite map from encoded epoch to that set (`Table`). The
  class `SetMultimap` holds that map and updates it in place the way
  `put`, `put_many`, `remove` and `remove_all` do. The operations are
  specified by pure functions on `Table` (`Inserted`, `Removed`, `Cleared`)
  and by what `get` sees (`Entry`) and `for_each` decodes (`DealIds`).
  `for_each` runs in trie order, which the source does not fix: the method
  picks its members nondeterministically and returns, as a ghost result, the
  order it used. That order is proved to list every member exactly once. The
  result is then the traversal `Traverse`, which stops at the first parse or
  callback error. The `FnMut` callback is a function of the state it
  captures.
* **Numeric keys** (`uint_key.dfy`, `bytes.dfy`): `key as u64` sends an
  `i64` epoch to the `u64` with the same low 64 bits (two's complement).
  `u64_key` and `parse_uint_key` are defined outside the modelled files. The
  model assumes an 8-byte big-endian encoding with a parse that rejects
  other lengths, but the multimap's proofs use only two facts: parsing undoes
  encoding (`ParseU64Key`), and every member key is `Encoded`, meaning it is
  the `u64_key` of the number it parses to. The operations are proved to keep
  the second fact (`KeysEncodedPreserved`). Epoch keys are injective,
  negative epochs included.
* **EVM opcode handlers** (`interpreter.dfy`, `storage.dfy`, `context.dfy`,
  `lifecycle.dfy`, `state.dfy`). `ExecutionState` holds a bounded stack of
  256-bit words: push fails with `StackOverflow` at 1024 words and pop fails
  with `StackUnderflow` on an empty stack. It also holds the pending
  self-destruct beneficiary. `System` holds the contract storage map and an
  immutable host record (message addresses, value received, epoch, base fee,
  balance). A handler ends in `Ok`, in `Err(StatusCode)`, or in `Panic(reason)`
  for `todo!()`, `unwrap()` and `expect(..)`. `sstore` never writes a zero word
  (`Stored` keeps `ZeroIsAbsent`), and store-then-load gives back every word,
  zero included, whether or not storage held one.
* **Hash adapters** (`hamt_hash_algorithm.dfy`, `runtime_hash_algorithm.dfy`):
  byte accumulators. `Sha2HasherWrapper.finalize` returns the host's SHA-256
  digest of the buffer (FIPS PUB 180-4) and empties the buffer, so
  consecutive `rt_hash` calls do not leak into each other.

Inputs the model does not compute become parameters. The host's hash syscall
is the function `Runtime.hash`. The host context is the `Host` record. A
blockstore or trie failure is the `fault` argument of each trie-touching
operation: the error that operation hits, if any.

The handlers whose body is `todo!()` panic, so they end in
`Panic(NotImplemented(..))`, and the call is aborted. `remove` never prunes a
Set it has emptied: the entry stays, holding no members, as the code does.

Three helpers are not part of this model: `interpreter/address.rs`, the
`Stack` type and the key helpers of the runtime crate. The model assumes
these layouts for them:

- An id address is an otherwise zero 20-byte address with the 8-byte id in
  its low-order bytes.
- A word converts to an address when its high 12 bytes are zero.
- Numeric keys are fixed-width big-endian.
- `with2` pops the top word (the location, its closure's first argument)
  and the word under it (the value).

`U256::from(i64)` panics on a negative value, which `block_number` inherits.

## Model

| member | source | states |
|---|---|---|
| `SetMultimaps.SetMultimap.constructor` | runtime/src/util/set_multimap.rs:24-27 | `new` starts with no epoch entries |
| `SetMultimaps.SetMultimap.FromRoot` | runtime/src/util/set_multimap.rs:29-32 | opening a root yields a fresh multimap with exactly that root's contents, or the store's error |
| `SetMultimaps.SetMultimap.Root` | runtime/src/util/set_multimap.rs:34-38 | for a fixed hash algorithm and bit width, the root is determined by the contents, and flushing changes no entry; store errors propagate |
| `SetMultimaps.SetMultimap.Get` | runtime/src/util/set_multimap.rs:88-98 | reads only; `None` exactly when the epoch has no entry, otherwise that entry's Set; errors propagate |
| `SetMultimaps.SetMultimap.Put` | runtime/src/util/set_multimap.rs:40-61 | on success the table becomes `Inserted(old, key, [value])`; on error nothing changes |
| `SetMultimaps.SetMultimap.PutMany` | runtime/src/util/set_multimap.rs:63-86 | the loop adds every value to the one Set; the table becomes `Inserted(old, key, values)`; on error nothing changes |
| `SetMultimaps.SetMultimap.Remove` | runtime/src/util/set_multimap.rs:100-123 | a missing epoch is left as it is and `Ok` is returned; otherwise the table becomes `Removed(old, key, v)` |
| `SetMultimaps.SetMultimap.RemoveAll` | runtime/src/util/set_multimap.rs:125-135 | the table becomes `Cleared(old, key)` whether or not the epoch was present |
| `SetMultimaps.SetMultimap.ForEach` | runtime/src/util/set_multimap.rs:137-161 | absent epoch: `Ok`, callback never run; present: the result and the callback's final state are those of visiting each member exactly once, in some order |
| `SetMultimaps.InsertedEntry` | runtime/src/util/set_multimap.rs:74-84 | after `put_many` the epoch's entry is the old Set (or an empty one) joined with the batch's keys; every other epoch reads as before |
| `SetMultimaps.PutKeepsAndAdds` | runtime/src/util/set_multimap.rs:51-59 | after `put(k, v)` the entry is present, holds `v` among its deal ids and keeps every earlier member |
| `SetMultimaps.PutOnAbsentEpoch` | runtime/src/util/set_multimap.rs:51-59 | `put` on an epoch without an entry leaves exactly `{v}` |
| `SetMultimaps.PutManyNothing` | runtime/src/util/set_multimap.rs:74-84 | `put_many` with no values still creates the entry |
| `SetMultimaps.PutManyDealIds` | runtime/src/util/set_multimap.rs:76-78 | after `put_many` the epoch's deal ids are the old ones plus exactly the batch's values |
| `SetMultimaps.RemoveAbsentIsNoOp` | runtime/src/util/set_multimap.rs:112-115 | `remove` on an epoch without an entry leaves the table unchanged |
| `SetMultimaps.RemoveKeepsEntry` | runtime/src/util/set_multimap.rs:117-121 | `remove` takes out exactly the key `u64_key(v)`, keeps the entry even when it becomes empty, and leaves every other epoch alone |
| `SetMultimaps.RemoveDealIds` | runtime/src/util/set_multimap.rs:117-121 | on a table whose member keys are `Encoded`, `remove` drops exactly the deal id `v` |
| `SetMultimaps.KeysEncodedPreserved` | runtime/src/util/set_multimap.rs:24-135 | `new` holds only `Encoded` member keys, and `put_many` (hence `put`), `remove` and `remove_all` keep it so |
| `SetMultimaps.ClearedEntry` | runtime/src/util/set_multimap.rs:127-135 | after `remove_all` the epoch reads as absent; every other epoch reads as before |
| `SetMultimaps.Visit` | runtime/src/util/set_multimap.rs:154-160 | a member key that `parse_uint_key` rejects fails with `KeyParse` and leaves the callback's state untouched, so the callback is never run on it |
| `SetMultimaps.VisitKey` | runtime/src/util/set_multimap.rs:155-159 | the closure passes the callback exactly the deal id the member key encodes |
| `SetMultimaps.Traverse` | runtime/src/util/set_multimap.rs:154-160 | the Set traversal stops at the first `?`; a traversal that passes has parsed every member key |
| `SetMultimaps.TraverseSnoc` | runtime/src/util/set_multimap.rs:154-160 | while no visit has failed, each further member is parsed and passed to the callback in turn |
| `SetMultimaps.TraverseStops` | runtime/src/util/set_multimap.rs:154-160 | once a parse or callback error occurs, no later member is visited and that error is the result |
| `SetMultimaps.TraverseRecords` | runtime/src/util/set_multimap.rs:154-160 | with well-formed keys and a callback that never fails, the callback is called once per key, in order, with its decoded deal id |
| `SetMultimaps.CollectDealIds` | runtime/src/util/set_multimap.rs:138-161 | on a table of `Encoded` keys, collecting an epoch's deal ids through `for_each` succeeds and yields every deal id exactly once and nothing else |
| `UintKey.U64Key` | runtime/src/util/set_multimap.rs:53 | assumed body (8-byte big-endian): the key is 8 bytes long |
| `UintKey.ParseUintKey` | runtime/src/util/set_multimap.rs:155-156 | assumed body: accepts exactly the 8-byte keys and reports any other key as the parse error |
| `UintKey.ParseU64Key` | runtime/src/util/set_multimap.rs:155 | `parse_uint_key(u64_key(n))` is `n` |
| `UintKey.EncodedKey` | runtime/src/util/set_multimap.rs:53 | every key `u64_key` writes is `Encoded` and parses to its number; the proof uses only the left inverse |
| `UintKey.U64KeyInjective` | runtime/src/util/set_multimap.rs:53 | distinct deal ids have distinct member keys |
| `UintKey.EpochAsU64` | runtime/src/util/set_multimap.rs:59 | `key as u64` keeps the epoch's low 64 bits, and the result is below 2^63 exactly when the epoch is non-negative |
| `UintKey.EpochKey` | runtime/src/util/set_multimap.rs:59 | `u64_key(key as u64)` is an `Encoded` key that decodes to the epoch's two's-complement `u64`; the same key is used at lines 84, 94, 121 and 132 |
| `UintKey.EpochKeyInjective` | runtime/src/util/set_multimap.rs:59 | distinct epochs, negative ones included, have distinct outer keys after `key as u64` |
| `HamtHashAlgorithm.Sha2HasherWrapper.constructor` | runtime/src/util/hamt_hash_algorithm.rs:27-29 | `new` keeps the runtime and starts with an empty buffer |
| `HamtHashAlgorithm.Sha2HasherWrapper.Finalize` | runtime/src/util/hamt_hash_algorithm.rs:31-41 | returns the host SHA-256 digest of the buffer and empties it; requires the digest to be a `HashedKey` long |
| `HamtHashAlgorithm.Sha2HasherWrapper.Finish` | runtime/src/util/hamt_hash_algorithm.rs:49-52 | returns 0 and changes nothing |
| `HamtHashAlgorithm.Sha2HasherWrapper.Write` | runtime/src/util/hamt_hash_algorithm.rs:54-56 | appends the bytes to the buffer and changes nothing else |
| `HamtHashAlgorithm.Sha2HasherWrapper.RtHash` | runtime/src/util/hamt_hash_algorithm.rs:64-70 | returns the digest of the buffer followed by the key's bytes and leaves the buffer empty |
| `HamtHashAlgorithm.HashTwoKeys` | runtime/src/util/hamt_hash_algorithm.rs:64-70 | two consecutive `rt_hash` calls on one wrapper each give the digest of their own key's bytes alone |
| `RuntimeHashAlgorithm.RuntimeHasherWrapper.constructor` | runtime/src/runtime/hash_algorithm.rs:5-6 | `Default` holds no bytes |
| `RuntimeHashAlgorithm.RuntimeHasherWrapper.Finish` | runtime/src/runtime/hash_algorithm.rs:10-13 | returns 0 and leaves the bytes unchanged |
| `RuntimeHashAlgorithm.RuntimeHasherWrapper.Write` | runtime/src/runtime/hash_algorithm.rs:15-17 | appends after the bytes already held |
| `Interpreter.FromId` | actors/evm/src/interpreter/instructions/context.rs:31 | assumed layout: the id address is the 20-byte big-endian form of the id |
| `Interpreter.AsEvmWord` | actors/evm/src/interpreter/instructions/context.rs:31 | assumed layout: the word is below 2^160 and its 20-byte encoding is the address again |
| `Interpreter.TryFromWord` | actors/evm/src/interpreter/instructions/lifecycle.rs:32 | assumed layout: `try_from` fails with `BadAddress` exactly on words of 2^160 and above; otherwise the address is the word's 20-byte encoding and reads back as the same word |
| `Interpreter.AsIdAddress` | actors/evm/src/interpreter/instructions/lifecycle.rs:33 | assumed layout: an address is an id address exactly when its value fits in 64 bits; the id is that value, and embedding it gives the address back, so nothing is truncated |
| `Interpreter.IdWord` | actors/evm/src/interpreter/instructions/context.rs:31 | under the assumed layout, `Address::from_id(id).as_evm_word()` has the id as its value; the same word is pushed at lines 44 and 57 |
| `Interpreter.IdWordInjective` | actors/evm/src/interpreter/instructions/context.rs:31 | distinct ids push distinct words |
| `Interpreter.IdWordRoundTrip` | actors/evm/src/interpreter/instructions/lifecycle.rs:32-33 | an id word converts back to the same id address and id |
| `Interpreter.Stack.Push` | actors/evm/src/interpreter/instructions/state.rs:32 | appends the word, or fails with `StackOverflow` on a full stack and changes nothing |
| `Interpreter.Stack.Pop` | actors/evm/src/interpreter/instructions/lifecycle.rs:31 | removes and returns the top word, or fails with `StackUnderflow` on an empty stack |
| `Interpreter.Stack.Pop2` | actors/evm/src/interpreter/instructions/storage.rs:37 | `with2`'s operands: the top word (location) and the one under it (value), both popped; underflow under two words |
| `Interpreter.System.GetStorage` | actors/evm/src/interpreter/instructions/storage.rs:21 | `None` exactly for an absent slot, otherwise the stored word; a failure propagates |
| `Interpreter.System.SetStorage` | actors/evm/src/interpreter/instructions/storage.rs:40 | `None` deletes the slot, `Some(v)` stores `v`; no other slot changes |
| `StorageInstructions.Loaded` | actors/evm/src/interpreter/instructions/storage.rs:21-24 | an absent slot reads as zero; when storage has no zero words a read is zero exactly when the slot is absent |
| `StorageInstructions.Stored` | actors/evm/src/interpreter/instructions/storage.rs:37-40 | the slot then reads as the stored word, zero included; it is present exactly when the word is nonzero; other slots are unchanged; no zero words appear; storing zero at an absent slot changes nothing |
| `StorageInstructions.Sload` | actors/evm/src/interpreter/instructions/storage.rs:9-26 | pops the location and pushes its word, keeping the height; underflow pushes nothing; a storage error comes back after the pop with nothing pushed |
| `StorageInstructions.Sstore` | actors/evm/src/interpreter/instructions/storage.rs:28-43 | pops location and value and sets storage to `Stored(old, location, value)`; underflow changes nothing; a storage error leaves storage unchanged |
| `StorageInstructions.StoreThenLoad` | actors/evm/src/interpreter/instructions/storage.rs:18-40 | `sstore(k, v)` followed by `sload(k)` pushes `v` for every word `v` |
| `ContextInstructions.PushIdWord` | actors/evm/src/interpreter/instructions/context.rs:30-31 | a non-id message address panics before the stack changes; an id address pushes its id word |
| `ContextInstructions.PushValue` | actors/evm/src/interpreter/instructions/context.rs:69 | the handler returns the result of `state.stack.push(x)`: `x` on top, or `StackOverflow` on a full stack with nothing changed; the same push ends the handlers at lines 82, 118, 130 and 166 |
| `ContextInstructions.Blockhash` | actors/evm/src/interpreter/instructions/context.rs:9-19 | always panics as not implemented |
| `ContextInstructions.Caller` | actors/evm/src/interpreter/instructions/context.rs:21-32 | pushes the caller's id word, or panics on a non-id caller; only the stack changes |
| `ContextInstructions.Address` | actors/evm/src/interpreter/instructions/context.rs:34-45 | pushes the receiver's id word, or panics on a non-id receiver; only the stack changes |
| `ContextInstructions.Origin` | actors/evm/src/interpreter/instructions/context.rs:47-58 | pushes the origin's id word, or panics on a non-id origin; only the stack changes |
| `ContextInstructions.CallValue` | actors/evm/src/interpreter/instructions/context.rs:60-70 | pushes the value received; the result is the push's |
| `ContextInstructions.Coinbase` | actors/evm/src/interpreter/instructions/context.rs:72-83 | pushes zero whatever the host |
| `ContextInstructions.GasPrice` | actors/evm/src/interpreter/instructions/context.rs:85-95 | always panics as not implemented |
| `ContextInstructions.Timestamp` | actors/evm/src/interpreter/instructions/context.rs:97-107 | always panics as not implemented |
| `ContextInstructions.BlockNumber` | actors/evm/src/interpreter/instructions/context.rs:109-119 | pushes the current epoch; a negative epoch panics in the conversion before the stack changes |
| `ContextInstructions.Difficulty` | actors/evm/src/interpreter/instructions/context.rs:121-131 | pushes zero whatever the host |
| `ContextInstructions.GasLimit` | actors/evm/src/interpreter/instructions/context.rs:133-143 | always panics as not implemented |
| `ContextInstructions.ChainId` | actors/evm/src/interpreter/instructions/context.rs:145-155 | always panics as not implemented |
| `ContextInstructions.BaseFee` | actors/evm/src/interpreter/instructions/context.rs:157-167 | pushes the host base fee |
| `ContextInstructions.PushedGrowsByOne` | actors/evm/src/interpreter/instructions/context.rs:31 | after a successful push the old stack is a prefix of the new one, which is one word taller with the pushed word on top |
| `ContextInstructions.ContextReaders` | actors/evm/src/interpreter/instructions/context.rs:22-167 | caller, address, origin, call_value, block_number and base_fee on an empty stack push the caller, receiver and origin id words, the value, the epoch and the base fee, in that order |
| `LifecycleInstructions.Create` | actors/evm/src/interpreter/instructions/lifecycle.rs:9-20 | always panics as not implemented, for `create` and `create2` alike |
| `LifecycleInstructions.Selfdestruct` | actors/evm/src/interpreter/instructions/lifecycle.rs:22-36 | pops exactly one word, failing on an empty stack; a bad word returns `try_from`'s error; a non-id address panics; an id address is recorded as the beneficiary; storage and host are untouched |
| `LifecycleInstructions.SelfdestructToId` | actors/evm/src/interpreter/instructions/lifecycle.rs:31-34 | self-destructing to account `id`'s word records exactly account `id` |
| `StateInstructions.Balance` | actors/evm/src/interpreter/instructions/state.rs:9-19 | always panics as not implemented |
| `StateInstructions.SelfBalance` | actors/evm/src/interpreter/instructions/state.rs:21-33 | pushes the host's current balance unscaled; a full stack returns the push's `StackOverflow` unchanged |

## Left out

- HAMT internals, node encoding, the blockstore and CIDs: foreign crates. A root is identified with the contents it addresses.
- The `hash_algo` argument of every SetMultimap operation is dropped. The model assumes one hash algorithm and one bit width (`HAMT_BIT_WIDTH`) for every operation on a multimap and its Sets. So it does not capture a `get` that misses an entry because it uses a different algorithm from the `put` that wrote it.
- Where in an operation a trie error arises: each operation takes a single `fault`, raised before any change. That is observably the same for `put`, `remove` and `remove_all`, which write the outer map last.
- SetMultimaps.SetMultimap.ForEach: does not model a trie error raised partway through the traversal of the inner Set, only one raised while opening it.
- SetMultimaps.SetMultimap.PutMany: a trie error from one of the per-value `put` calls is modelled as the single `fault` of the operation.
- SHA-256 itself: the host computes it, so the model uses the host's `hash` function as given.
- UintKey.ParseUintKey: rejecting every key that is not 8 bytes long is an assumed body, since `parse_uint_key` is defined outside these files. No multimap property depends on it; `RemoveDealIds` and `CollectDealIds` rely on `KeysEncoded` instead. So a store holding keys the multimap did not write may decode differently from the model.
- UintKey.U64Key: the 8-byte big-endian layout is an assumed body, for the same reason. The text of the "Could not parse key" message is not modelled.
- `interpreter/address.rs`, the `Stack` type and `interpreter/system.rs` are not part of this model. Their behaviour is the layouts and map operations described above.
- `U256::from(&TokenAmount)`: the value received, base fee and balance are taken from the host already as words.
- The memory region of `ExecutionState`, the dispatch loop, gas metering, contract creation and message routing: outside the modelled handlers.
- `ext.rs` and `log.rs`: every handler there is `todo!()`.
- Panics are an outcome of the handler, not a process abort. Rust's unwinding and the changes that a later rollback undoes are not modelled.
