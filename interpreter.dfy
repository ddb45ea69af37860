/**
 * The interpreter state the opcode handlers work on: 256-bit words, the
 * bounded operand stack, `ExecutionState`, the host context, and `System`
 * (contract storage plus the host).  Also the EVM address layout: an id
 * address is the 8-byte account id in the low-order bytes of an otherwise
 * zero 20-byte address, and an address is the low 20 bytes of a word.
 */
module Interpreter {
  import opened Wrappers
  import opened Bytes

  /** A 256-bit EVM word. */
  type U256 = w: nat | w < 0x1_0000_0000_0000_0000_0000_0000_0000_0000_0000_0000_0000_0000_0000_0000_0000_0000

  /** Maximum number of words on the operand stack. */
  const StackLimit: nat := 1024

  /** The handler error codes this model produces (`StatusCode`). */
  datatype StatusCode =
    | StackUnderflow
    | StackOverflow
    | BadAddress                 // a word that is not a 20-byte address
    | InternalError(detail: nat) // a storage (trie) failure reported by `System`

  /** Host capabilities a `todo!()` handler is waiting for. */
  datatype MissingFeature =
    | InclusionTipsetHash | PriorityFee | BlockTimestamp | GasLimitSyscall
    | ChainIdRegistration | BalanceSyscall | ContractCreation

  /** Why a handler panics instead of returning. */
  datatype PanicReason =
    | NotImplemented(missing: MissingFeature) // `todo!()`
    | NotAnIdAddress                          // `.id().unwrap()` on a non-id message address
    | NonIdBeneficiary                        // `.expect(..)` on a non-id beneficiary
    | NegativeEpoch                           // `U256::from` of a negative `i64`

  /** How a handler ends: `Ok(())`, `Err(code)`, or a panic (which aborts the call). */
  datatype Exit = Ok | Err(code: StatusCode) | Panic(reason: PanicReason)

  /** A stack operation's `Result<(), StatusCode>` as a handler result. */
  function ExitOf(o: Outcome<StatusCode>): (r: Exit)
    ensures r.Ok? <==> o.Pass?
    ensures o.Fail? ==> r == Err(o.error)
  {
    match o
    case Pass => Ok
    case Fail(e) => Err(e)
  }

  // ---------------------------------------------------------------------
  // Addresses.

  /** A chain (host) address: an id address or any other protocol. */
  datatype ChainAddress = Id(id: u64) | NonId(protocol: nat, payload: seq<byte>)

  const AddressLen: nat := 20
  /** Number of leading zero bytes of an id address. */
  const IdPrefixLen: nat := 12

  /** An EVM address: 20 bytes. */
  type EvmAddress = a: seq<byte> | |a| == AddressLen witness Zeros(20)

  /** `Address::from_id`: the 20-byte big-endian form of the id, which puts
      the id in the low-order bytes behind zeros. */
  function FromId(id: u64): (a: EvmAddress)
    ensures a == ToBigEndian(id, AddressLen)
  {
    Pow256Values();
    ToBigEndianWiden(id, IdPrefixLen, 8);
    Zeros(IdPrefixLen) + ToBigEndian(id, 8)
  }

  /** `Address::as_evm_word`: the address as a number below 2^160, whose
      20-byte encoding is the address again. */
  function AsEvmWord(a: EvmAddress): (w: U256)
    ensures w < Pow256(AddressLen) && ToBigEndian(w, AddressLen) == a
  {
    Pow256Values();
    Pow256Monotone(20, 32);
    ToFromBigEndian(a);
    FromBigEndian(a)
  }

  /** `Address::try_from(U256)`: the low 20 bytes of a word whose high 12 bytes
      are zero.  It fails exactly on words of 2^160 and above, and an address
      it returns reads back as the same word. */
  function TryFromWord(w: U256): (r: Result<EvmAddress, StatusCode>)
    ensures r.Success? <==> w < Pow256(AddressLen)
    ensures r.Failure? ==> r.error == BadAddress
    ensures r.Success? ==> r.value == ToBigEndian(w, AddressLen) && AsEvmWord(r.value) == w
  {
    Pow256Values();
    var b := ToBigEndian(w, 32);
    ZeroPrefix(b, 32 - AddressLen);
    ToFromBigEndian(b[32 - AddressLen..]);
    if b[..32 - AddressLen] == Zeros(32 - AddressLen) then Success(b[32 - AddressLen..]) else Failure(BadAddress)
  }

  /** `Address::as_id_address`: an address is an id address exactly when its
      value fits in 64 bits; the id is then that value, and embedding it gives
      the address back, so nothing is truncated. */
  function AsIdAddress(a: EvmAddress): (r: Option<u64>)
    ensures r.Some? <==> FromBigEndian(a) < Pow256(8)
    ensures r.Some? ==> r.value == FromBigEndian(a) && FromId(r.value) == a
  {
    Pow256Values();
    ZeroPrefix(a, IdPrefixLen);
    ToFromBigEndian(a);
    if a[..IdPrefixLen] == Zeros(IdPrefixLen) then Some(FromBigEndian(a[IdPrefixLen..])) else None
  }

  /** `Address::from_id(id).as_evm_word()`.  The id sits in the low-order
      bytes, so the word's value is the id itself. */
  function IdWord(id: u64): (w: U256)
    ensures w == id
  {
    Pow256Values();
    AsEvmWord(FromId(id))
  }

  /** An id word converts back to the same id address and id. */
  lemma IdWordRoundTrip(id: u64)
    ensures TryFromWord(IdWord(id)) == Success(FromId(id))
    ensures AsIdAddress(FromId(id)) == Some(id)
  {
    Pow256Values();
  }

  /** Distinct ids give distinct words. */
  lemma IdWordInjective(a: u64, b: u64)
    ensures IdWord(a) == IdWord(b) <==> a == b
  {
  }

  // ---------------------------------------------------------------------
  // The host context the handlers read.

  /** `rt.message()`. */
  datatype Message = Message(caller: ChainAddress, receiver: ChainAddress, origin: ChainAddress, valueReceived: U256)

  /** The host runtime's context: message, `curr_epoch`, `base_fee`, `current_balance`. */
  datatype Host = Host(message: Message, currEpoch: i64, baseFee: U256, currentBalance: U256)

  // ---------------------------------------------------------------------
  // The stack (the top is the last element).

  function Top(s: seq<U256>): U256
    requires s != []
  {
    s[|s| - 1]
  }

  function Below(s: seq<U256>): (b: seq<U256>)
    requires s != []
    ensures |b| == |s| - 1
  {
    s[..|s| - 1]
  }

  /** One `stack.push(x)` with result `r` took the stack from `before` to `after`. */
  ghost predicate Pushed(before: seq<U256>, after: seq<U256>, x: U256, r: Exit)
  {
    if |before| < StackLimit then r == Ok && after == before + [x]
    else r == Err(StackOverflow) && after == before
  }

  class Stack {
    var items: seq<U256>

    ghost predicate Valid()
      reads this
    {
      |items| <= StackLimit
    }

    constructor ()
      ensures Valid() && items == []
    {
      items := [];
    }

    /** `push`: fails with `StackOverflow` on a full stack. */
    method Push(x: U256) returns (r: Outcome<StatusCode>)
      requires Valid()
      modifies this
      ensures Valid()
      ensures Pushed(old(items), items, x, ExitOf(r))
    {
      if |items| == StackLimit {
        return Fail(StackOverflow);
      }
      items := items + [x];
      r := Pass;
    }

    /** `pop`: the top word; fails with `StackUnderflow` on an empty stack. */
    method Pop() returns (r: Result<U256, StatusCode>)
      requires Valid()
      modifies this
      ensures Valid()
      ensures old(items) == [] ==> r == Failure(StackUnderflow) && items == old(items)
      ensures old(items) != [] ==> r == Success(Top(old(items))) && items == Below(old(items))
    {
      if items == [] {
        return Failure(StackUnderflow);
      }
      r := Success(Top(items));
      items := Below(items);
    }

    /** The operands of `with2`: the top word and the one under it, both popped. */
    method Pop2() returns (r: Result<(U256, U256), StatusCode>)
      requires Valid()
      modifies this
      ensures Valid()
      ensures |old(items)| < 2 ==> r == Failure(StackUnderflow) && items == old(items)
      ensures |old(items)| >= 2 ==>
        r == Success((old(items)[|old(items)| - 1], old(items)[|old(items)| - 2]))
        && items == old(items)[..|old(items)| - 2]
    {
      if |items| < 2 {
        return Failure(StackUnderflow);
      }
      r := Success((items[|items| - 1], items[|items| - 2]));
      items := items[..|items| - 2];
    }
  }

  class ExecutionState {
    const stack: Stack
    /** The pending self-destruct beneficiary. */
    var selfdestroyed: Option<ChainAddress>

    constructor ()
      ensures fresh(stack) && stack.Valid() && stack.items == [] && selfdestroyed == None
    {
      stack := new Stack();
      selfdestroyed := None;
    }
  }

  /** `System`: the host runtime and the contract's storage map. */
  class System {
    const rt: Host
    var storage: map<U256, U256>

    constructor (rt: Host, storage: map<U256, U256>)
      ensures this.rt == rt && this.storage == storage
    {
      this.rt := rt;
      this.storage := storage;
    }

    /** `get_storage`: the stored word, `None` for an absent slot; `fault` is a trie failure. */
    method GetStorage(key: U256, fault: Option<StatusCode>) returns (r: Result<Option<U256>, StatusCode>)
      ensures fault.Some? ==> r == Failure(fault.value)
      ensures fault.None? ==> r.Success? && (r.value.None? <==> key !in storage)
      ensures fault.None? && key in storage ==> r.value == Some(storage[key])
    {
      if fault.Some? {
        return Failure(fault.value);
      }
      r := Success(if key in storage then Some(storage[key]) else None);
    }

    /** `set_storage`: `Some(v)` stores `v`, `None` deletes the slot. */
    method SetStorage(key: U256, value: Option<U256>, fault: Option<StatusCode>) returns (r: Outcome<StatusCode>)
      modifies this
      ensures fault.Some? ==> r == Fail(fault.value) && storage == old(storage)
      ensures fault.None? ==> r == Pass
      ensures fault.None? && value.None? ==> storage == old(storage) - {key}
      ensures fault.None? && value.Some? ==> storage == old(storage)[key := value.value]
    {
      if fault.Some? {
        return Fail(fault.value);
      }
      if value.None? {
        storage := storage - {key};
      } else {
        storage := storage[key := value.value];
      }
      r := Pass;
    }
  }
}
