/**
 * Context readers: each pushes one word read from the host, or panics
 * before touching the stack.  None of them changes anything but the stack.
 */
module ContextInstructions {
  import opened Bytes
  import opened Interpreter

  /** Push the id word of a message address (`addr.id().unwrap()`, then `from_id(..).as_evm_word()`). */
  method PushIdWord(state: ExecutionState, addr: ChainAddress) returns (r: Exit)
    requires state.stack.Valid()
    modifies state.stack
    ensures state.stack.Valid()
    ensures addr.NonId? ==> r == Panic(NotAnIdAddress) && state.stack.items == old(state.stack.items)
    ensures addr.Id? ==> Pushed(old(state.stack.items), state.stack.items, IdWord(addr.id), r)
  {
    if addr.NonId? {
      return Panic(NotAnIdAddress);
    }
    var pushed := state.stack.Push(IdWord(addr.id));
    r := ExitOf(pushed);
  }

  /** Push `x`; the result is the push's result. */
  method PushValue(state: ExecutionState, x: U256) returns (r: Exit)
    requires state.stack.Valid()
    modifies state.stack
    ensures state.stack.Valid()
    ensures Pushed(old(state.stack.items), state.stack.items, x, r)
  {
    var pushed := state.stack.Push(x);
    r := ExitOf(pushed);
  }

  method Blockhash(state: ExecutionState, system: System) returns (r: Exit)
    ensures r == Panic(NotImplemented(InclusionTipsetHash))
  {
    r := Panic(NotImplemented(InclusionTipsetHash));
  }

  /** `caller`: the caller's id word. */
  method Caller(state: ExecutionState, system: System) returns (r: Exit)
    requires state.stack.Valid()
    modifies state.stack
    ensures state.stack.Valid()
    ensures system.rt.message.caller.NonId? ==> r == Panic(NotAnIdAddress) && state.stack.items == old(state.stack.items)
    ensures system.rt.message.caller.Id? ==>
      Pushed(old(state.stack.items), state.stack.items, IdWord(system.rt.message.caller.id), r)
  {
    r := PushIdWord(state, system.rt.message.caller);
  }

  /** `address`: the receiver's id word. */
  method Address(state: ExecutionState, system: System) returns (r: Exit)
    requires state.stack.Valid()
    modifies state.stack
    ensures state.stack.Valid()
    ensures system.rt.message.receiver.NonId? ==> r == Panic(NotAnIdAddress) && state.stack.items == old(state.stack.items)
    ensures system.rt.message.receiver.Id? ==>
      Pushed(old(state.stack.items), state.stack.items, IdWord(system.rt.message.receiver.id), r)
  {
    r := PushIdWord(state, system.rt.message.receiver);
  }

  /** `origin`: the origin's id word. */
  method Origin(state: ExecutionState, system: System) returns (r: Exit)
    requires state.stack.Valid()
    modifies state.stack
    ensures state.stack.Valid()
    ensures system.rt.message.origin.NonId? ==> r == Panic(NotAnIdAddress) && state.stack.items == old(state.stack.items)
    ensures system.rt.message.origin.Id? ==>
      Pushed(old(state.stack.items), state.stack.items, IdWord(system.rt.message.origin.id), r)
  {
    r := PushIdWord(state, system.rt.message.origin);
  }

  /** `call_value`: the value received with the message. */
  method CallValue(state: ExecutionState, system: System) returns (r: Exit)
    requires state.stack.Valid()
    modifies state.stack
    ensures state.stack.Valid()
    ensures Pushed(old(state.stack.items), state.stack.items, system.rt.message.valueReceived, r)
  {
    r := PushValue(state, system.rt.message.valueReceived);
  }

  /** `coinbase`: always zero, whatever the host. */
  method Coinbase(state: ExecutionState, system: System) returns (r: Exit)
    requires state.stack.Valid()
    modifies state.stack
    ensures state.stack.Valid()
    ensures Pushed(old(state.stack.items), state.stack.items, 0, r)
  {
    r := PushValue(state, 0);
  }

  method GasPrice(state: ExecutionState, system: System) returns (r: Exit)
    ensures r == Panic(NotImplemented(PriorityFee))
  {
    r := Panic(NotImplemented(PriorityFee));
  }

  method Timestamp(state: ExecutionState, system: System) returns (r: Exit)
    ensures r == Panic(NotImplemented(BlockTimestamp))
  {
    r := Panic(NotImplemented(BlockTimestamp));
  }

  /** `block_number`: the current epoch; `U256::from` panics on a negative `i64`. */
  method BlockNumber(state: ExecutionState, system: System) returns (r: Exit)
    requires state.stack.Valid()
    modifies state.stack
    ensures state.stack.Valid()
    ensures system.rt.currEpoch < 0 ==> r == Panic(NegativeEpoch) && state.stack.items == old(state.stack.items)
    ensures system.rt.currEpoch >= 0 ==> Pushed(old(state.stack.items), state.stack.items, system.rt.currEpoch, r)
  {
    if system.rt.currEpoch < 0 {
      return Panic(NegativeEpoch);
    }
    r := PushValue(state, system.rt.currEpoch);
  }

  /** `difficulty`: always zero, whatever the host. */
  method Difficulty(state: ExecutionState, system: System) returns (r: Exit)
    requires state.stack.Valid()
    modifies state.stack
    ensures state.stack.Valid()
    ensures Pushed(old(state.stack.items), state.stack.items, 0, r)
  {
    r := PushValue(state, 0);
  }

  method GasLimit(state: ExecutionState, system: System) returns (r: Exit)
    ensures r == Panic(NotImplemented(GasLimitSyscall))
  {
    r := Panic(NotImplemented(GasLimitSyscall));
  }

  method ChainId(state: ExecutionState, system: System) returns (r: Exit)
    ensures r == Panic(NotImplemented(ChainIdRegistration))
  {
    r := Panic(NotImplemented(ChainIdRegistration));
  }

  /** `base_fee`: the host base fee. */
  method BaseFee(state: ExecutionState, system: System) returns (r: Exit)
    requires state.stack.Valid()
    modifies state.stack
    ensures state.stack.Valid()
    ensures Pushed(old(state.stack.items), state.stack.items, system.rt.baseFee, r)
  {
    r := PushValue(state, system.rt.baseFee);
  }

  /** A successful push leaves the old stack as a prefix, one word shorter. */
  lemma PushedGrowsByOne(before: seq<U256>, after: seq<U256>, x: U256)
    requires Pushed(before, after, x, Ok)
    ensures |after| == |before| + 1
    ensures after[..|before|] == before && Top(after) == x
  {
  }

  /** Running caller, address, origin, call_value, block_number and base_fee
      on an empty stack pushes the six host words in that order. */
  method ContextReaders(callerId: u64, receiverId: u64, originId: u64, value: U256, epoch: i64, baseFee: U256)
    returns (words: seq<U256>)
    requires epoch >= 0
    ensures words == [IdWord(callerId), IdWord(receiverId), IdWord(originId), value, epoch, baseFee]
  {
    var msg := Message(Id(callerId), Id(receiverId), Id(originId), value);
    var system := new System(Host(msg, epoch, baseFee, 0), map[]);
    var state := new ExecutionState();
    var r := Caller(state, system);
    r := Address(state, system);
    r := Origin(state, system);
    r := CallValue(state, system);
    r := BlockNumber(state, system);
    r := BaseFee(state, system);
    words := state.stack.items;
  }
}
