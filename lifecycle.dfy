/**
 * `create` (not implemented) and `selfdestruct`, which only records the
 * beneficiary: no balance moves and neither storage nor the host is touched.
 */
module LifecycleInstructions {
  import opened Wrappers
  import opened Bytes
  import opened Interpreter

  /** `create` / `create2`: not implemented for either flavour. */
  method Create(state: ExecutionState, system: System, create2: bool) returns (r: Exit)
    ensures r == Panic(NotImplemented(ContractCreation))
  {
    r := Panic(NotImplemented(ContractCreation));
  }

  /** `selfdestruct`: pop the beneficiary word and record it when it is an id address. */
  method Selfdestruct(state: ExecutionState, system: System) returns (r: Exit)
    requires state.stack.Valid()
    modifies state, state.stack
    ensures state.stack.Valid()
    ensures old(state.stack.items) == [] ==>
      r == Err(StackUnderflow) && state.stack.items == [] && state.selfdestroyed == old(state.selfdestroyed)
    ensures old(state.stack.items) != [] ==> state.stack.items == Below(old(state.stack.items))
    ensures old(state.stack.items) != [] ==>
      match TryFromWord(Top(old(state.stack.items)))
      case Failure(e) => r == Err(e) && state.selfdestroyed == old(state.selfdestroyed)
      case Success(a) =>
        match AsIdAddress(a)
        case None => r == Panic(NonIdBeneficiary) && state.selfdestroyed == old(state.selfdestroyed)
        case Some(id) => r == Ok && state.selfdestroyed == Some(Id(id))
  {
    var beneficiary := state.stack.Pop();
    if beneficiary.Failure? {
      return Err(beneficiary.error);
    }
    var addr := TryFromWord(beneficiary.value);
    if addr.Failure? {
      return Err(addr.error);
    }
    var idAddr := AsIdAddress(addr.value);
    if idAddr.None? {
      return Panic(NonIdBeneficiary);
    }
    state.selfdestroyed := Some(Id(idAddr.value));
    r := Ok;
  }

  /** Self-destructing to the id word of account `id` records exactly that account. */
  method SelfdestructToId(state: ExecutionState, system: System, id: u64) returns (r: Exit)
    requires state.stack.Valid() && |state.stack.items| < StackLimit
    modifies state, state.stack
    ensures r == Ok && state.selfdestroyed == Some(Id(id))
    ensures state.stack.items == old(state.stack.items)
  {
    var pushed := state.stack.Push(IdWord(id));
    IdWordRoundTrip(id);
    r := Selfdestruct(state, system);
  }
}
