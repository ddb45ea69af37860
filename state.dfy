/** `balance` (not implemented) and `selfbalance`. */
module StateInstructions {
  import opened Interpreter

  method Balance(state: ExecutionState, system: System) returns (r: Exit)
    ensures r == Panic(NotImplemented(BalanceSyscall))
  {
    r := Panic(NotImplemented(BalanceSyscall));
  }

  /** `selfbalance`: the receiver's balance in atto units, pushed unscaled. */
  method SelfBalance(state: ExecutionState, system: System) returns (r: Exit)
    requires state.stack.Valid()
    modifies state.stack
    ensures state.stack.Valid()
    ensures Pushed(old(state.stack.items), state.stack.items, system.rt.currentBalance, r)
  {
    var pushed := state.stack.Push(system.rt.currentBalance);
    r := ExitOf(pushed);
  }
}
