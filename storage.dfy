/**
 * `sload` / `sstore`.  Storage holds no zero words: a zero slot is an absent
 * slot, so every word, zero included, round-trips through store and load.
 */
module StorageInstructions {
  import opened Wrappers
  import opened Interpreter

  /** No slot holds an explicit zero. */
  ghost predicate ZeroIsAbsent(storage: map<U256, U256>)
  {
    forall k :: k in storage ==> storage[k] != 0
  }

  /** The word `sload` pushes for `key`: the stored word, zero when absent. */
  function Loaded(storage: map<U256, U256>, key: U256): (v: U256)
    ensures key !in storage ==> v == 0
    ensures ZeroIsAbsent(storage) ==> (v == 0 <==> key !in storage)
  {
    if key in storage then storage[key] else 0
  }

  /** Storage after `sstore(key, value)`: zero deletes the slot, any other word is stored verbatim. */
  function Stored(storage: map<U256, U256>, key: U256, value: U256): (r: map<U256, U256>)
    ensures Loaded(r, key) == value
    ensures key in r <==> value != 0
    ensures forall other :: other != key ==> (other in r <==> other in storage)
    ensures forall other :: other != key && other in storage ==> r[other] == storage[other]
    ensures ZeroIsAbsent(storage) ==> ZeroIsAbsent(r)
    ensures value == 0 && key !in storage ==> r == storage
  {
    if value == 0 then storage - {key} else storage[key := value]
  }

  /** `sload`: pop the location, push the word stored there (zero if absent).
      A storage failure is returned after the pop, with nothing pushed. */
  method Sload(state: ExecutionState, system: System, fault: Option<StatusCode>) returns (r: Exit)
    requires state.stack.Valid()
    modifies state.stack
    ensures state.stack.Valid()
    ensures old(state.stack.items) == [] ==> r == Err(StackUnderflow) && state.stack.items == []
    ensures old(state.stack.items) != [] && fault.Some? ==>
      r == Err(fault.value) && state.stack.items == Below(old(state.stack.items))
    ensures old(state.stack.items) != [] && fault.None? ==>
      r == Ok && state.stack.items == Below(old(state.stack.items)) + [Loaded(system.storage, Top(old(state.stack.items)))]
  {
    var location := state.stack.Pop();
    if location.Failure? {
      return Err(location.error);
    }
    var found := system.GetStorage(location.value, fault);
    if found.Failure? {
      return Err(found.error);
    }
    var value := if found.value.Some? then found.value.value else 0;
    var pushed := state.stack.Push(value);
    r := ExitOf(pushed);
  }

  /** `sstore`: with location on top and value under it, store the value,
      deleting the slot when it is zero. */
  method Sstore(state: ExecutionState, system: System, fault: Option<StatusCode>) returns (r: Exit)
    requires state.stack.Valid()
    modifies state.stack, system
    ensures state.stack.Valid()
    ensures |old(state.stack.items)| < 2 ==>
      r == Err(StackUnderflow) && state.stack.items == old(state.stack.items) && system.storage == old(system.storage)
    ensures |old(state.stack.items)| >= 2 ==>
      state.stack.items == old(state.stack.items)[..|old(state.stack.items)| - 2]
    ensures |old(state.stack.items)| >= 2 && fault.Some? ==>
      r == Err(fault.value) && system.storage == old(system.storage)
    ensures |old(state.stack.items)| >= 2 && fault.None? ==>
      var n := |old(state.stack.items)|;
      r == Ok && system.storage == Stored(old(system.storage), old(state.stack.items)[n - 1], old(state.stack.items)[n - 2])
  {
    var operands := state.stack.Pop2();
    if operands.Failure? {
      return Err(operands.error);
    }
    var (location, value) := operands.value;
    var optValue := if value == 0 then None else Some(value);
    var stored := system.SetStorage(location, optValue, fault);
    r := ExitOf(stored);
  }

  /** Storing `value` at `key` then loading `key` pushes `value`, zero included. */
  method StoreThenLoad(state: ExecutionState, system: System, key: U256, value: U256) returns (loaded: Exit, top: U256)
    requires state.stack.Valid() && |state.stack.items| + 2 <= StackLimit
    modifies state.stack, system
    ensures loaded == Ok
    ensures top == value
    ensures state.stack.items == old(state.stack.items) + [value]
    ensures system.storage == Stored(old(system.storage), key, value)
  {
    var p1 := state.stack.Push(value);
    var p2 := state.stack.Push(key);
    var stored := Sstore(state, system, None);
    assert stored == Ok;
    var p3 := state.stack.Push(key);
    loaded := Sload(state, system, None);
    top := Top(state.stack.items);
  }
}
