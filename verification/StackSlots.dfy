/** What the forward engine stores in a stack slot it loads back, until something may have
  written there. */
module StackSlots {
  import opened Values
  import opened InsnModel
  import opened State
  import opened Addressing
  import opened Locators
  import opened ForwardSpec
  import opened ForwardStep
  import opened Agreement

  /** No forward locator takes the instruction, and it writes memory. */
  predicate TakesTheStorePath(e: Engine, instr: Instruction) {
    && !instr.IsCall() && MemoryOperand(instr, instr.operands, true).Some?
    && var loc := Dispatch(e.locators, instr); (loc.Some? ==> !DefinesForward(loc.value))
  }

  predicate TakesTheLoadPath(e: Engine, instr: Instruction) {
    && !instr.IsCall() && MemoryOperand(instr, instr.operands, true).None? && MemoryOperand(instr, instr.operands, false).Some?
    && var loc := Dispatch(e.locators, instr); (loc.Some? ==> !DefinesForward(loc.value))
  }

  /** The instruction assigns a register or a constant to the cell. */
  predicate Stores(e: Engine, func: int, instr: Instruction, cell: Cell, src: Operand) {
    && TakesTheStorePath(e, instr)
    && var dst := MemoryOperand(instr, instr.operands, true).value;
    && StackKey(e.port, dst, instr.ea, func) == Some(cell) && instr.IsPureDefinitionOf(dst.number)
    && OtherOperand(instr.operands, dst.number) == Some(src) && (src.kind == REG || src.kind == IMMEDIATE)
  }

  /** The instruction loads the cell into the whole of a register. */
  ghost predicate Loads(e: Engine, func: int, instr: Instruction, cell: Cell, r: int) {
    && TakesTheLoadPath(e, instr)
    && StackKey(e.port, MemoryOperand(instr, instr.operands, false).value, instr.ea, func) == Some(cell)
    && var dst := RegisterDestination(instr, instr.operands);
    && dst.Some? && dst.value.reg == Some(r) && instr.IsPureDefinitionOf(dst.value.number)
    && !PartiallyWrites(e.port, instr, instr.operands, r)
  }

  /** The instruction may change what the cell holds. */
  predicate MayStoreTo(e: Engine, func: int, instr: Instruction, cell: Cell) {
    && TakesTheStorePath(e, instr)
    && var dst := MemoryOperand(instr, instr.operands, true).value;
    && var key := StackKey(e.port, dst, instr.ea, func);
    if key.Some? then key.value == cell else IsStackRelative(e.port, dst)
  }

  lemma OthersKeepTheSlot(e: Engine, func: int, instr: Instruction, s: State, cell: Cell)
    requires !MayStoreTo(e, func, instr, cell)
    ensures Step(e, instr, func, s).Slot(cell) == s.Slot(cell)
  {
    PartialWritesAreDropped(e.port, instr, instr.operands, Transfer(e, instr, func, s));
    WrittenRegistersAreDropped(instr, instr.operands, s);
    var loc := Dispatch(e.locators, instr);
    hide ApplyForward, InvalidatePartial, InvalidateWritten, Dispatch, MemoryOperand, RegisterDestination, OtherOperand, StackKey;
    if !instr.IsCall() && loc.Some? && DefinesForward(loc.value) { ForwardKeepsSlots(loc.value, instr, s); }
  }

  lemma ForwardKeepsSlots(loc: Locator, instr: Instruction, s: State)
    requires Matches(loc, instr) && DefinesForward(loc)
    ensures ApplyForward(loc, instr, s).stack == s.stack
  {}

  lemma {:induction false} CodeKeepsTheSlot(e: Engine, func: int, code: seq<Instruction>, s: State, cell: Cell)
    requires forall instr :: instr in code ==> !MayStoreTo(e, func, instr, cell)
    ensures Forward(e, func, code, s).Slot(cell) == s.Slot(cell)
  {
    hide Step, MayStoreTo;
    if code != [] {
      var n := |code| - 1;
      assert code[n] in code;
      CodeKeepsTheSlot(e, func, code[..n], s, cell);
      OthersKeepTheSlot(e, func, code[n], Forward(e, func, code[..n], s), cell);
    }
  }

  lemma StoreSetsTheSlot(e: Engine, func: int, store: Instruction, s: State, cell: Cell, src: Operand)
    requires Stores(e, func, store, cell, src)
    ensures Step(e, store, func, s).Slot(cell) == if src.kind == REG then s.RegisterOf(src.reg) else Concrete(src.immValue, IntKind)
  {
    PartialWritesAreDropped(e.port, store, store.operands, Transfer(e, store, func, s));
  }

  lemma LoadSetsTheRegister(e: Engine, func: int, load: Instruction, s: State, cell: Cell, r: int)
    requires Loads(e, func, load, cell, r)
    ensures Step(e, load, func, s).Register(r) == s.Slot(cell)
  {
    PartialWritesAreDropped(e.port, load, load.operands, Transfer(e, load, func, s));
  }

  /** The operand is written, and may be read as well: its read flags are set, or missing. */
  predicate MayBeRead(instr: Instruction, number: int) { instr.operandRead == [] || instr.IsRead(number) }

  /** A store that is not known to be a plain assignment leaves the slot unknown. */
  lemma UnsureStoresAreForgotten(e: Engine, func: int, store: Instruction, s: State, cell: Cell)
    requires TakesTheStorePath(e, store)
    requires var dst := MemoryOperand(store, store.operands, true).value;
      StackKey(e.port, dst, store.ea, func) == Some(cell) && MayBeRead(store, dst.number)
    ensures Step(e, store, func, s).Slot(cell) == Unk(UNSUPPORTED_INSTRUCTION)
  {
    PartialWritesAreDropped(e.port, store, store.operands, Transfer(e, store, func, s));
  }

  /** And a load leaves its register unknown. */
  lemma UnsureLoadsAreForgotten(e: Engine, func: int, load: Instruction, s: State)
    requires TakesTheLoadPath(e, load) && RegisterDestination(load, load.operands).Some?
    requires var dst := RegisterDestination(load, load.operands).value; dst.reg.Some? && MayBeRead(load, dst.number)
    ensures !Step(e, load, func, s).RegisterOf(RegisterDestination(load, load.operands).value.reg).IsKnown()
  {
    PartialWritesAreDropped(e.port, load, load.operands, Transfer(e, load, func, s));
  }

  /** A store to a slot and a later load of it give the register back what was stored,
    whatever code lies between that cannot have written the slot. */
  lemma StoredValueIsLoadedBack(e: Engine, func: int, store: Instruction, between: seq<Instruction>, load: Instruction,
                                s: State, cell: Cell, src: Operand, r: int)
    requires Stores(e, func, store, cell, src) && Loads(e, func, load, cell, r)
    requires forall instr :: instr in between ==> !MayStoreTo(e, func, instr, cell)
    ensures Forward(e, func, [store] + between + [load], s).Register(r)
      == if src.kind == REG then s.RegisterOf(src.reg) else Concrete(src.immValue, IntKind)
  {
    hide Step, Stores, Loads, MayStoreTo;
    var stored, front := Step(e, store, func, s), [store] + between;
    StoreSetsTheSlot(e, func, store, s, cell, src);
    CodeKeepsTheSlot(e, func, between, stored, cell);
    ForwardFromTheFront(e, func, store, between, s);
    assert (front + [load])[..|front|] == front;
    LoadSetsTheRegister(e, func, load, Forward(e, func, front, s), cell, r);
  }
}
