/** Where the code falls short of what it is for, and exactly when it does not.

  Each part names a guarantee that fails on some inputs and the condition, on the
  instruction or the query alone, under which it holds for all of them. */
module Limits {
  import opened Values
  import opened InsnModel
  import opened Port
  import opened State
  import opened Addressing
  import opened Locators
  import opened Arithmetic
  import opened Machine
  import opened ForwardSpec
  import opened ForwardStep
  import opened BackwardSpec
  import opened NoStaleBits
  import opened StackSlots
  import FakePort

  // -- the backward `add` and `sub` pass a symbol on unadjusted --------------------------------

  /** After `add reg, delta` the register holds `word + delta`, and the backward walk still
    calls it by the symbol of what it held before. */
  ghost predicate KeepsTheSymbol(index: int, delta: int, size: int) {
    forall word :: FitsWord(word, 8 * WidthOf(size)) ==>
      Means(Folded(Adjust(delta, size), Symbolic(Arg(index))), WrapToWidth(word + delta, size), {}, word)
  }

  lemma AddingKeepsWord(word: int, delta: int, m: nat)
    requires 0 <= word < m && delta % m == 0
    ensures (word + delta) % m == word
  {
    ModDropsMultiples(word, delta / m, m);
    DivisionIsUnique(word, m, 0, word);
  }

  /** That is right exactly when the amount is a multiple of the width's modulus.  The
    forward engine drops the symbol instead. */
  lemma SymbolsSurviveOnlyZeroSums(index: int, delta: int, size: int)
    ensures KeepsTheSymbol(index, delta, size) <==> delta % Pow2(8 * WidthOf(size)) == 0
    ensures ForwardAdjust(delta, size, Symbolic(Arg(index))).Unknown?
  {
    hide Pow2, WidthOf;
    var m := Pow2(8 * WidthOf(size));
    if delta % m == 0 {
      forall word | FitsWord(word, 8 * WidthOf(size)) ensures WrapToWidth(word + delta, size) == word {
        AddingKeepsWord(word, delta, m);
      }
    } else {
      assert FitsWord(0, 8 * WidthOf(size));
      assert WrapToWidth(0 + delta, size) != 0;
    }
  }

  // -- a definition is matched without looking at where the query starts --------------------------

  predicate CoversBits(write: RegisterView, query: RegisterView) {
    write.bitOffset <= query.bitOffset && query.bitOffset + query.bitSize <= write.bitOffset + write.bitSize
  }

  /** Every partial write of the query's register is taken for its definition exactly if
    it covers the bits asked for. */
  ghost predicate MatchesWhatCovers(query: RegisterView) {
    forall port: IdaPort, instr: Instruction, op: Operand, reg: int ::
      && op.kind == REG && op.reg.Some? && instr.IsWritten(op.number)
      && port.registerView(reg, 0) == Some(query)
      && port.registerView(op.reg.value, op.dtypeSize).Some?
      && !port.registerView(op.reg.value, op.dtypeSize).value.writeDefinesParent
      && port.registerView(op.reg.value, op.dtypeSize).value.parent == query.parent
      ==> (DecideOperand(port, instr, op, reg).Define? <==>
             CoversBits(port.registerView(op.reg.value, op.dtypeSize).value, query))
  }

  /** So a write of `al` is taken for a definition of `ah`. */
  lemma LowByteIsTakenForHigh(f: FakePort.Fake, instr: Instruction, op: Operand)
    requires op.kind == REG && op.reg == Some(16) && instr.IsWritten(op.number)
    ensures var port := FakePort.AsPort(f);
      && DecideOperand(port, instr, op, 20) == Define(op.number)
      && !CoversBits(port.registerView(16, op.dtypeSize).value, port.registerView(20, 0).value)
  {}

  lemma LowQueriesAreMatchedRight(query: RegisterView)
    requires query.bitOffset == 0
    ensures MatchesWhatCovers(query)
  {}

  lemma HighQueriesAreNot(query: RegisterView)
    requires query.bitOffset > 0
    ensures !MatchesWhatCovers(query)
  {
    var write := RegisterView(query.parent, 0, query.bitSize, query.parentBitSize, false);
    var f := FakePort.Fake(8, map[], map[], [], map[], map[], map[], map[]);
    var port := FakePort.AsPort(f).(registerView := (reg, size) => Some(if reg == 0 then query else write));
    var op := Operand(REG, 0, Some(1), None, 0, 0, 0, 1, None);
    var instr := Instruction(0, "mov", 1, [op], [true], [false], false);
    assert port.registerView(0, 0) == Some(query) && port.registerView(op.reg.value, op.dtypeSize) == Some(write);
    assert instr.IsWritten(0);
    assert DecideOperand(port, instr, op, 0).Define? && !CoversBits(write, query);
  }

  /** The match is right exactly for queries that start at bit 0 of their register. */
  lemma CoverageIsTestedOnlyFromBitZero(query: RegisterView)
    ensures MatchesWhatCovers(query) <==> query.bitOffset == 0
  {
    if query.bitOffset == 0 { LowQueriesAreMatchedRight(query); } else { HighQueriesAreNot(query); }
  }

  // -- a store, such as `xchg [rbp-8], rax`, keeps what was known of the registers it also writes -----

  /** The register's old value is dropped, whatever it was, exactly when the write is a
    partial one. */
  lemma StoresForgetOnlyPartialWrites(e: Engine, func: int, instr: Instruction, r: int)
    requires TakesTheStorePath(e, instr) && NamedAsWritten(instr, r)
    ensures (forall s :: Step(e, instr, func, s).Register(r).Unknown?) <==> PartiallyWrites(e.port, instr, instr.operands, r)
    ensures !PartiallyWrites(e.port, instr, instr.operands, r) ==> forall s :: Step(e, instr, func, s).Register(r) == s.Register(r)
  {
    forall s ensures Step(e, instr, func, s).Register(r)
      == (if PartiallyWrites(e.port, instr, instr.operands, r) then Unk(UNSUPPORTED_OPERAND_SHAPE) else s.Register(r))
    {
      PartialWritesAreDropped(e.port, instr, instr.operands, Transfer(e, instr, func, s));
    }
    var known := EMPTY.With(Some(r), Concrete(0, IntKind));
    assert Step(e, instr, func, known).Register(r).Unknown? <==> PartiallyWrites(e.port, instr, instr.operands, r);
  }

  function XchgWithFrame(ea: int, reg: int): Instruction {
    var cell := Operand(MEM_DISPL, 0, Some(5), None, -8, 0, 0, 8, None);
    Instruction(ea, "xchg", 4, [cell, Operand(REG, 1, Some(reg), None, 0, 0, 0, 8, None)], [true, true], [true, true], false)
  }

  /** After `xchg [rbp-8], rax` the engine still takes `rax` to hold what it held. */
  lemma XchgWithMemoryKeepsTheOldValue(e: Engine, f: FakePort.Fake, func: int, ea: int, before: Value)
    requires e.port == FakePort.AsPort(f) && f.pointerSize == 8 && 0 in f.registers.Values
    ensures var instr := XchgWithFrame(ea, 0);
      NamedAsWritten(instr, 0) && Step(e, instr, func, EMPTY.With(Some(0), before)).Register(0) == before
  {
    var instr := XchgWithFrame(ea, 0);
    assert !instr.IsCall() && forall loc :: !Matches(loc, instr) by { assert instr.mnem[0] == 'x'; }
    assert instr.operands[0] in instr.operands && instr.IsWritten(0);
    assert instr.operands[1] in instr.operands && instr.IsWritten(1);
    forall op | op in instr.operands ensures !PartialWrite(e.port, instr, op) {}
    StoresForgetOnlyPartialWrites(e, func, instr, 0);
  }

  // -- whatever defines a register from a slot is taken for a load of the slot ------------------------

  function ImulFromFrame(ea: int, factor: int): Instruction {
    var dst, cell := Operand(REG, 0, Some(0), None, 0, 0, 0, 8, None), Operand(MEM_DISPL, 1, Some(5), None, -8, 0, 0, 8, None);
    Instruction(ea, "imul", 5, [dst, cell, Operand(IMMEDIATE, 2, None, None, 0, 0, factor, 8, None)],
                [true, false, false], [false, true, true], false)
  }

  lemma {:induction false} FlagAtPosition(ops: seq<Operand>, flags: seq<bool>, base: nat, i: nat)
    requires i < |ops| == |flags| && forall k :: 0 <= k < |ops| ==> ops[k].number == base + k
    ensures Flag(ops, flags, base + i) == flags[i]
  {
    if i > 0 { FlagAtPosition(ops[1..], flags[1..], base + 1, i - 1); }
  }

  lemma ImulIsDecoded(ea: int, factor: int)
    ensures var instr := ImulFromFrame(ea, factor);
      && !instr.IsCall() && (forall loc :: !Matches(loc, instr))
      && instr.IsPureDefinitionOf(0) && !instr.IsWritten(1) && !instr.IsWritten(2)
  {
    var instr := ImulFromFrame(ea, factor);
    assert instr.mnem[0] == 'i';
    FlagAtPosition(instr.operands, instr.operandWritten, 0, 0);
    FlagAtPosition(instr.operands, instr.operandWritten, 0, 1);
    FlagAtPosition(instr.operands, instr.operandWritten, 0, 2);
    FlagAtPosition(instr.operands, instr.operandRead, 0, 0);
  }

  lemma ImulIsALoad(e: Engine, f: FakePort.Fake, func: int, ea: int, factor: int)
    requires e.port == FakePort.AsPort(f) && f.pointerSize == 8 && 0 in f.registers.Values
    requires "rbp" in f.registers && f.registers["rbp"] == 5 && ("rsp" in f.registers ==> f.registers["rsp"] != 5)
    ensures Loads(e, func, ImulFromFrame(ea, factor), Cell(FramePointer, -8), 0)
  {
    ImulIsDecoded(ea, factor);
    hide Matches, StartsWith, Flag;
    var instr := ImulFromFrame(ea, factor);
    var dst, cell := instr.operands[0], instr.operands[1];
    assert instr.operands[..2] == [dst, cell];
    assert MemoryOperand(instr, instr.operands, false) == MemoryOperand(instr, [dst, cell], false) == Some(cell);
    forall op | op in instr.operands ensures !PartialWrite(e.port, instr, op) {}
  }

  /** So after `imul rax, [rbp-8], factor` the engine takes `rax` for what the slot holds:
    right for every word exactly when the factor is one, modulo the width. */
  lemma ImulIsTakenForALoad(e: Engine, f: FakePort.Fake, func: int, ea: int, factor: int, s: State)
    requires e.port == FakePort.AsPort(f) && f.pointerSize == 8 && 0 in f.registers.Values
    requires "rbp" in f.registers && f.registers["rbp"] == 5 && ("rsp" in f.registers ==> f.registers["rsp"] != 5)
    ensures Step(e, ImulFromFrame(ea, factor), func, s).Register(0) == s.Slot(Cell(FramePointer, -8))
    ensures (forall word :: FitsWord(word, 64) ==> (word * factor) % Pow2(64) == word) <==> factor % Pow2(64) == 1
  {
    ImulIsALoad(e, f, func, ea, factor);
    LoadSetsTheRegister(e, func, ImulFromFrame(ea, factor), s, Cell(FramePointer, -8), 0);
    hide Step, Loads, Pow2;
    var m := Pow2(64);
    MultiplyingKeepsWords(factor, m);
    assert m > 1 by { Pow2Doubles(63); }
    if forall word :: FitsWord(word, 64) ==> (word * factor) % m == word {
      assert FitsWord(1, 64) && (1 * factor) % m == 1;
    }
  }

  lemma Pow2Doubles(n: nat)
    ensures Pow2(n + 1) == 2 * Pow2(n) && Pow2(n) >= 1
  {}

  lemma MultiplyingKeepsWords(factor: int, m: nat)
    requires m > 0
    ensures factor % m == 1 ==> forall word :: 0 <= word < m ==> (word * factor) % m == word
  {
    if factor % m == 1 {
      forall word | 0 <= word < m ensures (word * factor) % m == word {
        var q := factor / m;
        assert factor == q * m + 1;
        assert word * factor == (word * q) * m + word;
        DivisionIsUnique(word * factor, m, word * q, word);
      }
    }
  }

  // -- a stack reference without a delta matches itself -----------------------------------------------

  /** Said to match nothing, including itself; it matches exactly itself: the walk comes
    upon its own address when it goes round a loop. */
  lemma UnknownDeltaMatchesItself(port: IdaPort, func: int, instr: Instruction, op: Operand, disp: int, ea: int)
    requires port.stackPointerReg.Some? && port.spDelta(func, ea).None?
    requires op.IsBased() && op.reg == port.stackPointerReg && instr.IsWritten(op.number) && !op.HasSegment() && !op.HasIndex()
    ensures var cell := MemoryLocation(port, port.stackPointerReg, disp, ea, func);
      DecideStore(port, instr, op, func, cell) == Define(op.number) <==> instr.ea == ea && op.disp == disp
  {}

  lemma NothingElseMatchesAnUnknownDelta(port: IdaPort, func: int, instr: Instruction, disp: int, ea: int)
    requires port.stackPointerReg.Some? && port.spDelta(func, ea).None?
    requires Decide(port, Memory(MemoryLocation(port, port.stackPointerReg, disp, ea, func)), instr, func) != Skip
    ensures instr.ea == ea
  {
    var cell := MemoryLocation(port, port.stackPointerReg, disp, ea, func);
    var op :| op in instr.operands && DecideStore(port, instr, op, func, cell) != Skip;
    assert OperandCell(port, op, instr.ea, func).space == StackUnknown(ea);
  }
}
