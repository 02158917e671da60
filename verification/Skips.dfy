/** What the backward walk passes by: right exactly when the instruction writes nothing that
  its operands do not say. */
module Skips {
  import opened InsnModel
  import opened Port
  import opened State
  import opened Addressing
  import opened Locators
  import opened Arithmetic
  import opened StackEffects
  import opened Registry
  import opened Machine
  import opened Progress
  import opened BackwardSpec
  import opened ReachingDefs
  import opened BackwardSoundness

  /** Whatever the machine does for the instruction, the target keeps its value. */
  ghost predicate LeavesAlone(port: IdaPort, func: int, instr: Instruction, t: Target) {
    forall m, m' :: InRange(port, m) && Executes(port, func, instr, m, m') ==> ValueOf(t, m') == ValueOf(t, m)
  }

  // -- what an instruction computes depends only on where it openly writes -----------------------

  ghost predicate SameWhereWritten(port: IdaPort, func: int, instr: Instruction, m: MState, n: MState) {
    && (forall r :: WritesRegister(port, instr, r) ==> n.Reg(r) == m.Reg(r))
    && (forall c :: WritesCell(port, func, instr, c) ==> n.Mem(c) == m.Mem(c))
  }

  lemma SetsAlike(port: IdaPort, func: int, instr: Instruction, op: Operand, value: int, m: MState, n: MState)
    requires LayoutContract(port) && SameWhereWritten(port, func, instr, m, n)
    requires op in instr.operands && op.kind == REG && instr.IsWritten(op.number) && Sets(port, op, value, m)
    ensures Sets(port, op, value, n)
  {
    if Defines(port, op) { assert WritesRegister(port, instr, OpView(port, op).parent); }
  }

  lemma RegisterRulesAlike(port: IdaPort, func: int, instr: Instruction, before: MState, m: MState, n: MState)
    requires LayoutContract(port) && Supported(port, instr) && SameWhereWritten(port, func, instr, m, n)
    requires Kinds(instr, REG, REG) && ComputesFromRegister(port, instr, Dst(instr), Src(instr), before, m)
    ensures ComputesFromRegister(port, instr, Dst(instr), Src(instr), before, n)
  {
    var dst, src := Dst(instr), Src(instr);
    assert dst.number == 0 && src.number == 1;
    hide Sets, LayoutContract, SameWhereWritten, Extended, ReadView;
    if instr.IsMove() {
      FlaggedByItsLocator(port, instr, MovRegReg);
      SetsAlike(port, func, instr, dst, Extended(port, instr, before, src), m, n);
    }
    if instr.mnem == "xchg" {
      FlaggedByItsLocator(port, instr, XchgRegReg);
      SetsAlike(port, func, instr, dst, ReadView(port, before, src), m, n);
      SetsAlike(port, func, instr, src, ReadView(port, before, dst), m, n);
    }
    if StartsWith(instr.mnem, "cmov") {
      FlaggedByItsLocator(port, instr, CmovRegReg);
      if Sets(port, dst, ReadView(port, before, dst), m) {
        SetsAlike(port, func, instr, dst, ReadView(port, before, dst), m, n);
      } else {
        SetsAlike(port, func, instr, dst, ReadView(port, before, src), m, n);
      }
    }
    ZeroingAlike(port, func, instr, before, m, n);
  }

  lemma ZeroingAlike(port: IdaPort, func: int, instr: Instruction, before: MState, m: MState, n: MState)
    requires LayoutContract(port) && Supported(port, instr) && SameWhereWritten(port, func, instr, m, n)
    requires Kinds(instr, REG, REG) && ComputesFromRegister(port, instr, Dst(instr), Src(instr), before, m)
    ensures var dst, src := Dst(instr), Src(instr);
      && (instr.mnem == "sub" && dst.reg == src.reg ==> Sets(port, dst, ReadView(port, before, dst) - ReadView(port, before, src), n))
      && (instr.mnem == "xor" && dst.reg == src.reg && ReadView(port, before, dst) == ReadView(port, before, src) ==> Sets(port, dst, 0, n))
  {
    var dst, src := Dst(instr), Src(instr);
    assert dst.number == 0;
    hide Sets, LayoutContract, SameWhereWritten, Extended, ReadView;
    if (instr.mnem == "sub" || instr.mnem == "xor") && dst.reg == src.reg {
      FlaggedByItsLocator(port, instr, ZeroIdiom);
      if instr.mnem == "sub" {
        SetsAlike(port, func, instr, dst, ReadView(port, before, dst) - ReadView(port, before, src), m, n);
      } else if ReadView(port, before, dst) == ReadView(port, before, src) {
        SetsAlike(port, func, instr, dst, 0, m, n);
      }
    }
  }

  lemma ConstantRulesAlike(port: IdaPort, func: int, instr: Instruction, before: MState, m: MState, n: MState)
    requires LayoutContract(port) && Supported(port, instr) && SameWhereWritten(port, func, instr, m, n)
    requires Kinds(instr, REG, IMMEDIATE) && ComputesFromConstant(port, instr, Dst(instr), Src(instr), before, m)
    ensures ComputesFromConstant(port, instr, Dst(instr), Src(instr), before, n)
  {
    var dst := Dst(instr);
    assert dst.number == 0;
    hide Sets, LayoutContract, SameWhereWritten, ReadView;
    if instr.mnem == "mov" || instr.mnem == "add" || instr.mnem == "sub" {
      FlaggedByItsLocator(port, instr, if instr.mnem == "mov" then MovRegImm else AddSubRegImm);
      var value := if instr.mnem == "mov" then Src(instr).immValue else ReadView(port, before, dst) + AddSubDelta(instr);
      SetsAlike(port, func, instr, dst, value, m, n);
    }
  }

  lemma LoadRulesAlike(port: IdaPort, func: int, instr: Instruction, before: MState, m: MState, n: MState)
    requires LayoutContract(port) && Supported(port, instr) && SameWhereWritten(port, func, instr, m, n)
    requires instr.OperandAt(0).Some? && instr.OperandAt(1).Some? && Dst(instr).kind == REG && NamesOneCell(Src(instr))
    requires ComputesFromMemory(port, func, instr, Dst(instr), Src(instr), before, m)
    ensures ComputesFromMemory(port, func, instr, Dst(instr), Src(instr), before, n)
  {
    var dst, src := Dst(instr), Src(instr);
    var word := before.Mem(OperandCell(port, src, instr.ea, func));
    assert dst.number == 0;
    hide Sets, LayoutContract, SameWhereWritten, ReadView, Loaded, OperandCell;
    if instr.IsMove() {
      FlaggedByItsLocator(port, instr, MovRegMem);
      SetsAlike(port, func, instr, dst, Loaded(instr, src, word), m, n);
    }
    if StartsWith(instr.mnem, "cmov") {
      FlaggedByItsLocator(port, instr, CmovRegReg);
      if Sets(port, dst, ReadView(port, before, dst), m) {
        SetsAlike(port, func, instr, dst, ReadView(port, before, dst), m, n);
      } else {
        SetsAlike(port, func, instr, dst, word, m, n);
      }
    }
    if instr.mnem == "lea" {
      FlaggedByItsLocator(port, instr, if src.kind == MEM_DIRECT then LeaRegAddr else LeaRegDispl);
      SetsAlike(port, func, instr, dst,
                if src.kind == MEM_DIRECT then src.addr else before.Reg(Parent(port, src.reg.value)) + src.disp, m, n);
    }
  }

  lemma StoreRulesAlike(port: IdaPort, func: int, instr: Instruction, before: MState, m: MState, n: MState)
    requires Supported(port, instr) && SameWhereWritten(port, func, instr, m, n)
    requires instr.OperandAt(0).Some? && instr.OperandAt(1).Some? && NamesOneCell(Dst(instr))
    requires ComputesStore(port, func, instr, Dst(instr), Src(instr), before, m)
    ensures ComputesStore(port, func, instr, Dst(instr), Src(instr), before, n)
  {
    var dst, src := Dst(instr), Src(instr);
    assert dst.number == 0;
    if instr.mnem == "mov" && (src.kind == IMMEDIATE || src.kind == REG) {
      FlaggedByItsLocator(port, instr, if src.kind == REG then MovMemReg else MovMemImm);
      assert WritesCell(port, func, instr, OperandCell(port, dst, instr.ea, func));
    }
  }

  lemma RulesAlike(port: IdaPort, func: int, instr: Instruction, before: MState, m: MState, n: MState)
    requires LayoutContract(port) && Supported(port, instr) && SameWhereWritten(port, func, instr, m, n)
    requires Computes(port, func, instr, before, m)
    ensures Computes(port, func, instr, before, n)
  {
    hide Supported, LayoutContract, SameWhereWritten, ComputesFromRegister, ComputesFromConstant, ComputesFromMemory,
         ComputesStore;
    if instr.OperandAt(0).Some? && instr.OperandAt(1).Some? {
      var dst, src := Dst(instr), Src(instr);
      if dst.kind == REG && src.kind == REG { RegisterRulesAlike(port, func, instr, before, m, n); }
      if dst.kind == REG && src.kind == IMMEDIATE { ConstantRulesAlike(port, func, instr, before, m, n); }
      if dst.kind == REG && NamesOneCell(src) { LoadRulesAlike(port, func, instr, before, m, n); }
      if NamesOneCell(dst) { StoreRulesAlike(port, func, instr, before, m, n); }
    }
  }

  // -- what is written unseen may change ----------------------------------------------------------

  function Changed(t: Target, word: int, m: MState): MState {
    match t
    case Register(reg) => m.(regs := m.regs[reg := word])
    case Memory(cell) => m.(cells := m.cells[cell := word])
  }

  /** The target can hold more than one word, and a register holds the size of a push. */
  predicate Roomy(port: IdaPort, t: Target) {
    0 < port.pointerSize && (t.Register? ==> port.pointerSize < Pow2(Bits(port, t.reg)))
  }

  function Other(word: int): int { if word == 0 then 1 else 0 }

  lemma ChangedIsInRange(port: IdaPort, t: Target, word: int, m: MState)
    requires InRange(port, m) && Roomy(port, t) && 0 <= word <= 1
    ensures InRange(port, Changed(t, word, m)) && ValueOf(t, Changed(t, word, m)) == word
    ensures forall u :: u != t ==> ValueOf(u, Changed(t, word, m)) == ValueOf(u, m)
  {
    hide Bits;
    Pow2Grows(1, WordBits(port));
    assert Pow2(1) == 2;
    var m' := Changed(t, word, m);
    match t {
      case Register(reg) => StaysInRange(port, m, m', reg, Cell(Absolute, 0));
      case Memory(cell) => StaysInRange(port, m, m', 0, cell);
    }
  }

  predicate PushesAnOperand(instr: Instruction) { instr.mnem == "push" && instr.OperandAt(0).Some? }

  /** Any instruction but a push may leave another word than it found. */
  lemma HiddenWriteHappens(port: IdaPort, func: int, instr: Instruction, t: Target, m: MState) returns (m': MState)
    requires LayoutContract(port) && Supported(port, instr) && InRange(port, m) && Roomy(port, t) && !PushesAnOperand(instr)
    requires HiddenlyWrites(port, func, instr, t) && !OpenlyWrites(port, func, instr, t)
    ensures Executes(port, func, instr, m, m') && ValueOf(t, m') != ValueOf(t, m)
  {
    var some := CanExecute(port, func, instr, m);
    var word := Other(ValueOf(t, m));
    m' := Changed(t, word, some);
    assert InRange(port, some);
    ChangedIsInRange(port, t, word, some);
    assert SameWhereWritten(port, func, instr, some, m') by {
      forall r | WritesRegister(port, instr, r) ensures m'.Reg(r) == some.Reg(r) {
        assert ValueOf(Register(r), m') == ValueOf(Register(r), some);
      }
      forall c | WritesCell(port, func, instr, c) ensures m'.Mem(c) == some.Mem(c) {
        assert ValueOf(Memory(c), m') == ValueOf(Memory(c), some);
      }
    }
    RulesAlike(port, func, instr, m, some, m');
    hide Supported, LayoutContract, Computes, InRange, HiddenlyWrites, WritesRegister, WritesCell, CallDestroys;
    forall u ensures ValueOf(u, m') == ValueOf(u, m) || OpenlyWrites(port, func, instr, u) || HiddenlyWrites(port, func, instr, u) {
      assert u != t ==> ValueOf(u, m') == ValueOf(u, some);
    }
    ReturnedAlike(port, func, instr, t, some, m');
  }

  lemma ReturnedAlike(port: IdaPort, func: int, instr: Instruction, t: Target, m: MState, m': MState)
    requires !OpenlyWrites(port, func, instr, t) && forall u :: u != t ==> ValueOf(u, m') == ValueOf(u, m)
    ensures instr.IsCall() && port.returnValueReg.Some? ==> m'.Reg(port.returnValueReg.value) == m.Reg(port.returnValueReg.value)
  {
    if instr.IsCall() && port.returnValueReg.Some? {
      var r := Register(port.returnValueReg.value);
      assert r != t;
      assert ValueOf(r, m') == ValueOf(r, m);
    }
  }

  // -- pushes -------------------------------------------------------------------------------------

  /** The push stores a word where it reads it from. */
  predicate PushesItself(port: IdaPort, func: int, instr: Instruction, t: Target) {
    && t.Memory? && PushesAnOperand(instr) && Dst(instr).kind != REG && Dst(instr).kind != IMMEDIATE
    && port.spDelta(func, instr.ea).Some? && t.cell == BelowTheStack(port, func, instr)
    && OperandCell(port, Dst(instr), instr.ea, func) == t.cell
  }

  /** The one cell that a push is known to fill. */
  predicate PushFills(port: IdaPort, func: int, push: Instruction, t: Target) {
    t.Memory? && port.spDelta(func, push.ea).Some? && t.cell == BelowTheStack(port, func, push)
  }

  lemma PushedWordIsAnother(port: IdaPort, func: int, push: Instruction, t: Target) returns (m: MState)
    requires PushesAnOperand(push) && PushFills(port, func, push, t) && !PushesItself(port, func, push, t) && Roomy(port, t)
    ensures InRange(port, m) && PushedWord(port, func, push, m) != m.Mem(t.cell)
  {
    hide ReadView, Pow2, OperandCell, InRange;
    ZeroIsInRange(port);
    ChangedIsInRange(port, t, 1, ZERO);
    var word := PushedWord(port, func, push, ZERO);
    m := if word == 0 then Changed(t, 1, ZERO) else ZERO;
    assert m.regs == ZERO.regs && ReadView(port, m, Dst(push)) == ReadView(port, ZERO, Dst(push)) by {
      SameRegistersReadAlike(port, ZERO, m, Dst(push));
    }
  }

  lemma SameRegistersReadAlike(port: IdaPort, m: MState, n: MState, op: Operand)
    requires m.regs == n.regs
    ensures ReadView(port, m, op) == ReadView(port, n, op)
  {}

  lemma PushedSays(port: IdaPort, func: int, push: Instruction, m: MState)
    requires InRange(port, m) && PushesAnOperand(push)
    ensures var m' := Pushed(port, func, push, m);
      && Executes(port, func, push, m, m')
      && (port.spDelta(func, push.ea).Some? ==> m'.Mem(BelowTheStack(port, func, push)) == PushedWord(port, func, push, m))
      && (port.stackPointerReg.Some? ==>
            var sp := Parent(port, port.stackPointerReg.value);
            m'.Reg(sp) == (m.Reg(sp) - port.pointerSize) % Pow2(Bits(port, sp)))
  {
    PushExecutes(port, func, push, m);
    hide Pushed, InRange, Computes, KeepsTheRest, PushedWord;
  }

  lemma PushMovesAway(size: nat, bits: nat)
    requires 0 < size < Pow2(bits)
    ensures (0 - size) % Pow2(bits) != 0
  {
    DivisionIsUnique(0 - size, Pow2(bits), -1, Pow2(bits) - size);
  }

  /** Whatever a push hides, some push changes it. */
  lemma HiddenPushHappens(port: IdaPort, func: int, push: Instruction, t: Target) returns (m: MState, m': MState)
    requires PushesAnOperand(push) && !PushesItself(port, func, push, t) && Roomy(port, t)
    requires HiddenlyWrites(port, func, push, t) && !OpenlyWrites(port, func, push, t)
    ensures InRange(port, m) && Executes(port, func, push, m, m') && ValueOf(t, m') != ValueOf(t, m)
  {
    ZeroIsInRange(port);
    if PushFills(port, func, push, t) {
      m := PushedWordIsAnother(port, func, push, t);
      PushedSays(port, func, push, m);
      m' := Pushed(port, func, push, m);
    } else if t.Register? {
      OnlyTheStackPointerIsHidden(port, func, push, t);
      m, m' := ZERO, Pushed(port, func, push, ZERO);
      PushedSays(port, func, push, ZERO);
      PushMovesAway(port.pointerSize, Bits(port, t.reg));
    } else {
      m := ZERO;
      PushedSays(port, func, push, ZERO);
      m' := PushedOverAnotherCell(port, func, push, t, ZERO, Pushed(port, func, push, ZERO));
    }
  }

  lemma OnlyTheStackPointerIsHidden(port: IdaPort, func: int, push: Instruction, t: Target)
    requires PushesAnOperand(push) && t.Register? && HiddenlyWrites(port, func, push, t)
    ensures port.stackPointerReg.Some? && t.reg == Parent(port, port.stackPointerReg.value)
  {
    assert ImplicitNames(push) == {};
  }

  lemma PushedOverAnotherCell(port: IdaPort, func: int, push: Instruction, t: Target, m: MState, some: MState) returns (m': MState)
    requires PushesAnOperand(push) && t.Memory? && !PushFills(port, func, push, t) && Roomy(port, t)
    requires HiddenlyWrites(port, func, push, t) && !OpenlyWrites(port, func, push, t)
    requires Executes(port, func, push, m, some)
    ensures Executes(port, func, push, m, m') && ValueOf(t, m') != ValueOf(t, m)
  {
    var word := Other(ValueOf(t, m));
    m' := Changed(t, word, some);
    assert InRange(port, some) && ComputesPush(port, func, push, m, some) && !push.IsCall() by {
      MnemonicsDiffer(push.mnem);
      assert push.mnem[0] == 'p';
    }
    ChangedIsInRange(port, t, word, some);
    PushesComputeNothingElse(port, func, push, m, m');
    assert m'.regs == some.regs && m'.rets == some.rets;
    assert ComputesPush(port, func, push, m, m') by {
      if port.spDelta(func, push.ea).Some? {
        var below := Memory(BelowTheStack(port, func, push));
        assert below != t;
        assert ValueOf(below, m') == ValueOf(below, some);
      }
    }
    hide InRange, HiddenlyWrites, WritesRegister, WritesCell, Computes, ComputesPush, OpenlyWrites;
    forall u ensures ValueOf(u, m') == ValueOf(u, m) || OpenlyWrites(port, func, push, u) || HiddenlyWrites(port, func, push, u) {
      assert u != t ==> ValueOf(u, m') == ValueOf(u, some);
    }
  }

  lemma PushesComputeNothingElse(port: IdaPort, func: int, push: Instruction, m: MState, m': MState)
    requires PushesAnOperand(push)
    ensures Computes(port, func, push, m, m')
  {
    CmovIsNoMove(push.mnem);
    assert push.mnem[0] == 'p';
  }

  lemma PushedItselfIsAlike(port: IdaPort, func: int, push: Instruction, t: Target, m: MState, m': MState)
    requires PushesItself(port, func, push, t) && InRange(port, m) && Executes(port, func, push, m, m')
    ensures ValueOf(t, m') == ValueOf(t, m)
  {
    var word := m.Mem(t.cell);
    assert 0 <= word < Pow2(WordBits(port));
    DivisionIsUnique(word, Pow2(WordBits(port)), 0, word);
  }

  // -- every instruction --------------------------------------------------------------------------

  /** What the walk passes by is left alone, whatever the machine does, exactly when the
    instruction does not write it unseen; or pushes a word to where the word is. */
  lemma SkipsAreRightExactly(port: IdaPort, func: int, instr: Instruction, t: Target)
    requires LayoutContract(port) && Supported(port, instr) && Askable(port, t) && Roomy(port, t)
    requires Decide(port, t, instr, func) == Skip
    ensures LeavesAlone(port, func, instr, t) <==> !HiddenlyWrites(port, func, instr, t) || PushesItself(port, func, instr, t)
  {
    var f := Flow(port, t, func, []);
    SkippedIsNotWritten(f, instr);
    assert WellDecoded(port, instr);
    hide Supported, LayoutContract, Executes, InRange, HiddenlyWrites, OpenlyWrites, PushesItself, Decide, WellDecoded, Askable;
    if PushesItself(port, func, instr, t) {
      forall m, m' | InRange(port, m) && Executes(port, func, instr, m, m') ensures ValueOf(t, m') == ValueOf(t, m) {
        PushedItselfIsAlike(port, func, instr, t, m, m');
      }
    } else if HiddenlyWrites(port, func, instr, t) {
      var m, m' := ZERO, ZERO;
      if PushesAnOperand(instr) {
        m, m' := HiddenPushHappens(port, func, instr, t);
      } else {
        ZeroIsInRange(port);
        m' := HiddenWriteHappens(port, func, instr, t, ZERO);
      }
    } else {
      forall m, m' | InRange(port, m) && Executes(port, func, instr, m, m') ensures ValueOf(t, m') == ValueOf(t, m) {
        SkippedKeepsTheValue(f, instr, m, m');
      }
    }
  }

  // -- pushes, calls and base registers -------------------------------------------------------------

  /** Passing by a push is right for a stack cell exactly when the cell is no part of the
    word just below the stack pointer. */
  lemma PushesAreSkippedExactly(port: IdaPort, func: int, push: Instruction, offset: int)
    requires LayoutContract(port) && Supported(port, push) && port.pointerSize > 0
    requires PushesAnOperand(push) && (Dst(push).kind == REG || Dst(push).kind == IMMEDIATE)
    requires port.spDelta(func, push.ea).Some?
    ensures var delta := port.spDelta(func, push.ea).value;
      LeavesAlone(port, func, push, Memory(Cell(StackPointer, offset))) <==> !(delta - port.pointerSize <= offset < delta)
  {
    var t := Memory(Cell(StackPointer, offset));
    NothingIsFlagged(port, func, push, Push, t.cell);
    MnemonicsDiffer(push.mnem);
    assert push.mnem[0] == 'p';
    hide Supported, LayoutContract, LeavesAlone, Decide;
    SkipsAreRightExactly(port, func, push, t);
  }

  lemma NothingIsFlagged(port: IdaPort, func: int, instr: Instruction, loc: Locator, cell: Cell)
    requires Supported(port, instr) && Matches(loc, instr) && (loc == Push || loc == CallReturn)
    ensures Decide(port, Memory(cell), instr, func) == Skip
  {
    assert FlagsFit(loc, instr);
  }

  /** Passing by a call is right exactly for the cells of the caller's frame, as long as the
    call keeps the register they are relative to. */
  lemma CallsAreSkippedExactly(port: IdaPort, func: int, call: Instruction, cell: Cell)
    requires LayoutContract(port) && Supported(port, call) && call.IsCall() && port.pointerSize > 0
    ensures LeavesAlone(port, func, call, Memory(cell)) <==> CallerFrame(port, func, call.ea, cell) && !Rebases(port, call, cell)
  {
    var t := Memory(cell);
    NothingIsFlagged(port, func, call, CallReturn, cell);
    MnemonicsDiffer(call.mnem);
    assert EffectOf(call.mnem) == Still && call.mnem != "push" by { assert call.mnem[0] == 'c'; }
    hide Supported, LayoutContract, LeavesAlone, Decide, Rebases, CallerFrame;
    SkipsAreRightExactly(port, func, call, t);
  }

  /** A cell relative to a register is matched by the name of the register alone, which is
    right past an instruction exactly when the instruction does not write the register. */
  lemma BasesAreMatchedExactly(port: IdaPort, func: int, instr: Instruction, base: int, disp: int)
    requires LayoutContract(port) && Supported(port, instr) && port.pointerSize > 0
    requires Decide(port, Memory(Cell(Based(base), disp)), instr, func) == Skip && !instr.IsCall()
    ensures var parent := Parent(port, base);
      LeavesAlone(port, func, instr, Memory(Cell(Based(base), disp))) <==>
        !WritesRegister(port, instr, parent) && !ImplicitlyWrites(port, instr, parent)
  {
    hide Supported, LayoutContract, LeavesAlone, Decide, WritesRegister, ImplicitlyWrites;
    SkipsAreRightExactly(port, func, instr, Memory(Cell(Based(base), disp)));
  }
}
