/** The machine does not get stuck: every supported instruction can be executed from every
  state, so every path through the graph has a run. */
module Progress {
  import opened Values
  import opened InsnModel
  import opened Port
  import opened State
  import opened Addressing
  import opened Locators
  import opened Arithmetic
  import opened StackEffects
  import opened Registry
  import opened Machine

  // -- one instruction -------------------------------------------------------------------

  function Put(port: IdaPort, op: Operand, value: int, m: MState): MState {
    if Defines(port, op)
    then m.(regs := m.regs[OpView(port, op).parent := value % Pow2(OpView(port, op).bitSize)])
    else m
  }

  function PutCell(port: IdaPort, cell: Cell, value: int, m: MState): MState {
    m.(cells := m.cells[cell := value % Pow2(WordBits(port))])
  }

  /** A state that differs in one register and one cell. */
  lemma StaysInRange(port: IdaPort, m: MState, m': MState, reg: int, cell: Cell)
    requires InRange(port, m)
    requires forall r :: r != reg ==> m'.Reg(r) == m.Reg(r)
    requires forall c :: c != cell ==> m'.Mem(c) == m.Mem(c)
    requires m'.Reg(reg) == m.Reg(reg) || 0 <= m'.Reg(reg) < Pow2(Bits(port, reg))
    requires m'.Mem(cell) == m.Mem(cell) || 0 <= m'.Mem(cell) < Pow2(WordBits(port))
    ensures InRange(port, m')
  {
    hide Pow2, Bits;
    forall r ensures 0 <= m'.Reg(r) < Pow2(Bits(port, r)) { assert r != reg ==> m'.Reg(r) == m.Reg(r); }
    forall c ensures 0 <= m'.Mem(c) < Pow2(WordBits(port)) { assert c != cell ==> m'.Mem(c) == m.Mem(c); }
  }

  const ZERO := MState(map[], map[], {})

  lemma ZeroIsInRange(port: IdaPort)
    ensures InRange(port, ZERO)
  {
    hide Pow2;
    forall p ensures 0 < Pow2(Bits(port, p)) {}
  }

  lemma PutSets(port: IdaPort, instr: Instruction, op: Operand, value: int, m: MState)
    requires LayoutContract(port) && WellDecoded(port, instr) && InRange(port, m)
    requires op in instr.operands && op.kind == REG && instr.IsWritten(op.number)
    ensures var m' := Put(port, op, value, m);
      && Sets(port, op, value, m') && InRange(port, m') && m'.cells == m.cells && m'.rets == m.rets
      && forall r :: m'.Reg(r) == m.Reg(r) || WritesRegister(port, instr, r)
  {
    var m', view := Put(port, op, value, m), OpView(port, op);
    assert view.parent == Parent(port, op.reg.value);
    assert WritesRegister(port, instr, view.parent);
    hide LayoutContract, WellDecoded, Pow2, WritesRegister, ViewOf, InRange, Bits;
    if Defines(port, op) {
      FitsTheParent(port, instr, op);
      assert forall r :: r != view.parent ==> m'.Reg(r) == m.Reg(r);
      StaysInRange(port, m, m', view.parent, Cell(Absolute, 0));
    }
  }

  lemma FitsTheParent(port: IdaPort, instr: Instruction, op: Operand)
    requires LayoutContract(port) && WellDecoded(port, instr) && op in instr.operands && op.kind == REG
    ensures op.reg.Some? && Pow2(OpView(port, op).bitSize) <= Pow2(Bits(port, OpView(port, op).parent))
  {
    assert OpView(port, op).parent == Parent(port, op.reg.value);
    Pow2Grows(OpView(port, op).bitSize, Bits(port, Parent(port, op.reg.value)));
  }

  lemma PutCellIsInRange(port: IdaPort, cell: Cell, value: int, m: MState)
    requires InRange(port, m)
    ensures InRange(port, PutCell(port, cell, value, m))
  {
    hide Pow2;
    Pow2Grows(0, WordBits(port));
    StaysInRange(port, m, PutCell(port, cell, value, m), 0, cell);
  }

  /** What remains to be shown of an instruction that only writes what its flags say. */
  ghost predicate Lands(port: IdaPort, func: int, instr: Instruction, m: MState, m': MState) {
    && InRange(port, m') && Computes(port, func, instr, m, m') && m'.rets == m.rets
    && (forall r :: m'.Reg(r) == m.Reg(r) || WritesRegister(port, instr, r))
    && (forall c :: m'.Mem(c) == m.Mem(c) || WritesCell(port, func, instr, c))
  }

  lemma FlaggedByItsLocator(port: IdaPort, instr: Instruction, loc: Locator)
    requires Supported(port, instr) && Matches(loc, instr) && loc != Push && loc != CallReturn
    ensures instr.IsWritten(0) && (loc == XchgRegReg ==> instr.IsWritten(1))
  {
    assert FlagsFit(loc, instr) && Dst(instr).number == 0;
  }

  /** Writing the destination with what the instruction computes. */
  lemma PuttingLands(port: IdaPort, func: int, instr: Instruction, m: MState, value: int)
    requires LayoutContract(port) && WellDecoded(port, instr) && InRange(port, m)
    requires instr.OperandAt(0).Some? && instr.OperandAt(1).Some? && Dst(instr).kind == REG && instr.IsWritten(0)
    requires var m' := Put(port, Dst(instr), value, m); Sets(port, Dst(instr), value, m') ==> Computes(port, func, instr, m, m')
    ensures Lands(port, func, instr, m, Put(port, Dst(instr), value, m))
  {
    hide Computes, InRange, LayoutContract, WellDecoded, Sets, WritesRegister, Put;
    assert Dst(instr).number == 0;
    PutSets(port, instr, Dst(instr), value, m);
  }

  function RegisterResult(port: IdaPort, instr: Instruction, dst: Operand, src: Operand, m: MState): int {
    if instr.IsMove() then Extended(port, instr, m, src)
    else if instr.mnem == "sub" then ReadView(port, m, dst) - ReadView(port, m, src)
    else if instr.mnem == "xor" then 0
    else ReadView(port, m, dst)
  }

  lemma RegisterResultIsComputed(port: IdaPort, instr: Instruction, dst: Operand, src: Operand, m: MState, m': MState)
    requires instr.mnem != "xchg" && Sets(port, dst, RegisterResult(port, instr, dst, src, m), m')
    ensures ComputesFromRegister(port, instr, dst, src, m, m')
  {
    hide Sets, Extended, ReadView;
    CmovIsNoMove(instr.mnem);
  }

  lemma NoRegisterRule(port: IdaPort, instr: Instruction, dst: Operand, src: Operand, m: MState)
    requires instr.mnem != "xchg" && !instr.IsMove() && !StartsWith(instr.mnem, "cmov")
    requires !((instr.mnem == "sub" || instr.mnem == "xor") && dst.reg == src.reg)
    ensures ComputesFromRegister(port, instr, dst, src, m, m)
  {}

  lemma RegisterMoveLands(port: IdaPort, func: int, instr: Instruction, m: MState) returns (m': MState)
    requires LayoutContract(port) && Supported(port, instr) && InRange(port, m)
    requires instr.OperandAt(0).Some? && instr.OperandAt(1).Some? && Dst(instr).kind == REG && Src(instr).kind == REG
    requires instr.mnem != "xchg"
    ensures Lands(port, func, instr, m, m')
  {
    hide ComputesFromRegister, LayoutContract, InRange, RegisterResult, Put, Sets;
    var dst, src := Dst(instr), Src(instr);
    var value := RegisterResult(port, instr, dst, src, m);
    if instr.IsMove() || StartsWith(instr.mnem, "cmov") || ((instr.mnem == "sub" || instr.mnem == "xor") && dst.reg == src.reg) {
      FlaggedByItsLocator(port, instr,
        if instr.IsMove() then MovRegReg else if StartsWith(instr.mnem, "cmov") then CmovRegReg else ZeroIdiom);
      m' := Put(port, dst, value, m);
      if Sets(port, dst, value, m') { RegisterResultIsComputed(port, instr, dst, src, m, m'); }
      PuttingLands(port, func, instr, m, value);
    } else {
      m' := m;
      NoRegisterRule(port, instr, dst, src, m);
    }
  }

  lemma CmovIsNoMove(mnem: string)
    ensures StartsWith(mnem, "cmov") || StartsWith(mnem, "call") ==> |mnem| >= 4 && mnem[0] == 'c'
  {
    assert StartsWith(mnem, "cmov") ==> mnem[0] == mnem[..4][0];
    assert StartsWith(mnem, "call") ==> mnem[0] == mnem[..4][0];
  }

  lemma SecondWriteKeepsTheFirst(port: IdaPort, instr: Instruction, m: MState)
    requires LayoutContract(port) && Supported(port, instr) && InRange(port, m) && Matches(XchgRegReg, instr)
    requires Dst(instr).reg.Some? && Src(instr).reg.Some?
    requires Sets(port, Dst(instr), ReadView(port, m, Src(instr)), Put(port, Dst(instr), ReadView(port, m, Src(instr)), m))
    ensures Sets(port, Dst(instr), ReadView(port, m, Src(instr)),
                 Put(port, Src(instr), ReadView(port, m, Dst(instr)), Put(port, Dst(instr), ReadView(port, m, Src(instr)), m)))
  {
    var dst, src := Dst(instr), Src(instr);
    assert WidthsFit(port, XchgRegReg, instr);
    if Defines(port, dst) && Defines(port, src) && OpView(port, dst).parent == OpView(port, src).parent {
      hide Supported, InRange, Pow2;
      FullReadReads(port, m, dst);
      FullReadReads(port, m, src);
    }
  }

  lemma XchgLands(port: IdaPort, func: int, instr: Instruction, m: MState) returns (m': MState)
    requires LayoutContract(port) && Supported(port, instr) && InRange(port, m) && Matches(XchgRegReg, instr)
    ensures Lands(port, func, instr, m, m')
  {
    var dst, src := Dst(instr), Src(instr);
    FlaggedByItsLocator(port, instr, XchgRegReg);
    hide Put, Sets, LayoutContract, InRange, Matches, ReadView, WritesRegister;
    assert dst.number == 0 && src.number == 1;
    var x, y := ReadView(port, m, dst), ReadView(port, m, src);
    PutSets(port, instr, dst, y, m);
    var half := Put(port, dst, y, m);
    PutSets(port, instr, src, x, half);
    m' := Put(port, src, x, half);
    SecondWriteKeepsTheFirst(port, instr, m);
    assert ComputesFromRegister(port, instr, dst, src, m, m') by { CmovIsNoMove(instr.mnem); }
  }

  function ConstantResult(port: IdaPort, instr: Instruction, dst: Operand, src: Operand, m: MState): int
    requires instr.OperandAt(1) == Some(src)
  {
    if instr.mnem == "mov" then src.immValue else ReadView(port, m, dst) + AddSubDelta(instr)
  }

  lemma ConstantResultIsComputed(port: IdaPort, func: int, instr: Instruction, m: MState, m': MState)
    requires instr.OperandAt(0).Some? && instr.OperandAt(1).Some? && Dst(instr).kind == REG && Src(instr).kind == IMMEDIATE
    requires instr.mnem == "mov" || instr.mnem == "add" || instr.mnem == "sub" ==>
      Sets(port, Dst(instr), ConstantResult(port, instr, Dst(instr), Src(instr), m), m')
    ensures Computes(port, func, instr, m, m')
  {
    hide Sets, ReadView, FindOperand;
  }

  lemma ConstantLands(port: IdaPort, func: int, instr: Instruction, m: MState) returns (m': MState)
    requires LayoutContract(port) && Supported(port, instr) && InRange(port, m)
    requires instr.OperandAt(0).Some? && instr.OperandAt(1).Some? && Dst(instr).kind == REG && Src(instr).kind == IMMEDIATE
    ensures Lands(port, func, instr, m, m')
  {
    var dst, src := Dst(instr), Src(instr);
    assert WellDecoded(port, instr);
    hide LayoutContract, WellDecoded, Supported, InRange, Sets, Put, ReadView, FindOperand, Computes, ConstantResult;
    m' := m;
    if instr.mnem == "mov" || instr.mnem == "add" || instr.mnem == "sub" {
      FlaggedByItsLocator(port, instr, if instr.mnem == "mov" then MovRegImm else AddSubRegImm);
      var value := ConstantResult(port, instr, dst, src, m);
      m' := Put(port, dst, value, m);
      if Sets(port, dst, value, m') { ConstantResultIsComputed(port, func, instr, m, m'); }
      PuttingLands(port, func, instr, m, value);
    } else {
      ConstantResultIsComputed(port, func, instr, m, m);
    }
  }

  lemma LoadLands(port: IdaPort, func: int, instr: Instruction, m: MState) returns (m': MState)
    requires LayoutContract(port) && Supported(port, instr) && InRange(port, m)
    requires instr.OperandAt(0).Some? && instr.OperandAt(1).Some? && Dst(instr).kind == REG && NamesOneCell(Src(instr))
    ensures Lands(port, func, instr, m, m')
  {
    var dst, src := Dst(instr), Src(instr);
    var word := m.Mem(OperandCell(port, src, instr.ea, func));
    m' := m;
    if instr.IsMove() || StartsWith(instr.mnem, "cmov") || instr.mnem == "lea" {
      FlaggedByItsLocator(port, instr,
        if instr.IsMove() then MovRegMem else if instr.mnem != "lea" then CmovRegReg
        else if src.kind == MEM_DIRECT then LeaRegAddr else LeaRegDispl);
      var value := if instr.IsMove() then Loaded(instr, src, word) else if instr.mnem != "lea" then ReadView(port, m, dst)
                   else if src.kind == MEM_DIRECT then src.addr else m.Reg(Parent(port, src.reg.value)) + src.disp;
      PutSets(port, instr, dst, value, m);
      m' := Put(port, dst, value, m);
    }
    assert ComputesFromMemory(port, func, instr, dst, src, m, m') by { CmovIsNoMove(instr.mnem); }
  }

  lemma StoreLands(port: IdaPort, func: int, instr: Instruction, m: MState) returns (m': MState)
    requires LayoutContract(port) && Supported(port, instr) && InRange(port, m)
    requires instr.OperandAt(0).Some? && instr.OperandAt(1).Some? && NamesOneCell(Dst(instr))
    ensures Lands(port, func, instr, m, m')
  {
    var dst, src := Dst(instr), Src(instr);
    var cell := OperandCell(port, dst, instr.ea, func);
    m' := m;
    if instr.mnem == "mov" && (src.kind == IMMEDIATE || src.kind == REG) {
      FlaggedByItsLocator(port, instr, if src.kind == REG then MovMemReg else MovMemImm);
      var value := if src.kind == REG then ReadView(port, m, src) else src.immValue;
      PutCellIsInRange(port, cell, value, m);
      m' := PutCell(port, cell, value, m);
      assert WritesCell(port, func, instr, cell);
    }
    assert ComputesStore(port, func, instr, dst, src, m, m');
  }

  lemma OperandsLand(port: IdaPort, func: int, instr: Instruction, m: MState) returns (m': MState)
    requires LayoutContract(port) && Supported(port, instr) && InRange(port, m)
    ensures Lands(port, func, instr, m, m')
  {
    m' := m;
    if instr.OperandAt(0).Some? && instr.OperandAt(1).Some? {
      hide Supported, Lands, LayoutContract, InRange;
      var dst, src := Dst(instr), Src(instr);
      if dst.kind == REG && src.kind == REG {
        if instr.mnem == "xchg" {
          m' := XchgLands(port, func, instr, m);
        } else {
          m' := RegisterMoveLands(port, func, instr, m);
        }
      } else if dst.kind == REG && src.kind == IMMEDIATE {
        m' := ConstantLands(port, func, instr, m);
      } else if dst.kind == REG && NamesOneCell(src) {
        m' := LoadLands(port, func, instr, m);
      } else if NamesOneCell(dst) {
        m' := StoreLands(port, func, instr, m);
      } else {
        NothingLands(port, func, instr, m);
      }
    }
  }

  lemma NothingLands(port: IdaPort, func: int, instr: Instruction, m: MState)
    requires InRange(port, m) && instr.OperandAt(0).Some? && instr.OperandAt(1).Some?
    requires var dst, src := Dst(instr), Src(instr);
      !NamesOneCell(dst) && (dst.kind == REG ==> src.kind != REG && src.kind != IMMEDIATE && !NamesOneCell(src))
    ensures Lands(port, func, instr, m, m)
  {}

  /** A push, over whatever its operands did. */
  function Pushed(port: IdaPort, func: int, push: Instruction, m: MState): MState
    requires push.OperandAt(0).Some?
  {
    var word := PushedWord(port, func, push, m);
    var stored := if port.spDelta(func, push.ea).Some? then PutCell(port, BelowTheStack(port, func, push), word, m) else m;
    if port.stackPointerReg.None? then stored
    else
      var sp := Parent(port, port.stackPointerReg.value);
      stored.(regs := stored.regs[sp := (m.Reg(sp) - port.pointerSize) % Pow2(Bits(port, sp))])
  }

  lemma PushExecutes(port: IdaPort, func: int, push: Instruction, m: MState)
    requires InRange(port, m) && push.mnem == "push" && push.OperandAt(0).Some?
    ensures Executes(port, func, push, m, Pushed(port, func, push, m))
  {
    var m' := Pushed(port, func, push, m);
    PushIsInRange(port, func, push, m);
    assert Computes(port, func, push, m, m') by { assert push.mnem[0] == 'p'; CmovIsNoMove(push.mnem); }
    assert !push.IsCall() by { CmovIsNoMove(push.mnem); }
    assert EffectOf(push.mnem) == Grows(1);
    var word := PushedWord(port, func, push, m);
    Pow2Grows(0, WordBits(port));
    DivisionIsUnique(word, Pow2(WordBits(port)), 0, word);
    forall t ensures ValueOf(t, m') == ValueOf(t, m) || HiddenlyWrites(port, func, push, t) {}
  }

  lemma PushIsInRange(port: IdaPort, func: int, push: Instruction, m: MState)
    requires InRange(port, m) && push.OperandAt(0).Some?
    ensures InRange(port, Pushed(port, func, push, m))
  {
    hide PushedWord, Pow2, Bits, Parent, BelowTheStack;
    var word := PushedWord(port, func, push, m);
    var stored := if port.spDelta(func, push.ea).Some? then PutCell(port, BelowTheStack(port, func, push), word, m) else m;
    if port.spDelta(func, push.ea).Some? { PutCellIsInRange(port, BelowTheStack(port, func, push), word, m); }
    if port.stackPointerReg.Some? {
      var sp := Parent(port, port.stackPointerReg.value);
      Pow2Grows(0, Bits(port, sp));
      StaysInRange(port, stored, Pushed(port, func, push, m), sp, Cell(Absolute, 0));
    }
  }

  /** The machine after a call that kept everything. */
  function Returned(port: IdaPort, call: Instruction, m: MState): MState {
    if port.returnValueReg.Some? then m.(rets := m.rets + {(call.ea, m.Reg(port.returnValueReg.value))}) else m
  }

  lemma CallExecutes(port: IdaPort, func: int, call: Instruction, m: MState)
    requires InRange(port, m) && call.IsCall()
    ensures Executes(port, func, call, m, Returned(port, call, m))
  {
    var m' := Returned(port, call, m);
    StaysInRange(port, m, m', 0, Cell(Absolute, 0));
    MnemonicsDiffer(call.mnem);
    assert Computes(port, func, call, m, m');
    forall t ensures ValueOf(t, m') == ValueOf(t, m) {}
  }

  /** Every supported instruction can be executed. */
  lemma CanExecute(port: IdaPort, func: int, instr: Instruction, m: MState) returns (m': MState)
    requires LayoutContract(port) && Supported(port, instr) && InRange(port, m)
    ensures Executes(port, func, instr, m, m')
  {
    if instr.mnem == "push" && instr.OperandAt(0).Some? {
      PushExecutes(port, func, instr, m);
      m' := Pushed(port, func, instr, m);
    } else if instr.IsCall() {
      CallExecutes(port, func, instr, m);
      m' := Returned(port, instr, m);
    } else {
      m' := OperandsLand(port, func, instr, m);
      LandedExecutes(port, func, instr, m, m');
    }
  }

  lemma LandedExecutes(port: IdaPort, func: int, instr: Instruction, m: MState, m': MState)
    requires Lands(port, func, instr, m, m') && !instr.IsCall() && !(instr.mnem == "push" && instr.OperandAt(0).Some?)
    ensures Executes(port, func, instr, m, m')
  {
    hide Computes, InRange;
    forall t ensures ValueOf(t, m') == ValueOf(t, m) || OpenlyWrites(port, func, instr, t) {}
  }
}
