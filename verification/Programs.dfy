/** Small programs over the specification port, on which to see what the engines answer. */
module Programs {
  import opened Values
  import opened InsnModel
  import opened Port
  import opened State
  import opened Addressing
  import opened Locators
  import opened Registry
  import opened Arithmetic
  import opened Machine
  import opened Progress
  import opened ForwardSpec
  import opened ForwardStep
  import FakePort

  const REGISTERS := map["rax" := 0, "rcx" := 1, "rdx" := 2, "rbx" := 3, "rsp" := 4, "rbp" := 5]
  const BUILTINS := [ZeroIdiom, MovRegReg, MovRegImm, LeaRegAddr, XchgRegReg, CmovRegReg, MovMemImm, MovRegMem, Push, MovMemReg,
                     CallReturn, LeaRegDispl, AddSubRegImm]

  // -- operands and instructions ---------------------------------------------------------------

  function Reg(number: int, reg: int): Operand { Operand(REG, number, Some(reg), None, 0, 0, 0, 8, None) }

  function Imm(number: int, value: int): Operand { Operand(IMMEDIATE, number, None, None, 0, 0, value, 8, None) }

  function At(number: int, reg: int, disp: int): Operand { Operand(MEM_DISPL, number, Some(reg), None, disp, 0, 0, 8, None) }

  function Global(number: int, addr: int): Operand { Operand(MEM_DIRECT, number, None, None, 0, addr, 0, 8, None) }

  /** An instruction of two operands that writes the first. */
  function Two(ea: int, mnem: string, dst: Operand, src: Operand, alsoRead: bool): Instruction {
    Instruction(ea, mnem, 1, [dst, src], [true, false], [alsoRead, true], false)
  }

  predicate Pair(dst: Operand, src: Operand) { dst.number == 0 && src.number == 1 }

  lemma TwoReads(ea: int, mnem: string, dst: Operand, src: Operand, alsoRead: bool)
    requires Pair(dst, src)
    ensures var instr := Two(ea, mnem, dst, src, alsoRead);
      && instr.OperandAt(0) == Some(dst) && instr.OperandAt(1) == Some(src)
      && instr.IsWritten(0) && !instr.IsWritten(1) && (instr.IsRead(0) <==> alsoRead)
  {
    var instr := Two(ea, mnem, dst, src, alsoRead);
    assert instr.operands[1..] == [src] && instr.operandWritten[1..] == [false];
    assert FindOperand([src], 1) == Some(src) && !Flag([src], [false], 1);
  }

  /** What the forward engine takes the operands for. */
  lemma TwoOperands(ea: int, mnem: string, dst: Operand, src: Operand, alsoRead: bool)
    requires Pair(dst, src)
    ensures var instr := Two(ea, mnem, dst, src, alsoRead);
      && (instr.IsPureDefinitionOf(0) <==> !alsoRead)
      && (dst.IsMemory() ==> src.kind != REG && !src.IsMemory() ==>
            MemoryOperand(instr, instr.operands, true) == Some(dst) && OtherOperand(instr.operands, 0) == Some(src))
      && (dst.kind == REG && src.IsMemory() ==>
            && MemoryOperand(instr, instr.operands, true) == None && MemoryOperand(instr, instr.operands, false) == Some(src)
            && RegisterDestination(instr, instr.operands) == Some(dst))
  {
    TwoReads(ea, mnem, dst, src, alsoRead);
    hide Flag, FindOperand;
    var instr := Two(ea, mnem, dst, src, alsoRead);
    assert instr.operands[..1] == [dst] && [dst][..0] == [] && instr.operands[1..] == [src];
    assert MemoryOperand(instr, [], true) == None && OtherOperand([src], 0) == Some(src);
    assert dst.IsMemory() ==> MemoryOperand(instr, [dst], true) == Some(dst);
    assert dst.kind == REG ==> MemoryOperand(instr, [dst], true) == None;
  }

  // -- the port ----------------------------------------------------------------------------------

  type Program = map<int, Instruction>

  predicate Listing(code: Program) { forall ea :: ea in code ==> code[ea].ea == ea && code[ea].size == 1 }

  function PortOf(code: Program, blocks: seq<Block>, deltas: map<(int, int), int>): IdaPort {
    FakePort.AsPort(FakeOf(code, blocks, deltas))
  }

  ghost predicate HasWords(port: IdaPort) {
    && port.pointerSize == 8 && port.stackPointerReg == Some(4) && port.framePointerReg == Some(5)
    && port.returnValueReg == Some(0) && port.callClobbered == {0, 1, 2}
    && (forall r, n :: 0 <= r < 6 && (n == 0 || n == 8) ==> port.registerView(r, n) == Some(RegisterView(r, 0, 64, 64, true)))
    && (forall r :: 0 <= r < 6 ==> port.registerView(r, 4) == Some(RegisterView(r, 0, 32, 64, true)))
    && (forall n :: port.registerView(16, n) == Some(RegisterView(0, 0, 8, 64, false)))
  }

  /** What matters of the port of a program. */
  ghost predicate Hosts(port: IdaPort, code: Program, blocks: seq<Block>, deltas: map<(int, int), int>) {
    && DecodesInPlace(port) && LayoutContract(port) && HasWords(port)
    && (forall ea :: port.decodeAt(ea) == if ea in code then Some(code[ea]) else None)
    && (forall ea :: port.isHead(ea) <==> ea in code)
    && (forall ea :: 0 <= ea < 16 ==> port.funcStart(ea) == Some(0)) && port.flowchart(0) == blocks
    && (forall ea :: port.spDelta(0, ea) == if (0, ea) in deltas then Some(deltas[(0, ea)]) else None)
  }

  function FakeOf(code: Program, blocks: seq<Block>, deltas: map<(int, int), int>): FakePort.Fake {
    FakePort.Fake(8, REGISTERS, code, [(0, 16)], map[], map[0 := blocks], map[], deltas)
  }

  lemma RegistersAreListed()
    ensures REGISTERS["rax"] == 0 && REGISTERS["rcx"] == 1 && REGISTERS["rdx"] == 2
    ensures REGISTERS["rbx"] == 3 && REGISTERS["rsp"] == 4 && REGISTERS["rbp"] == 5
    ensures forall r :: 0 <= r < 6 ==> r in REGISTERS.Values
  {}

  lemma WordsAreViewed(f: FakePort.Fake)
    requires f.pointerSize == 8 && f.registers == REGISTERS
    ensures var port := FakePort.AsPort(f);
      && (forall r, n :: 0 <= r < 6 && (n == 0 || n == 8) ==> port.registerView(r, n) == Some(RegisterView(r, 0, 64, 64, true)))
      && (forall r :: 0 <= r < 6 ==> port.registerView(r, 4) == Some(RegisterView(r, 0, 32, 64, true)))
      && (forall n :: port.registerView(16, n) == Some(RegisterView(0, 0, 8, 64, false)))
  {
    RegistersAreListed();
  }

  lemma WordsAreClobbered(f: FakePort.Fake)
    requires f.pointerSize == 8 && f.registers == REGISTERS
    ensures FakePort.AsPort(f).callClobbered == {0, 1, 2}
  {
    RegistersAreListed();
    var clobbered := FakePort.AsPort(f).callClobbered;
    assert forall name :: name in FakePort.WIDE_CLOBBERED && name in REGISTERS ==> name == "rax" || name == "rcx" || name == "rdx";
    assert "rax" in FakePort.WIDE_CLOBBERED && "rcx" in FakePort.WIDE_CLOBBERED && "rdx" in FakePort.WIDE_CLOBBERED;
    assert clobbered == {0, 1, 2};
  }

  lemma WordsAreHosted(f: FakePort.Fake)
    requires f.pointerSize == 8 && f.registers == REGISTERS
    ensures HasWords(FakePort.AsPort(f))
  {
    WordsAreViewed(f);
    WordsAreClobbered(f);
    WordsAreNamed(f);
    hide FakePort.AsPort;
  }

  lemma WordsAreNamed(f: FakePort.Fake)
    requires f.pointerSize == 8 && f.registers == REGISTERS
    ensures var port := FakePort.AsPort(f);
      port.pointerSize == 8 && port.stackPointerReg == Some(4) && port.framePointerReg == Some(5) && port.returnValueReg == Some(0)
  {
    RegistersAreListed();
  }

  lemma CodeIsHosted(code: Program, blocks: seq<Block>, deltas: map<(int, int), int>)
    ensures var port := FakePort.AsPort(FakeOf(code, blocks, deltas));
      && (forall ea :: port.decodeAt(ea) == if ea in code then Some(code[ea]) else None)
      && (forall ea :: port.isHead(ea) <==> ea in code)
      && (forall ea :: 0 <= ea < 16 ==> port.funcStart(ea) == Some(0)) && port.flowchart(0) == blocks
      && (forall ea :: port.spDelta(0, ea) == if (0, ea) in deltas then Some(deltas[(0, ea)]) else None)
  {}

  lemma Hosted(code: Program, blocks: seq<Block>, deltas: map<(int, int), int>)
    requires Listing(code)
    ensures Hosts(PortOf(code, blocks, deltas), code, blocks, deltas)
  {
    hide LayoutContract, DecodesInPlace, HasWords, FakePort.AsPort;
    var f := FakeOf(code, blocks, deltas);
    assert FakePort.RegistersAreWhole(f) by { RegistersAreListed(); }
    FakePort.FakePortKeepsItsPromises(f);
    WordsAreHosted(f);
    CodeIsHosted(code, blocks, deltas);
  }

  // -- support -----------------------------------------------------------------------------------

  /** A whole register, a constant or a word of memory. */
  predicate Plain(op: Operand) {
    || (op.kind == REG && op.reg.Some? && 0 <= op.reg.value < 6 && (op.dtypeSize == 8 || op.dtypeSize == 4))
    || op.kind == IMMEDIATE
    || (op.IsMemory() && Addressed(op))
  }

  lemma TwoIsWellDecoded(port: IdaPort, ea: int, mnem: string, dst: Operand, src: Operand, alsoRead: bool)
    requires HasWords(port) && Pair(dst, src) && Plain(dst) && Plain(src)
    ensures WellDecoded(port, Two(ea, mnem, dst, src, alsoRead))
  {}

  lemma TwoIsSupported(port: IdaPort, own: Locator, ea: int, mnem: string, dst: Operand, src: Operand, alsoRead: bool)
    requires HasWords(port) && Pair(dst, src) && Plain(dst) && Plain(src)
    requires own != XchgRegReg && own != Push && own != CallReturn && Matches(own, Two(ea, mnem, dst, src, alsoRead))
    requires WidthsFit(port, own, Two(ea, mnem, dst, src, alsoRead))
    ensures Supported(port, Two(ea, mnem, dst, src, alsoRead))
  {
    var instr := Two(ea, mnem, dst, src, alsoRead);
    TwoReads(ea, mnem, dst, src, alsoRead);
    TwoIsWellDecoded(port, ea, mnem, dst, src, alsoRead);
    hide FindOperand, Flag, StartsWith, Matches, WellDecoded, WidthsFit;
    assert FlagsFit(own, instr);
    forall loc | Matches(loc, instr) ensures loc == own { BuiltinsAreDisjoint(loc, own, instr); }
  }

  // -- the instructions that the programs are made of ----------------------------------------------

  function SetTo(ea: int, reg: int, value: int): Instruction { Two(ea, "mov", Reg(0, reg), Imm(1, value), false) }

  function AddTo(ea: int, reg: int, value: int): Instruction { Two(ea, "add", Reg(0, reg), Imm(1, value), true) }

  function CopyTo(ea: int, reg: int, source: int): Instruction { Two(ea, "mov", Reg(0, reg), Reg(1, source), false) }

  function StoreAt(ea: int, op: Operand, value: int): Instruction { Two(ea, "mov", op, Imm(1, value), false) }

  function LoadFrom(ea: int, reg: int, op: Operand): Instruction { Two(ea, "mov", Reg(0, reg), op, false) }

  lemma WordOperand(port: IdaPort, number: int, reg: int)
    requires HasWords(port) && 0 <= reg < 6
    ensures OpView(port, Reg(number, reg)) == RegisterView(reg, 0, 64, 64, true)
    ensures Whole(port, reg) && Bits(port, reg) == 64 && FullRead(port, Reg(number, reg)) && Sized(port, Reg(number, reg))
    ensures WordBits(port) == 64
  {}

  lemma SetFits(port: IdaPort, ea: int, reg: int, value: int)
    requires HasWords(port) && 0 <= reg < 6 && FitsWord(value, 64)
    ensures Matches(MovRegImm, SetTo(ea, reg, value)) && Supported(port, SetTo(ea, reg, value))
  {
    WordOperand(port, 0, reg);
    TwoReads(ea, "mov", Reg(0, reg), Imm(1, value), false);
    hide HasWords, OpView, Pow2, FindOperand, Flag, StartsWith, Supported, LayoutContract;
    assert Plain(Reg(0, reg)) && Plain(Imm(1, value));
    TwoIsSupported(port, MovRegImm, ea, "mov", Reg(0, reg), Imm(1, value), false);
  }

  lemma AddFits(port: IdaPort, ea: int, reg: int, value: int)
    requires HasWords(port) && 0 <= reg < 6
    ensures Matches(AddSubRegImm, AddTo(ea, reg, value)) && Supported(port, AddTo(ea, reg, value))
  {
    WordOperand(port, 0, reg);
    TwoReads(ea, "add", Reg(0, reg), Imm(1, value), true);
    hide HasWords, OpView, Pow2, FindOperand, Flag, StartsWith, Supported, LayoutContract;
    assert Plain(Reg(0, reg)) && Plain(Imm(1, value));
    TwoIsSupported(port, AddSubRegImm, ea, "add", Reg(0, reg), Imm(1, value), true);
  }

  lemma CopyFits(port: IdaPort, ea: int, reg: int, source: int)
    requires HasWords(port) && 0 <= reg < 6 && 0 <= source < 6
    ensures Matches(MovRegReg, CopyTo(ea, reg, source)) && Supported(port, CopyTo(ea, reg, source))
  {
    WordOperand(port, 0, reg);
    WordOperand(port, 1, source);
    TwoReads(ea, "mov", Reg(0, reg), Reg(1, source), false);
    hide HasWords, OpView, Pow2, FindOperand, Flag, StartsWith, Supported, LayoutContract;
    assert Plain(Reg(0, reg)) && Plain(Reg(1, source));
    TwoIsSupported(port, MovRegReg, ea, "mov", Reg(0, reg), Reg(1, source), false);
  }

  lemma StoreFits(port: IdaPort, ea: int, op: Operand, value: int)
    requires HasWords(port) && op.number == 0 && op.IsMemory() && Addressed(op) && FitsWord(value, 64)
    ensures Matches(MovMemImm, StoreAt(ea, op, value)) && Supported(port, StoreAt(ea, op, value))
  {
    TwoReads(ea, "mov", op, Imm(1, value), false);
    hide HasWords, OpView, Pow2, FindOperand, Flag, StartsWith, Supported, LayoutContract;
    assert Plain(op) && Plain(Imm(1, value));
    TwoIsSupported(port, MovMemImm, ea, "mov", op, Imm(1, value), false);
  }

  lemma LoadFits(port: IdaPort, ea: int, reg: int, op: Operand)
    requires HasWords(port) && 0 <= reg < 6 && op.number == 1 && op.IsMemory() && Addressed(op)
    ensures Matches(MovRegMem, LoadFrom(ea, reg, op)) && Supported(port, LoadFrom(ea, reg, op))
  {
    WordOperand(port, 0, reg);
    TwoReads(ea, "mov", Reg(0, reg), op, false);
    hide HasWords, OpView, Pow2, FindOperand, Flag, StartsWith, Supported, LayoutContract;
    assert Plain(Reg(0, reg)) && Plain(op);
    TwoIsSupported(port, MovRegMem, ea, "mov", Reg(0, reg), op, false);
  }

  lemma SetReads(port: IdaPort, ea: int, reg: int, value: int)
    requires HasWords(port) && 0 <= reg < 6 && FitsWord(value, 64)
    ensures var instr := SetTo(ea, reg, value);
      && WellDecoded(port, instr) && Dst(instr) == Reg(0, reg) && Src(instr) == Imm(1, value) && Defines(port, Reg(0, reg))
      && instr.OperandAt(0).Some? && instr.OperandAt(1).Some? && Matches(MovRegImm, instr)
  {
    WordOperand(port, 0, reg);
    TwoReads(ea, "mov", Reg(0, reg), Imm(1, value), false);
    TwoIsWellDecoded(port, ea, "mov", Reg(0, reg), Imm(1, value), false);
    hide HasWords, OpView, Pow2, FindOperand, WellDecoded;
  }

  lemma SetRuns(port: IdaPort, func: int, ea: int, reg: int, value: int, m: MState) returns (m': MState)
    requires HasWords(port) && LayoutContract(port) && InRange(port, m) && 0 <= reg < 6 && FitsWord(value, 64)
    ensures Executes(port, func, SetTo(ea, reg, value), m, m') && InRange(port, m') && m'.Reg(reg) == value
  {
    hide HasWords, LayoutContract, InRange, Executes, Supported, WellDecoded, Pow2, FindOperand, Matches, Defines, OpView;
    SetFits(port, ea, reg, value);
    SetReads(port, ea, reg, value);
    m' := CanExecute(port, func, SetTo(ea, reg, value), m);
    ExecutionIsInRange(port, func, SetTo(ea, reg, value), m, m');
    LocatorWordIsLeft(port, func, MovRegImm, SetTo(ea, reg, value), m, m');
  }

  lemma AddReads(port: IdaPort, ea: int, reg: int, value: int)
    requires HasWords(port) && 0 <= reg < 6
    ensures var instr := AddTo(ea, reg, value);
      && WellDecoded(port, instr) && Dst(instr) == Reg(0, reg) && Src(instr) == Imm(1, value) && Defines(port, Reg(0, reg))
      && instr.OperandAt(0).Some? && instr.OperandAt(1).Some? && Matches(AddSubRegImm, instr) && AddSubDelta(instr) == value
  {
    WordOperand(port, 0, reg);
    TwoReads(ea, "add", Reg(0, reg), Imm(1, value), true);
    TwoIsWellDecoded(port, ea, "add", Reg(0, reg), Imm(1, value), true);
    hide HasWords, OpView, Pow2, FindOperand, WellDecoded;
  }

  lemma AddRuns(port: IdaPort, func: int, ea: int, reg: int, value: int, m: MState) returns (m': MState)
    requires HasWords(port) && LayoutContract(port) && InRange(port, m) && 0 <= reg < 6
    ensures Executes(port, func, AddTo(ea, reg, value), m, m') && InRange(port, m') && m'.Reg(reg) == WrapToWidth(m.Reg(reg) + value, 8)
  {
    hide HasWords, LayoutContract, InRange, Executes, Supported, WellDecoded, Pow2, FindOperand, Matches, Defines,
         OpView, WrapToWidth;
    AddFits(port, ea, reg, value);
    AddReads(port, ea, reg, value);
    m' := CanExecute(port, func, AddTo(ea, reg, value), m);
    ExecutionIsInRange(port, func, AddTo(ea, reg, value), m, m');
    LocatorWordIsLeft(port, func, AddSubRegImm, AddTo(ea, reg, value), m, m');
  }

  // -- what the forward engine makes of it -------------------------------------------------------

  lemma {:induction false} NothingIsPartial(port: IdaPort, instr: Instruction, ops: seq<Operand>, s: State)
    requires forall op :: op in ops ==> !PartialWrite(port, instr, op)
    ensures InvalidatePartial(port, instr, ops, s) == s
  {
    hide PartialWrite;
    if ops != [] { NothingIsPartial(port, instr, ops[..|ops| - 1], s); }
  }

  /** A forward locator's rule is all there is to its step when no write is partial. */
  lemma LocatorSteps(e: Engine, own: Locator, instr: Instruction, func: int, s: State)
    requires HasWords(e.port) && own in e.locators && Matches(own, instr) && DefinesForward(own)
    requires forall op :: op in instr.operands ==> Plain(op)
    ensures Step(e, instr, func, s) == ApplyForward(own, instr, s)
  {
    DispatchFindsTheMatch(e.locators, own, instr);
    MnemonicsDiffer(instr.mnem);
    NothingIsPartial(e.port, instr, instr.operands, Transfer(e, instr, func, s));
    hide ApplyForward, InvalidatePartial, Dispatch, FindOperand;
  }

  lemma LocatorIsForward(e: Engine, own: Locator, instr: Instruction, func: int)
    requires own in e.locators && Matches(own, instr) && DefinesForward(own) && own != CmovRegReg
    ensures ForwardSupported(e, instr, func)
  {
    DispatchFindsTheMatch(e.locators, own, instr);
    hide Matches, Dispatch;
  }

  lemma SmallWordsDoNotWrap(n: int)
    requires 0 <= n < 0x1_0000
    ensures FitsWord(n, 64) && n % Pow2(64) == n
  {
    Pow2Grows(16, 64);
    assert Pow2(16) == 0x1_0000 by { assert Pow2(8) == 256; Pow2Adds(8, 8); }
    DivisionIsUnique(n, Pow2(64), 0, n);
  }
}
