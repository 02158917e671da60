/** A concrete machine for the code under analysis, and the conditions under which the
  engines' approximations are meant to hold.

  Registers hold fixed-width words and are read and written through their views, with
  the widening and truncation of the real instructions.  Memory cells are named by
  region and offset, which is exactly the no-aliasing approximation the engines
  document: two names are two cells.

  What an instruction writes is what its operand flags say, and what it writes unseen: the
  stack below a push, the registers it does not name, all but the caller's frame in a call,
  and every cell whose base register it writes. */
module Machine {
  import opened Values
  import opened InsnModel
  import opened Port
  import opened State
  import opened Addressing
  import opened Locators
  import opened Arithmetic
  import opened StackEffects

  /** `rets` remembers which call site has returned which value so far. */
  datatype MState = MState(regs: map<int, int>, cells: map<Cell, int>, rets: set<(int, int)>)
  {
    function Reg(parent: int): int { if parent in regs then regs[parent] else 0 }

    function Mem(cell: Cell): int { if cell in cells then cells[cell] else 0 }
  }

  // -- register layout ---------------------------------------------------------------

  /** A register the port cannot describe stands alone at word width. */
  function ViewOf(port: IdaPort, reg: int, size: int): RegisterView {
    match port.registerView(reg, size)
    case Some(view) => view
    case None => RegisterView(reg, 0, 8 * port.pointerSize, 8 * port.pointerSize, true)
  }

  function Parent(port: IdaPort, reg: int): int { ViewOf(port, reg, 0).parent }

  function Bits(port: IdaPort, parent: int): nat { ViewOf(port, parent, 0).parentBitSize }

  /** The number names a register that is nobody's part. */
  predicate Whole(port: IdaPort, reg: int) { Parent(port, reg) == reg }

  function OpView(port: IdaPort, op: Operand): RegisterView
    requires op.reg.Some?
  {
    ViewOf(port, op.reg.value, op.dtypeSize)
  }

  /** Writing through the operand leaves its whole parent register defined. */
  predicate Defines(port: IdaPort, op: Operand) { op.reg.Some? && OpView(port, op).writeDefinesParent }

  /** The operand reads its whole parent register. */
  predicate FullRead(port: IdaPort, op: Operand) {
    && op.kind == REG && op.reg.Some? && Whole(port, op.reg.value)
    && OpView(port, op).bitOffset == 0 && OpView(port, op).bitSize == Bits(port, op.reg.value)
  }

  /** What the adapter promises of `register_view` and of the platform's register sets. */
  ghost predicate LayoutContract(port: IdaPort) {
    && (forall r, n ::
          var v := ViewOf(port, r, n);
          && (port.registerView(r, n).Some? <==> port.registerView(r, 0).Some?)
          && v.parent == Parent(port, r) && Whole(port, v.parent)
          && (port.registerView(r, n).Some? ==> port.registerView(v.parent, 0).Some?)
          && v.parentBitSize == Bits(port, v.parent)
          && (v.writeDefinesParent ==> v.parent == r && v.bitOffset == 0)
          && (v.bitOffset == 0 && v.bitSize >= v.parentBitSize ==> v.writeDefinesParent))
    && (forall r :: Whole(port, r) ==>
          ViewOf(port, r, 0).bitOffset == 0 && ViewOf(port, r, 0).bitSize == ViewOf(port, r, 0).parentBitSize)
    && (forall r :: r in port.callClobbered ==> Whole(port, r))
    && (port.returnValueReg.Some? ==> Whole(port, port.returnValueReg.value))
  }

  /** Every register and every cell holds a word of its width. */
  ghost predicate InRange(port: IdaPort, m: MState) {
    && (forall p :: 0 <= m.Reg(p) < Pow2(Bits(port, p)))
    && (forall c :: 0 <= m.Mem(c) < Pow2(8 * port.pointerSize))
  }

  // -- instruction semantics -----------------------------------------------------------

  function ReadView(port: IdaPort, m: MState, op: Operand): int {
    if op.reg.None? then 0
    else
      var view := OpView(port, op);
      (m.Reg(view.parent) / Pow2(view.bitOffset)) % Pow2(view.bitSize)
  }

  /** A write that does not define its parent leaves the parent unspecified. */
  ghost predicate Sets(port: IdaPort, op: Operand, value: int, m': MState) {
    Defines(port, op) ==> m'.Reg(OpView(port, op).parent) == value % Pow2(OpView(port, op).bitSize)
  }

  /** `movsx` and `movsxd` extend the sign of the part they read, the others zero. */
  function Extended(port: IdaPort, instr: Instruction, m: MState, src: Operand): int {
    var read := ReadView(port, m, src);
    if ExtendsSign(instr) && src.reg.Some? && OpView(port, src).bitSize > 0
    then SignExtend(read, OpView(port, src).bitSize) else read
  }

  predicate NamesOneCell(op: Operand) { op.IsMemory() && Addressed(op) && !op.HasIndex() }

  ghost predicate ComputesFromRegister(port: IdaPort, instr: Instruction, dst: Operand, src: Operand, m: MState, m': MState) {
    && (instr.IsMove() ==> Sets(port, dst, Extended(port, instr, m, src), m'))
    && (instr.mnem == "xchg" ==>
          Sets(port, dst, ReadView(port, m, src), m') && Sets(port, src, ReadView(port, m, dst), m'))
    && (StartsWith(instr.mnem, "cmov") ==>
          Sets(port, dst, ReadView(port, m, dst), m') || Sets(port, dst, ReadView(port, m, src), m'))
    && (instr.mnem == "sub" && dst.reg == src.reg ==> Sets(port, dst, ReadView(port, m, dst) - ReadView(port, m, src), m'))
    && (instr.mnem == "xor" && dst.reg == src.reg && ReadView(port, m, dst) == ReadView(port, m, src) ==> Sets(port, dst, 0, m'))
  }

  ghost predicate ComputesFromConstant(port: IdaPort, instr: Instruction, dst: Operand, src: Operand, m: MState, m': MState) {
    && (instr.mnem == "mov" ==> Sets(port, dst, src.immValue, m'))
    && (instr.mnem == "add" ==> Sets(port, dst, ReadView(port, m, dst) + src.immValue, m'))
    && (instr.mnem == "sub" ==> Sets(port, dst, ReadView(port, m, dst) - src.immValue, m'))
  }

  predicate ExtendsSign(instr: Instruction) { instr.mnem == "movsx" || instr.mnem == "movsxd" }

  /** What a load fetches: a plain `mov` as much of the word as its destination takes, the
    widening moves the part their source names, extended. */
  function Loaded(instr: Instruction, src: Operand, word: int): int {
    var bits := 8 * WidthOf(src.dtypeSize);
    if instr.mnem == "mov" then word
    else if ExtendsSign(instr) then SignExtend(word % Pow2(bits), bits)
    else word % Pow2(bits)
  }

  ghost predicate ComputesFromMemory(port: IdaPort, func: int, instr: Instruction, dst: Operand, src: Operand, m: MState, m': MState) {
    var word := m.Mem(OperandCell(port, src, instr.ea, func));
    && (instr.IsMove() ==> Sets(port, dst, Loaded(instr, src, word), m'))
    && (StartsWith(instr.mnem, "cmov") ==> Sets(port, dst, ReadView(port, m, dst), m') || Sets(port, dst, word, m'))
    && (instr.mnem == "lea" && src.kind == MEM_DIRECT ==> Sets(port, dst, src.addr, m'))
    && (instr.mnem == "lea" && src.IsBased() && src.reg.Some? ==>
          Sets(port, dst, m.Reg(Parent(port, src.reg.value)) + src.disp, m'))
  }

  function WordBits(port: IdaPort): nat { 8 * port.pointerSize }

  ghost predicate ComputesStore(port: IdaPort, func: int, instr: Instruction, dst: Operand, src: Operand, m: MState, m': MState) {
    instr.mnem == "mov" ==>
      var cell := OperandCell(port, dst, instr.ea, func);
      && (src.kind == IMMEDIATE ==> m'.Mem(cell) == src.immValue % Pow2(WordBits(port)))
      && (src.kind == REG ==> m'.Mem(cell) == ReadView(port, m, src) % Pow2(WordBits(port)))
  }

  /** The word a push stores. */
  function PushedWord(port: IdaPort, func: int, push: Instruction, m: MState): int
    requires push.OperandAt(0).Some?
  {
    var op := Dst(push);
    (if op.kind == REG then ReadView(port, m, op)
     else if op.kind == IMMEDIATE then op.immValue
     else m.Mem(OperandCell(port, op, push.ea, func))) % Pow2(WordBits(port))
  }

  /** A push moves the stack pointer down one word and stores its operand there. */
  ghost predicate ComputesPush(port: IdaPort, func: int, instr: Instruction, m: MState, m': MState) {
    instr.mnem == "push" && instr.OperandAt(0).Some? ==>
      && (port.stackPointerReg.Some? ==>
            var sp := Parent(port, port.stackPointerReg.value);
            m'.Reg(sp) == (m.Reg(sp) - port.pointerSize) % Pow2(Bits(port, sp)))
      && (port.spDelta(func, instr.ea).Some? ==>
            m'.Mem(BelowTheStack(port, func, instr)) == PushedWord(port, func, instr, m))
  }

  /** The cell just below the stack pointer. */
  function BelowTheStack(port: IdaPort, func: int, instr: Instruction): Cell
    requires port.spDelta(func, instr.ea).Some?
  {
    Cell(StackPointer, port.spDelta(func, instr.ea).value - port.pointerSize)
  }

  /** What the instructions with known semantics put in their destinations. */
  ghost predicate Computes(port: IdaPort, func: int, instr: Instruction, m: MState, m': MState) {
    instr.OperandAt(0).Some? && instr.OperandAt(1).Some? ==>
      var dst, src := Dst(instr), Src(instr);
      && (dst.kind == REG && src.kind == REG ==> ComputesFromRegister(port, instr, dst, src, m, m'))
      && (dst.kind == REG && src.kind == IMMEDIATE ==> ComputesFromConstant(port, instr, dst, src, m, m'))
      && (dst.kind == REG && NamesOneCell(src) ==> ComputesFromMemory(port, func, instr, dst, src, m, m'))
      && (NamesOneCell(dst) ==> ComputesStore(port, func, instr, dst, src, m, m'))
  }

  // -- what is written ---------------------------------------------------------------------

  ghost predicate WritesRegister(port: IdaPort, instr: Instruction, parent: int) {
    exists op :: op in instr.operands && op.kind == REG && op.reg.Some? && instr.IsWritten(op.number)
                 && Parent(port, op.reg.value) == parent
  }

  /** An indexed write may land on any cell of its region. */
  predicate MayLandOn(port: IdaPort, op: Operand, ea: int, func: int, cell: Cell) {
    var target := OperandCell(port, op, ea, func);
    Addressed(op) ==> target.space == cell.space && (op.HasIndex() || target.offset == cell.offset)
  }

  ghost predicate WritesCell(port: IdaPort, func: int, instr: Instruction, cell: Cell) {
    exists op :: op in instr.operands && op.IsMemory() && instr.IsWritten(op.number)
                 && MayLandOn(port, op, instr.ea, func, cell)
  }

  predicate CallDestroys(port: IdaPort, parent: int) {
    parent in port.callClobbered || port.returnValueReg == Some(parent)
  }

  // -- what is written without being named --------------------------------------------------

  predicate MovesTheStack(instr: Instruction) { instr.IsCall() || EffectOf(instr.mnem) != Still }

  predicate IsString(mnem: string) {
    |mnem| == 5 && (mnem[..4] == "movs" || mnem[..4] == "stos" || mnem[..4] == "lods" || mnem[..4] == "scas" || mnem[..4] == "cmps")
  }

  /** The registers that an instruction writes by its meaning and not by its operands. */
  function ImplicitNames(instr: Instruction): set<string> {
    var m := instr.mnem;
    if m == "mul" || m == "div" || m == "idiv" || (m == "imul" && |instr.operands| == 1) || m == "rdtsc"
      then {"rax", "eax", "rdx", "edx"}
    else if m == "cdq" || m == "cqo" || m == "cwd" then {"rdx", "edx"}
    else if m == "cbw" || m == "cwde" || m == "cdqe" || m == "xlat" || m == "lahf" || m == "cmpxchg" then {"rax", "eax"}
    else if m == "cpuid" then {"rax", "eax", "rbx", "ebx", "rcx", "ecx", "rdx", "edx"}
    else if m == "loop" || m == "loope" || m == "loopne" then {"rcx", "ecx"}
    else if IsString(m) then {"rsi", "esi", "rdi", "edi", "rcx", "ecx", "rax", "eax"}
    else {}
  }

  ghost predicate ImplicitlyWrites(port: IdaPort, instr: Instruction, parent: int) {
    || (MovesTheStack(instr) && port.stackPointerReg.Some? && Parent(port, port.stackPointerReg.value) == parent)
    || ((instr.mnem == "enter" || instr.mnem == "leave") && port.framePointerReg.Some?
        && Parent(port, port.framePointerReg.value) == parent)
    || exists name :: name in ImplicitNames(instr) && port.registerByName(name).Some?
                      && Parent(port, port.registerByName(name).value) == parent
  }

  /** The words an instruction puts below the stack pointer; where that is not known, it
    may be any stack cell. */
  predicate GrowsOver(port: IdaPort, func: int, instr: Instruction, cell: Cell) {
    var effect := EffectOf(instr.mnem);
    (effect.Grows? || effect.Elsewhere?) &&
    match cell.space
    case StackUnknown(_) => true
    case StackPointer =>
      (match port.spDelta(func, instr.ea)
       case None => true
       case Some(delta) => cell.offset < delta && (effect.Grows? ==> delta - effect.words * port.pointerSize <= cell.offset))
    case _ => false
  }

  /** What a callee is trusted to leave alone: the frame of its caller. */
  predicate CallerFrame(port: IdaPort, func: int, ea: int, cell: Cell) {
    match cell.space
    case FramePointer => true
    case StackPointer => (match port.spDelta(func, ea) case None => false case Some(delta) => delta <= cell.offset)
    case _ => false
  }

  function BaseOf(port: IdaPort, space: Space): Option<int> {
    match space
    case Based(reg) => Some(reg)
    case FramePointer => port.framePointerReg
    case Segment(_, inner) => BaseOf(port, inner)
    case _ => None
  }

  /** Once its base register is written, the name stands for another cell. */
  ghost predicate Rebases(port: IdaPort, instr: Instruction, cell: Cell) {
    var base := BaseOf(port, cell.space);
    base.Some? &&
    var parent := Parent(port, base.value);
    WritesRegister(port, instr, parent) || ImplicitlyWrites(port, instr, parent) || (instr.IsCall() && CallDestroys(port, parent))
  }

  /** The instruction may change the target without an operand that says so. */
  ghost predicate HiddenlyWrites(port: IdaPort, func: int, instr: Instruction, t: Target) {
    match t
    case Register(reg) => ImplicitlyWrites(port, instr, reg)
    case Memory(cell) =>
      GrowsOver(port, func, instr, cell) || Rebases(port, instr, cell) || (instr.IsCall() && !CallerFrame(port, func, instr.ea, cell))
  }

  /** The operands, or a call, say that the instruction may change the target. */
  ghost predicate OpenlyWrites(port: IdaPort, func: int, instr: Instruction, t: Target) {
    match t
    case Register(reg) => WritesRegister(port, instr, reg) || (instr.IsCall() && CallDestroys(port, reg))
    case Memory(cell) => WritesCell(port, func, instr, cell)
  }

  function ValueOf(t: Target, m: MState): int {
    match t
    case Register(reg) => m.Reg(reg)
    case Memory(cell) => m.Mem(cell)
  }

  /** Nothing changes but what is written, openly or not; a call leaves its answer in the
    return register. */
  ghost predicate KeepsTheRest(port: IdaPort, func: int, instr: Instruction, m: MState, m': MState) {
    && (forall t :: ValueOf(t, m') == ValueOf(t, m) || OpenlyWrites(port, func, instr, t) || HiddenlyWrites(port, func, instr, t))
    && m'.rets == if instr.IsCall() && port.returnValueReg.Some?
                  then m.rets + {(instr.ea, m'.Reg(port.returnValueReg.value))} else m.rets
  }

  /** One instruction executed. */
  ghost predicate Executes(port: IdaPort, func: int, instr: Instruction, m: MState, m': MState) {
    && InRange(port, m')
    && Computes(port, func, instr, m, m') && ComputesPush(port, func, instr, m, m')
    && KeepsTheRest(port, func, instr, m, m')
  }

  lemma ExecutionIsInRange(port: IdaPort, func: int, instr: Instruction, m: MState, m': MState)
    requires Executes(port, func, instr, m, m')
    ensures InRange(port, m') && m.rets <= m'.rets
  {
    hide InRange, Computes, ComputesPush, OpenlyWrites, HiddenlyWrites;
  }

  ghost predicate ExecutesAll(port: IdaPort, func: int, code: seq<Instruction>, trace: seq<MState>) {
    && |trace| == |code| + 1
    && forall i :: 0 <= i < |code| ==> Executes(port, func, code[i], trace[i], trace[i + 1])
  }

  // -- the instructions the approximations are meant for ----------------------------------

  /** Operand flags as the processor module gives them for the shape. */
  predicate FlagsFit(loc: Locator, instr: Instruction) {
    forall op :: op in instr.operands ==>
      (instr.IsWritten(op.number) <==>
        match loc
        case XchgRegReg => op.number == 0 || op.number == 1
        case Push => false
        case CallReturn => false
        case _ => op.number == 0)
  }

  predicate Sized(port: IdaPort, op: Operand) {
    op.reg.Some? && OpView(port, op).bitSize == 8 * WidthOf(op.dtypeSize)
  }

  predicate FitsWord(value: int, bits: nat) { 0 <= value < Pow2(bits) }

  /** Sources are whole registers of the destination's width, and constants fit it: `mov`
    and its relatives pass values through untruncated. */
  predicate WidthsFit(port: IdaPort, loc: Locator, instr: Instruction)
    requires Matches(loc, instr)
  {
    loc == Push || loc == CallReturn ||
    var dst, src := Dst(instr), Src(instr);
    match loc
    case MovRegReg => Defines(port, dst) ==> FullRead(port, src) && OpView(port, dst).bitSize == OpView(port, src).bitSize
    case MovRegImm => Defines(port, dst) ==> FitsWord(src.immValue, OpView(port, dst).bitSize)
    case LeaRegAddr => Defines(port, dst) ==> FitsWord(src.addr, OpView(port, dst).bitSize) && !src.HasIndex()
    case XchgRegReg =>
      Defines(port, dst) || Defines(port, src) ==>
        FullRead(port, dst) && FullRead(port, src) && OpView(port, dst).bitSize == OpView(port, src).bitSize
    case LeaRegDispl => Defines(port, dst) ==> Sized(port, dst) && Whole(port, src.reg.value)
    case AddSubRegImm => Defines(port, dst) ==> Sized(port, dst)
    case ZeroIdiom => dst.dtypeSize == src.dtypeSize
    case _ => true
  }

  predicate StoresWord(port: IdaPort, src: Operand) {
    && (src.kind == IMMEDIATE ==> FitsWord(src.immValue, WordBits(port)))
    && (src.kind == REG ==> FullRead(port, src) && Bits(port, src.reg.value) <= WordBits(port))
  }

  predicate LoadsWord(port: IdaPort, instr: Instruction, dst: Operand) {
    Defines(port, dst) ==> instr.mnem == "mov" && OpView(port, dst).bitSize == WordBits(port)
  }

  /** Loads and stores that name one cell move whole words. */
  predicate MemoryWidthsFit(port: IdaPort, loc: Locator, instr: Instruction)
    requires Matches(loc, instr)
  {
    match loc
    case MovMemImm => NamesOneCell(Dst(instr)) ==> StoresWord(port, Src(instr))
    case MovMemReg => NamesOneCell(Dst(instr)) ==> StoresWord(port, Src(instr))
    case MovRegMem => !Src(instr).HasIndex() && !Src(instr).HasSegment() ==> LoadsWord(port, instr, Dst(instr))
    case _ => true
  }

  /** Decoded as the decoder promises. */
  ghost predicate WellDecoded(port: IdaPort, instr: Instruction) {
    && (forall i, j :: 0 <= i < j < |instr.operands| ==> instr.operands[i].number != instr.operands[j].number)
    && (forall op :: op in instr.operands ==>
          && (op.kind == REG || op.IsBased() ==> op.reg.Some?)
          && (op.kind == REG ==> OpView(port, op).bitSize <= Bits(port, Parent(port, op.reg.value)))
          && (op.IsMemory() ==> Addressed(op)))
  }

  /** Flagged and sized as the locators assume. */
  ghost predicate Supported(port: IdaPort, instr: Instruction) {
    WellDecoded(port, instr) && forall loc :: Matches(loc, instr) ==> FlagsFit(loc, instr) && WidthsFit(port, loc, instr)
  }

  ghost predicate MemorySupported(port: IdaPort, instr: Instruction) {
    forall loc :: Matches(loc, instr) ==> MemoryWidthsFit(port, loc, instr)
  }

  // -- runs ------------------------------------------------------------------------------

  /** One block of a run, with the machine state before each of its instructions and
    after the last. */
  datatype Hop = Hop(block: Block, trace: seq<MState>)

  /** A run through the graph: from the start of the entry block, each block executed to
    its end and followed by one of its successors, the last executed up to `boundary`. */
  ghost predicate IsRun(port: IdaPort, func: int, blocks: seq<Block>, entryStart: int, run: seq<Hop>, boundary: int) {
    && |run| > 0
    && run[0].block.startEa == entryStart
    && BlockAt(blocks, entryStart) == Some(run[0].block)
    && (forall i :: 0 <= i < |run| ==>
          ExecutesAll(port, func,
            Code(port, run[i].block.startEa, if i == |run| - 1 then boundary else run[i].block.endEa), run[i].trace))
    && InRange(port, run[0].trace[0]) && run[0].trace[0].rets == {}
    && (forall i :: 0 <= i < |run| - 1 ==>
          && run[i + 1].block in Successors(blocks, run[i].block)
          && run[i + 1].trace[0] == run[i].trace[|run[i].trace| - 1])
  }

  function LastState(run: seq<Hop>): MState
    requires |run| > 0 && |run[|run| - 1].trace| > 0
  {
    var trace := run[|run| - 1].trace;
    trace[|trace| - 1]
  }

  /** The graph lists every edge at both of its ends. */
  ghost predicate GraphContract(blocks: seq<Block>) {
    && (forall i, j :: 0 <= i < j < |blocks| ==> blocks[i].startEa != blocks[j].startEa)
    && (forall b, c :: b in blocks && c in blocks ==> (c in Successors(blocks, b) <==> b in Predecessors(blocks, c)))
  }

  // -- reading whole registers --------------------------------------------------------------

  lemma FullReadReads(port: IdaPort, m: MState, op: Operand)
    requires LayoutContract(port) && InRange(port, m) && FullRead(port, op)
    ensures ReadView(port, m, op) == m.Reg(op.reg.value)
    ensures OpView(port, op).parent == op.reg.value
  {
    var view := OpView(port, op);
    assert view.parent == op.reg.value;
    assert Pow2(0) == 1;
    assert 0 <= m.Reg(view.parent) < Pow2(Bits(port, view.parent));
    DivisionIsUnique(m.Reg(view.parent), Pow2(view.bitSize), 0, m.Reg(view.parent));
  }

  /** Extending the sign of a whole word does not change the word. */
  lemma SignExtensionIsCongruent(value: int, bits: nat)
    requires bits > 0 && FitsWord(value, bits)
    ensures SignExtend(value, bits) % Pow2(bits) == value
  {
    DivisionIsUnique(value, Pow2(bits), 0, value);
    ModDropsMultiples(value, -1, Pow2(bits));
  }

  lemma FullMoveCopies(port: IdaPort, instr: Instruction, m: MState, src: Operand)
    requires LayoutContract(port) && InRange(port, m) && FullRead(port, src)
    ensures Extended(port, instr, m, src) % Pow2(OpView(port, src).bitSize) == m.Reg(src.reg.value)
  {
    FullReadReads(port, m, src);
    var value, bits := m.Reg(src.reg.value), OpView(port, src).bitSize;
    DivisionIsUnique(value, Pow2(bits), 0, value);
    if bits > 0 { SignExtensionIsCongruent(value, bits); }
  }

  /** Folding wraps as the hardware does, although it starts from the whole register
    when the instruction reads only the part it writes. */
  lemma WrappedAddIsExact(port: IdaPort, m: MState, op: Operand, delta: int)
    requires LayoutContract(port) && Defines(port, op) && Sized(port, op)
    ensures var p := OpView(port, op).parent;
      (ReadView(port, m, op) + delta) % Pow2(OpView(port, op).bitSize) == WrapToWidth(m.Reg(p) + delta, op.dtypeSize)
  {
    var view := OpView(port, op);
    assert view.bitOffset == 0 && Pow2(0) == 1;
    ModAdds(m.Reg(view.parent), delta, Pow2(view.bitSize));
  }

  // -- what the known instructions leave behind -----------------------------------------------

  ghost predicate Stepped(port: IdaPort, func: int, instr: Instruction, m: MState, m': MState) {
    LayoutContract(port) && WellDecoded(port, instr) && InRange(port, m) && Executes(port, func, instr, m, m')
  }

  ghost predicate Ran(port: IdaPort, func: int, instr: Instruction, m: MState, m': MState) {
    Stepped(port, func, instr, m, m') && Supported(port, instr)
  }

  predicate SetsOneWord(loc: Locator) {
    loc.MovRegReg? || loc.MovRegImm? || loc.LeaRegAddr? || loc.MovRegMem? || loc.LeaRegDispl? || loc.AddSubRegImm?
    || loc.ZeroIdiom?
  }

  /** The word each locator takes its instruction to leave in the destination. */
  function LocatorWord(port: IdaPort, func: int, loc: Locator, instr: Instruction, m: MState): int
    requires Matches(loc, instr) && SetsOneWord(loc)
  {
    var dst, src := Dst(instr), Src(instr);
    match loc
    case MovRegReg => if src.reg.Some? then m.Reg(src.reg.value) else 0
    case MovRegImm => src.immValue
    case LeaRegAddr => src.addr
    case MovRegMem => m.Mem(OperandCell(port, src, instr.ea, func))
    case LeaRegDispl => WrapToWidth(m.Reg(src.reg.value) + src.disp, dst.dtypeSize)
    case AddSubRegImm => if dst.reg.Some? then WrapToWidth(m.Reg(dst.reg.value) + AddSubDelta(instr), dst.dtypeSize) else 0
    case ZeroIdiom => 0
  }

  lemma RegisterSourceWord(port: IdaPort, func: int, loc: Locator, instr: Instruction, m: MState, m': MState)
    requires loc == MovRegReg || loc == ZeroIdiom
    requires Ran(port, func, instr, m, m') && Matches(loc, instr) && Defines(port, Dst(instr))
    ensures m'.Reg(Dst(instr).reg.value) == LocatorWord(port, func, loc, instr, m)
  {
    var dst, src := Dst(instr), Src(instr);
    var bits := OpView(port, dst).bitSize;
    assert OpView(port, dst).parent == dst.reg.value;
    assert WidthsFit(port, loc, instr);
    assert ComputesFromRegister(port, instr, dst, src, m, m');
    if loc == MovRegReg {
      FullMoveCopies(port, instr, m, src);
      assert Sets(port, dst, Extended(port, instr, m, src), m');
    } else {
      DivisionIsUnique(0, Pow2(bits), 0, 0);
      assert ReadView(port, m, dst) == ReadView(port, m, src);
      assert Sets(port, dst, 0, m');
    }
  }

  lemma ConstantSourceWord(port: IdaPort, func: int, loc: Locator, instr: Instruction, m: MState, m': MState)
    requires loc == MovRegImm || loc == AddSubRegImm
    requires Ran(port, func, instr, m, m') && Matches(loc, instr) && Defines(port, Dst(instr))
    ensures m'.Reg(Dst(instr).reg.value) == LocatorWord(port, func, loc, instr, m)
  {
    hide ComputesFromRegister, ComputesFromMemory, ComputesStore, ComputesPush, KeepsTheRest, WellDecoded, InRange,
         FlagsFit, MemoryLocation;
    var dst, src := Dst(instr), Src(instr);
    assert OpView(port, dst).parent == dst.reg.value;
    assert WidthsFit(port, loc, instr);
    assert ComputesFromConstant(port, instr, dst, src, m, m');
    if loc == MovRegImm {
      DivisionIsUnique(src.immValue, Pow2(OpView(port, dst).bitSize), 0, src.immValue);
    } else {
      WrappedAddIsExact(port, m, dst, AddSubDelta(instr));
      assert Sets(port, dst, ReadView(port, m, dst) + AddSubDelta(instr), m');
    }
  }

  lemma LeaWord(port: IdaPort, func: int, loc: Locator, instr: Instruction, m: MState, m': MState)
    requires loc == LeaRegAddr || loc == LeaRegDispl
    requires Ran(port, func, instr, m, m') && Matches(loc, instr) && Defines(port, Dst(instr))
    ensures m'.Reg(Dst(instr).reg.value) == LocatorWord(port, func, loc, instr, m)
  {
    hide ComputesFromRegister, ComputesFromConstant, ComputesStore, ComputesPush, KeepsTheRest, InRange, FlagsFit, MemoryLocation;
    var dst, src := Dst(instr), Src(instr);
    assert OpView(port, dst).parent == dst.reg.value;
    assert WidthsFit(port, loc, instr);
    assert NamesOneCell(src) && ComputesFromMemory(port, func, instr, dst, src, m, m');
    if loc == LeaRegAddr {
      DivisionIsUnique(src.addr, Pow2(OpView(port, dst).bitSize), 0, src.addr);
    }
  }

  lemma LoadWord(port: IdaPort, func: int, instr: Instruction, m: MState, m': MState)
    requires Ran(port, func, instr, m, m') && Matches(MovRegMem, instr) && Defines(port, Dst(instr))
    requires NamesOneCell(Src(instr)) && LoadsWord(port, instr, Dst(instr))
    ensures m'.Reg(Dst(instr).reg.value) == LocatorWord(port, func, MovRegMem, instr, m)
  {
    var dst, src := Dst(instr), Src(instr);
    assert OpView(port, dst).parent == dst.reg.value;
    assert ComputesFromMemory(port, func, instr, dst, src, m, m');
    var word := m.Mem(OperandCell(port, src, instr.ea, func));
    DivisionIsUnique(word, Pow2(WordBits(port)), 0, word);
  }

  /** The locators are right about the machine wherever the write defines its register. */
  lemma LocatorWordIsLeft(port: IdaPort, func: int, loc: Locator, instr: Instruction, m: MState, m': MState)
    requires Ran(port, func, instr, m, m') && Matches(loc, instr) && SetsOneWord(loc) && Defines(port, Dst(instr))
    requires loc == MovRegMem ==> NamesOneCell(Src(instr)) && LoadsWord(port, instr, Dst(instr))
    ensures m'.Reg(Dst(instr).reg.value) == LocatorWord(port, func, loc, instr, m)
  {
    if loc == MovRegReg || loc == ZeroIdiom {
      RegisterSourceWord(port, func, loc, instr, m, m');
    } else if loc == MovRegImm || loc == AddSubRegImm {
      ConstantSourceWord(port, func, loc, instr, m, m');
    } else if loc == MovRegMem {
      LoadWord(port, func, instr, m, m');
    } else {
      LeaWord(port, func, loc, instr, m, m');
    }
  }

  lemma XchgSwaps(port: IdaPort, func: int, instr: Instruction, m: MState, m': MState)
    requires Ran(port, func, instr, m, m') && Matches(XchgRegReg, instr)
    requires Defines(port, Dst(instr)) || Defines(port, Src(instr))
    ensures Dst(instr).reg.Some? && Src(instr).reg.Some?
    ensures Defines(port, Dst(instr)) ==> m'.Reg(Dst(instr).reg.value) == m.Reg(Src(instr).reg.value)
    ensures Defines(port, Src(instr)) ==> m'.Reg(Src(instr).reg.value) == m.Reg(Dst(instr).reg.value)
  {
    var dst, src := Dst(instr), Src(instr);
    assert WidthsFit(port, XchgRegReg, instr);
    FullReadReads(port, m, dst);
    FullReadReads(port, m, src);
    var x, y, bits := m.Reg(dst.reg.value), m.Reg(src.reg.value), OpView(port, dst).bitSize;
    DivisionIsUnique(x, Pow2(bits), 0, x);
    DivisionIsUnique(y, Pow2(bits), 0, y);
    assert ComputesFromRegister(port, instr, dst, src, m, m');
    assert Sets(port, dst, y, m') && Sets(port, src, x, m');
  }

  /** Both operands are whole registers of one width. */
  predicate WholePair(port: IdaPort, instr: Instruction)
    requires instr.OperandAt(0).Some? && instr.OperandAt(1).Some?
  {
    var dst, src := Dst(instr), Src(instr);
    FullRead(port, dst) && FullRead(port, src) && OpView(port, dst).bitSize == OpView(port, src).bitSize
  }

  /** What a conditional move moves, if it does: the other register's word, or as much of the
    cell's as the destination takes. */
  function MovedWord(port: IdaPort, func: int, instr: Instruction, m: MState): int
    requires instr.OperandAt(0).Some? && instr.OperandAt(1).Some? && Dst(instr).reg.Some?
  {
    var dst, src := Dst(instr), Src(instr);
    if src.kind == REG then (if src.reg.Some? then m.Reg(src.reg.value) else 0)
    else m.Mem(OperandCell(port, src, instr.ea, func)) % Pow2(OpView(port, dst).bitSize)
  }

  lemma CmovMovesOrNot(port: IdaPort, func: int, instr: Instruction, m: MState, m': MState)
    requires Stepped(port, func, instr, m, m') && Matches(CmovRegReg, instr) && Defines(port, Dst(instr))
    requires if Src(instr).kind == REG then WholePair(port, instr) else NamesOneCell(Src(instr)) && FullRead(port, Dst(instr))
    ensures m'.Reg(Dst(instr).reg.value) == m.Reg(Dst(instr).reg.value) || m'.Reg(Dst(instr).reg.value) == MovedWord(port, func, instr, m)
  {
    var dst, src := Dst(instr), Src(instr);
    FullReadReads(port, m, dst);
    var x, bits := m.Reg(dst.reg.value), OpView(port, dst).bitSize;
    DivisionIsUnique(x, Pow2(bits), 0, x);
    if src.kind == REG {
      FullReadReads(port, m, src);
      var y := m.Reg(src.reg.value);
      DivisionIsUnique(y, Pow2(bits), 0, y);
      assert ComputesFromRegister(port, instr, dst, src, m, m');
      assert Sets(port, dst, x, m') || Sets(port, dst, y, m');
    } else {
      assert ComputesFromMemory(port, func, instr, dst, src, m, m');
      assert Sets(port, dst, x, m') || Sets(port, dst, m.Mem(OperandCell(port, src, instr.ea, func)), m');
    }
  }

  lemma {:induction false} Pow2Grows(m: nat, n: nat)
    requires m <= n
    ensures Pow2(m) <= Pow2(n) && (m < n ==> 2 * Pow2(m) <= Pow2(n)) && Pow2(m) >= 1
    decreases n
  {
    if m < n { Pow2Grows(m, n - 1); }
  }

  /** A `mov` to memory leaves the constant or the register's word in the cell. */
  lemma MovLeavesTheWord(port: IdaPort, func: int, instr: Instruction, m: MState, m': MState)
    requires Stepped(port, func, instr, m, m') && instr.OperandAt(0).Some? && NamesOneCell(Dst(instr))
    requires Matches(MovMemImm, instr) || Matches(MovMemReg, instr)
    requires StoresWord(port, Src(instr))
    ensures var cell := OperandCell(port, Dst(instr), instr.ea, func);
      && (Matches(MovMemImm, instr) ==> m'.Mem(cell) == Src(instr).immValue)
      && (Matches(MovMemReg, instr) ==> Src(instr).reg.Some? && m'.Mem(cell) == m.Reg(Src(instr).reg.value))
  {
    var src, bits := Src(instr), WordBits(port);
    assert ComputesStore(port, func, instr, Dst(instr), src, m, m');
    if Matches(MovMemReg, instr) {
      FullReadReads(port, m, src);
      Pow2Grows(Bits(port, src.reg.value), bits);
      DivisionIsUnique(m.Reg(src.reg.value), Pow2(bits), 0, m.Reg(src.reg.value));
    } else {
      DivisionIsUnique(src.immValue, Pow2(bits), 0, src.immValue);
    }
  }
}
