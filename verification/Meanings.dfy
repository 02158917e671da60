/** What an instruction is taken to leave in its destination, in one table by mnemonic and operand
  kinds.  Both engines answer by the table, in whatever order the locators are registered. */
module Meanings {
  import opened Values
  import opened InsnModel
  import opened State
  import opened Arithmetic
  import opened Locators
  import opened Registry
  import opened ForwardSpec
  import opened ForwardStep
  import opened BackwardSpec

  /** A value of its own, that of a register, that of a register moved by a constant, or what
    is found in memory. */
  datatype Meaning =
    | Gives(value: Value)
    | Copies(reg: int)
    | Offsets(reg: int, amount: int, size: int, kind: ValueKind)
    | Reads(base: Option<int>, disp: int, size: int)

  const NOT_SUPPORTED := Gives(Unk(UNSUPPORTED_INSTRUCTION))
  const NOT_OF_SHAPE := Gives(Unk(UNSUPPORTED_OPERAND_SHAPE))

  /** The value of an operand; a word of memory where the operand is not sized. */
  function ValueOfOperand(op: Operand, word: nat): Meaning {
    if op.kind == REG then (if op.reg.Some? then Copies(op.reg.value) else NOT_OF_SHAPE)
    else if op.kind == IMMEDIATE then Gives(Concrete(op.immValue, IntKind))
    else if !op.IsMemory() || op.HasIndex() || op.HasSegment() || (op.IsBased() && op.reg.None?) then NOT_OF_SHAPE
    else Reads(if op.IsBased() then op.reg else None, if op.IsBased() then op.disp else op.addr,
               if op.dtypeSize == 0 then word else op.dtypeSize)
  }

  /** The address of an operand, cut to the destination's width. */
  function AddressOfOperand(op: Operand, size: int): Meaning {
    if op.kind == MEM_DIRECT then Gives(Concrete(op.addr, PointerKind))
    else if op.IsBased() && op.reg.Some? && !op.HasIndex() then Offsets(op.reg.value, op.disp, size, PointerKind)
    else NOT_SUPPORTED
  }

  /** Two operands, the first of which is written (both by `xchg`). */
  function OfTwo(mnem: string, dst: Operand, src: Operand, operand: int, word: nat): Meaning {
    var widening := mnem == "movzx" || mnem == "movsx" || mnem == "movsxd";
    if mnem == "mov" && dst.kind == REG && (src.kind == REG || src.kind == IMMEDIATE || src.IsMemory()) then ValueOfOperand(src, word)
    else if mnem == "mov" && dst.IsMemory() && (src.kind == REG || src.kind == IMMEDIATE) then ValueOfOperand(src, word)
    else if widening && dst.kind == REG && (src.kind == REG || src.IsMemory()) then ValueOfOperand(src, word)
    else if dst.kind != REG then NOT_SUPPORTED
    else if mnem == "lea" then AddressOfOperand(src, dst.dtypeSize)
    else if mnem == "xchg" && src.kind == REG then ValueOfOperand(if operand == 0 then src else dst, word)
    else if mnem == "add" && src.kind == IMMEDIATE then Moved(dst, src.immValue)
    else if mnem == "sub" && src.kind == IMMEDIATE then Moved(dst, -src.immValue)
    else if (mnem == "sub" || mnem == "xor") && src.kind == REG && src.reg == dst.reg then Gives(Concrete(0, IntKind))
    else if StartsWith(mnem, "cmov") then Gives(Unk(DIVERGENT_PATHS))
    else NOT_SUPPORTED
  }

  function Moved(op: Operand, amount: int): Meaning {
    if op.reg.Some? then Offsets(op.reg.value, amount, op.dtypeSize, IntKind) else NOT_OF_SHAPE
  }

  function MeaningOf(instr: Instruction, operand: int, word: nat): Meaning {
    var a, b := instr.OperandAt(0), instr.OperandAt(1);
    if instr.IsCall() then Gives(Symbolic(Ret(instr.ea)))
    else if a.None? then NOT_SUPPORTED
    else if instr.mnem == "push" then ValueOfOperand(a.value, word)
    else if b.None? then NOT_SUPPORTED
    else OfTwo(instr.mnem, a.value, b.value, operand, word)
  }

  // -- the locators follow the table ------------------------------------------------------------------

  function AsMeaning(plan: Plan): Meaning {
    match plan
    case Done(v) => Gives(v)
    case FromRegister(reg, Same) => Copies(reg)
    case FromRegister(reg, Displace(disp, size)) => Offsets(reg, disp, size, PointerKind)
    case FromRegister(reg, Adjust(delta, size)) => Offsets(reg, delta, size, IntKind)
    case FromMemory(base, disp, size) => Reads(base, disp, size)
    case NotApplicable => NOT_OF_SHAPE
  }

  predicate IsMoveForm(loc: Locator) { loc.MovRegReg? || loc.MovRegImm? || loc.MovMemImm? || loc.MovRegMem? || loc.MovMemReg? }

  lemma MoveFollowsTheTable(loc: Locator, instr: Instruction, operand: int, word: nat)
    requires Matches(loc, instr) && IsMoveForm(loc)
    ensures AsMeaning(Extract(loc, instr, operand, word)) == MeaningOf(instr, operand, word)
  {
    MnemonicsDiffer(instr.mnem);
    hide FindOperand, AddressOfOperand, Moved;
  }

  lemma LocatorFollowsTheTable(loc: Locator, instr: Instruction, operand: int, word: nat)
    requires Matches(loc, instr) && (operand == 0 || operand == 1)
    ensures AsMeaning(Extract(loc, instr, operand, word)) == MeaningOf(instr, operand, word)
  {
    hide FindOperand;
    if IsMoveForm(loc) {
      MoveFollowsTheTable(loc, instr, operand, word);
    } else {
      MnemonicsDiffer(instr.mnem);
    }
  }

  lemma UnmatchedMoveHasNoMeaning(instr: Instruction, operand: int, word: nat)
    requires instr.IsMove() && instr.OperandAt(0).Some? && instr.OperandAt(1).Some?
    requires forall loc: Locator :: IsMoveForm(loc) ==> !Matches(loc, instr)
    ensures OfTwo(instr.mnem, Dst(instr), Src(instr), operand, word) == NOT_SUPPORTED
  {
    hide FindOperand, StartsWith, ValueOfOperand, AddressOfOperand, Moved;
    assert !Matches(MovRegReg, instr) && !Matches(MovRegImm, instr) && !Matches(MovMemImm, instr) && !Matches(MovRegMem, instr);
    assert !Matches(MovMemReg, instr);
    MnemonicsDiffer(instr.mnem);
    assert instr.mnem[0] == 'm';
    assert !StartsWith(instr.mnem, "cmov");
  }

  lemma UnmatchedHasNoMeaning(instr: Instruction, operand: int, word: nat)
    requires forall loc: Locator :: !Matches(loc, instr)
    ensures MeaningOf(instr, operand, word) == NOT_SUPPORTED
  {
    hide FindOperand, StartsWith, ValueOfOperand, Moved;
    assert !Matches(LeaRegAddr, instr) && !Matches(XchgRegReg, instr) && !Matches(CmovRegReg, instr) && !Matches(Push, instr);
    assert !Matches(CallReturn, instr) && !Matches(LeaRegDispl, instr) && !Matches(AddSubRegImm, instr) && !Matches(ZeroIdiom, instr);
    if instr.IsMove() && instr.OperandAt(0).Some? && instr.OperandAt(1).Some? {
      UnmatchedMoveHasNoMeaning(instr, operand, word);
    }
  }

  ghost predicate AllRegistered(locators: seq<Locator>) { forall loc: Locator :: loc in locators }

  // -- backward ---------------------------------------------------------------------------------------

  /** Backward, a symbol is passed through an addition. */
  function MovedBackward(v: Value, amount: int, size: int, kind: ValueKind): Value {
    match v
    case Concrete(n, _) => Concrete((n + amount) % Pow2(8 * WidthOf(size)), kind)
    case Unknown(_, _) => v
    case _ => if kind == PointerKind then Unk(UNSUPPORTED_OPERAND_SHAPE) else v
  }

  /** The meaning resolved just before the instruction. */
  function Resolved(r: Resolver, meaning: Meaning, at: int, b: Budget): (Value, Budget) {
    match meaning
    case Gives(v) => (v, b)
    case Copies(reg) => ResolveRegister(r, reg, at, b)
    case Offsets(reg, amount, size, kind) =>
      var (v, b1) := ResolveRegister(r, reg, at, b);
      (MovedBackward(v, amount, size, kind), b1)
    case Reads(base, disp, size) => ResolveMemory(r, base, disp, at, size, b)
  }

  lemma FoldIsMovedBackward(fold: Fold, v: Value)
    ensures Folded(fold, v) ==
      if fold.Same? then v
      else if fold.Displace? then MovedBackward(v, fold.disp, fold.leaSize, PointerKind)
      else MovedBackward(v, fold.delta, fold.addSize, IntKind)
  {
    hide Pow2;
  }

  /** The backward resolver answers an instruction by the table. */
  lemma InterpretationFollowsTheTable(r: Resolver, instr: Instruction, operand: int, b: Budget)
    requires AllRegistered(r.locators) && (operand == 0 || operand == 1)
    ensures Interpret(r, instr, operand, b) == Resolved(r, MeaningOf(instr, operand, r.port.pointerSize), instr.ea, b)
  {
    hide Matches, Dispatch, Extract, MeaningOf, ResolveRegister, ResolveMemory, Folded, MovedBackward;
    var loc := Dispatch(r.locators, instr);
    if loc.Some? {
      LocatorFollowsTheTable(loc.value, instr, operand, r.port.pointerSize);
      var plan := Extract(loc.value, instr, operand, r.port.pointerSize);
      if plan.FromRegister? { FoldIsMovedBackward(plan.fold, ResolveRegister(r, plan.reg, instr.ea, b).0); }
    } else {
      UnmatchedHasNoMeaning(instr, operand, r.port.pointerSize);
    }
  }

  /** Asked at an address, it answers the instruction there by the table, and has none where
    nothing decodes. */
  lemma AddressIsAnsweredByTheTable(r: Resolver, ea: int, operand: int, b: Budget)
    requires AllRegistered(r.locators) && (operand == 0 || operand == 1) && b.Step().StepsLast()
    ensures ResolveAtInstruction(r, ea, operand, b).0 ==
      if r.port.decodeAt(ea).None? then Unk(NO_DEFINITION_FOUND)
      else
        var instr := r.port.decodeAt(ea).value;
        Resolved(r, MeaningOf(instr, operand, r.port.pointerSize), instr.ea, b.Step().Touch()).0
  {
    hide Interpret, MeaningOf, Resolved;
    if r.port.decodeAt(ea).Some? { InterpretationFollowsTheTable(r, r.port.decodeAt(ea).value, operand, b.Step().Touch()); }
  }

  // -- forward -----------------------------------------------------------------------------------------

  /** The meaning over the state before the instruction: forward, only constants are moved. */
  function Evaluated(meaning: Meaning, s: State): Value
    requires !meaning.Reads?
  {
    match meaning
    case Gives(v) => v
    case Copies(reg) => s.Register(reg)
    case Offsets(reg, amount, size, kind) =>
      match s.Register(reg)
      case Concrete(n, _) => Concrete((n + amount) % Pow2(8 * WidthOf(size)), kind)
      case Unknown(_, _) => s.Register(reg)
      case _ => Unk(UNSUPPORTED_OPERAND_SHAPE)
  }

  lemma AppliedByTheTable(loc: Locator, instr: Instruction, operand: int, s: State, word: nat)
    requires Matches(loc, instr) && DefinesForward(loc) && loc != CmovRegReg
    requires operand == 0 || (operand == 1 && loc == XchgRegReg)
    requires instr.OperandAt(operand).Some? && instr.OperandAt(operand).value.reg.Some?
    requires loc == MovRegReg || loc == XchgRegReg ==> Dst(instr).reg.Some? && Src(instr).reg.Some?
    ensures !MeaningOf(instr, operand, word).Reads?
    ensures ApplyForward(loc, instr, s).RegisterOf(instr.OperandAt(operand).value.reg) == Evaluated(MeaningOf(instr, operand, word), s)
  {
    LocatorFollowsTheTable(loc, instr, operand, word);
    hide FindOperand, MeaningOf, Pow2;
  }

  /** The forward engine leaves in a register that is written whole what the table says. */
  lemma ForwardFollowsTheTable(e: Engine, loc: Locator, instr: Instruction, operand: int, func: int, s: State, word: nat)
    requires AllRegistered(e.locators) && Matches(loc, instr) && DefinesForward(loc) && loc != CmovRegReg
    requires operand == 0 || (operand == 1 && loc == XchgRegReg)
    requires instr.OperandAt(operand).Some? && instr.OperandAt(operand).value.reg.Some?
    requires loc == MovRegReg || loc == XchgRegReg ==> Dst(instr).reg.Some? && Src(instr).reg.Some?
    requires !PartiallyWrites(e.port, instr, instr.operands, instr.OperandAt(operand).value.reg.value)
    ensures !MeaningOf(instr, operand, word).Reads?
    ensures Step(e, instr, func, s).RegisterOf(instr.OperandAt(operand).value.reg) == Evaluated(MeaningOf(instr, operand, word), s)
  {
    AppliedByTheTable(loc, instr, operand, s, word);
    LocatorIsTransferred(e, loc, instr, func, s);
    hide Matches, ApplyForward, MeaningOf, FindOperand, PartiallyWrites, Evaluated, Transfer;
    PartialWritesAreDropped(e.port, instr, instr.operands, Transfer(e, instr, func, s));
  }

  lemma LocatorIsTransferred(e: Engine, loc: Locator, instr: Instruction, func: int, s: State)
    requires AllRegistered(e.locators) && Matches(loc, instr) && DefinesForward(loc)
    ensures Transfer(e, instr, func, s) == ApplyForward(loc, instr, s)
  {
    hide ApplyForward, Dispatch, FindOperand;
    DispatchFindsTheMatch(e.locators, loc, instr);
    if instr.IsCall() { BuiltinsAreDisjoint(loc, CallReturn, instr); }
  }
}
