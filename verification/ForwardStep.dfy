/** One forward transfer is sound: if the abstract state describes the machine before an
  instruction, the transferred state describes it afterwards. */
module ForwardStep {
  import opened Values
  import opened InsnModel
  import opened Port
  import opened State
  import opened Addressing
  import opened Locators
  import opened Machine
  import opened ForwardSpec

  /** What an answer says of the word `x`, `arg` being what the argument's register held
    on entry and `rets` what the calls executed so far have returned. */
  ghost predicate Means(v: Value, x: int, rets: set<(int, int)>, arg: int) {
    match v
    case Concrete(c, _) => x == c
    case Symbolic(Arg(_)) => x == arg
    case Symbolic(Ret(ea)) => (ea, x) in rets
    case _ => true
  }

  predicate Framed(cell: Cell) { cell.space == StackPointer || cell.space == FramePointer }

  ghost predicate DescribesRegister(port: IdaPort, s: State, m: MState, arg: int, r: int) {
    s.Register(r).IsKnown() ==> Whole(port, r) && Means(s.Register(r), m.Reg(r), m.rets, arg)
  }

  ghost predicate DescribesSlots(s: State, m: MState, arg: int) {
    && (forall c :: s.Slot(c).IsKnown() ==> Framed(c))
    && (forall c :: Means(s.Slot(c), m.Mem(c), m.rets, arg))
  }

  ghost predicate Describes(port: IdaPort, s: State, m: MState, arg: int) {
    && (forall r :: DescribesRegister(port, s, m, arg, r))
    && DescribesSlots(s, m, arg)
  }

  /** A conditional move between whole registers, or from memory without a base register:
    with one, the rule would take the base for the source. */
  predicate CmovFits(port: IdaPort, instr: Instruction)
    requires instr.OperandAt(0).Some? && instr.OperandAt(1).Some?
  {
    Defines(port, Dst(instr)) ==> if Src(instr).kind == REG then WholePair(port, instr) else Src(instr).reg.None?
  }

  /** What the forward engine asks beyond `Supported`.  An instruction with a memory operand
    that no forward locator handles writes one place only, and where the engine takes its
    source for the value written it is a plain `mov` of a word. */
  predicate ForwardSupported(e: Engine, instr: Instruction, func: int) {
    var loc := Dispatch(e.locators, instr);
    if instr.IsCall() then true
    else if loc.Some? && DefinesForward(loc.value) then loc.value == CmovRegReg ==> CmovFits(e.port, instr)
    else
      var dst := MemoryOperand(instr, instr.operands, true);
      var src := MemoryOperand(instr, instr.operands, false);
      var reg := RegisterDestination(instr, instr.operands);
      if dst.Some? then
        && reg.None?
        && (forall op :: op in instr.operands && op.IsMemory() && instr.IsWritten(op.number) ==> op == dst.value)
        && (StackKey(e.port, dst.value, instr.ea, func).Some? && instr.IsPureDefinitionOf(dst.value.number) ==>
              && |instr.operands| == 2 && dst.value.number == 0 && instr.operands[1].number == 1 && instr.mnem == "mov"
              && StoresWord(e.port, instr.operands[1]))
      else src.Some? && reg.Some? ==>
        && (forall op :: op in instr.operands && op.kind == REG && instr.IsWritten(op.number) ==> op == reg.value)
        && (StackKey(e.port, src.value, instr.ea, func).Some? && instr.IsPureDefinitionOf(reg.value.number) ==>
              && instr.mnem == "mov" && reg.value.number == 0 && src.value.number == 1
              && LoadsWord(e.port, instr, reg.value))
  }

  // -- partial writes ------------------------------------------------------------------

  ghost predicate PartiallyWrites(port: IdaPort, instr: Instruction, ops: seq<Operand>, r: int) {
    exists op :: op in ops && PartialWrite(port, instr, op)
                 && (op.reg.value == r || port.registerView(op.reg.value, op.dtypeSize).value.parent == r)
  }

  lemma {:induction false} PartialWritesAreDropped(port: IdaPort, instr: Instruction, ops: seq<Operand>, s: State)
    ensures InvalidatePartial(port, instr, ops, s).stack == s.stack
    ensures forall r ::
              InvalidatePartial(port, instr, ops, s).Register(r)
              == (if PartiallyWrites(port, instr, ops, r) then Unk(UNSUPPORTED_OPERAND_SHAPE) else s.Register(r))
  {
    if ops != [] {
      var front, op := ops[..|ops| - 1], ops[|ops| - 1];
      PartialWritesAreDropped(port, instr, front, s);
      assert forall o :: o in ops <==> o in front || o == op;
      var after := InvalidatePartial(port, instr, front, s);
      forall r
        ensures InvalidatePartial(port, instr, ops, s).Register(r)
                == (if PartiallyWrites(port, instr, ops, r) then Unk(UNSUPPORTED_OPERAND_SHAPE) else s.Register(r))
      {
        assert PartiallyWrites(port, instr, front, r) ==> PartiallyWrites(port, instr, ops, r);
        if PartiallyWrites(port, instr, ops, r) && !PartiallyWrites(port, instr, front, r) {
          assert PartialWrite(port, instr, op);
        }
      }
    }
  }

  /** Slots that nothing has written unseen keep a right description. */
  ghost predicate OwesSlots(port: IdaPort, func: int, instr: Instruction, s: State, m: MState, arg: int) {
    && (forall c :: s.Slot(c).IsKnown() ==> Framed(c))
    && (forall c :: HiddenlyWrites(port, func, instr, Memory(c)) || Means(s.Slot(c), m.Mem(c), m.rets, arg))
  }

  /** What a transfer owes before the partial writes are dropped. */
  ghost predicate Owes(port: IdaPort, func: int, instr: Instruction, s: State, m: MState, arg: int) {
    && (forall r ::
          || PartiallyWrites(port, instr, instr.operands, r)
          || HiddenlyWrites(port, func, instr, Register(r))
          || DescribesRegister(port, s, m, arg, r))
    && OwesSlots(port, func, instr, s, m, arg)
  }

  // -- registers that keep their description ----------------------------------------------

  /** A register nothing writes keeps its word and its description. */
  lemma UntouchedRegister(port: IdaPort, func: int, instr: Instruction, s: State, m: MState, m': MState, arg: int, r: int)
    requires Executes(port, func, instr, m, m')
    requires DescribesRegister(port, s, m, arg, r)
    requires !OpenlyWrites(port, func, instr, Register(r)) && !HiddenlyWrites(port, func, instr, Register(r))
    ensures DescribesRegister(port, s, m', arg, r)
  {
    assert ValueOf(Register(r), m') == ValueOf(Register(r), m);
  }

  lemma UntouchedSlots(port: IdaPort, func: int, instr: Instruction, s: State, m: MState, m': MState, arg: int)
    requires Executes(port, func, instr, m, m') && DescribesSlots(s, m, arg)
    requires forall c :: Framed(c) ==> !WritesCell(port, func, instr, c)
    ensures OwesSlots(port, func, instr, s, m', arg)
  {
    hide Computes, ComputesPush, InRange, HiddenlyWrites, WritesCell;
    forall c | !HiddenlyWrites(port, func, instr, Memory(c)) ensures Means(s.Slot(c), m'.Mem(c), m'.rets, arg) {
      if s.Slot(c).IsKnown() { assert ValueOf(Memory(c), m') == ValueOf(Memory(c), m); }
    }
  }

  /** A write that does not define the whole parent is a partial write of it. */
  lemma WriteIsWholeOrPartial(port: IdaPort, instr: Instruction, op: Operand)
    requires LayoutContract(port) && op in instr.operands && op.kind == REG && op.reg.Some? && instr.IsWritten(op.number)
    ensures Defines(port, op) ==> Whole(port, op.reg.value)
    ensures !Defines(port, op) ==>
              && PartiallyWrites(port, instr, instr.operands, op.reg.value)
              && PartiallyWrites(port, instr, instr.operands, Parent(port, op.reg.value))
  {
    var view := OpView(port, op);
    assert view.parent == Parent(port, op.reg.value);
    assert !Defines(port, op) ==> PartialWrite(port, instr, op);
  }

  // -- the transfers -----------------------------------------------------------------------

  lemma CallDescribes(port: IdaPort, func: int, instr: Instruction, s: State, m: MState, m': MState, arg: int, r: int)
    requires Ran(port, func, instr, m, m') && DescribesRegister(port, s, m, arg, r) && instr.IsCall()
    requires !WritesRegister(port, instr, r) && !HiddenlyWrites(port, func, instr, Register(r))
    ensures DescribesRegister(port, ApplyCall(port, instr, s), m', arg, r)
  {
    if !CallDestroys(port, r) { UntouchedRegister(port, func, instr, s, m, m', arg, r); }
  }

  lemma CallWritesNoOperand(port: IdaPort, instr: Instruction)
    requires Supported(port, instr) && instr.IsCall()
    ensures forall op :: op in instr.operands ==> !instr.IsWritten(op.number)
  {
    assert Matches(CallReturn, instr);
    assert FlagsFit(CallReturn, instr);
  }

  lemma CallWritesNoRegister(port: IdaPort, instr: Instruction)
    requires Supported(port, instr) && instr.IsCall()
    ensures forall r :: !WritesRegister(port, instr, r)
  {
    CallWritesNoOperand(port, instr);
    hide Supported;
  }

  lemma CallSlotsStay(port: IdaPort, func: int, instr: Instruction, s: State, m: MState, m': MState, arg: int)
    requires Ran(port, func, instr, m, m') && Describes(port, s, m, arg) && instr.IsCall()
    ensures OwesSlots(port, func, instr, s, m', arg)
  {
    CallWritesNoOperand(port, instr);
    UntouchedSlots(port, func, instr, s, m, m', arg);
  }

  lemma CallIsSound(port: IdaPort, func: int, instr: Instruction, s: State, m: MState, m': MState, arg: int)
    requires Ran(port, func, instr, m, m') && Describes(port, s, m, arg) && instr.IsCall()
    ensures Owes(port, func, instr, ApplyCall(port, instr, s), m', arg)
  {
    assert Supported(port, instr);
    hide Ran, Supported, ApplyCall, DescribesRegister, HiddenlyWrites, PartiallyWrites, OwesSlots, WritesRegister;
    CallWritesNoRegister(port, instr);
    CallSlotsStay(port, func, instr, s, m, m', arg);
    forall r | !HiddenlyWrites(port, func, instr, Register(r)) ensures DescribesRegister(port, ApplyCall(port, instr, s), m', arg, r) {
      CallDescribes(port, func, instr, s, m, m', arg, r);
    }
    CallKeepsTheStack(port, instr, s);
    SameSlotsAreOwed(port, func, instr, s, ApplyCall(port, instr, s), m', arg);
  }

  lemma CallKeepsTheStack(port: IdaPort, instr: Instruction, s: State)
    ensures ApplyCall(port, instr, s).stack == s.stack
  {}

  /** A locator that sets one register, operand 0, to what the instruction computes. */
  lemma SettingOneRegister(port: IdaPort, func: int, instr: Instruction, s: State, m: MState, m': MState, arg: int,
                           dst: Operand, value: Value)
    requires Ran(port, func, instr, m, m') && Describes(port, s, m, arg) && !instr.IsCall()
    requires dst in instr.operands && dst.kind == REG && dst.reg.Some?
    requires forall op :: op in instr.operands && op.kind == REG && instr.IsWritten(op.number) ==> op == dst
    requires forall op :: op in instr.operands && op.IsMemory() ==> !instr.IsWritten(op.number)
    requires instr.IsWritten(dst.number)
    requires Defines(port, dst) ==> Means(value, m'.Reg(dst.reg.value), m'.rets, arg)
    ensures Owes(port, func, instr, s.With(dst.reg, value), m', arg)
  {
    hide Computes, ComputesPush, Supported, WellDecoded, HiddenlyWrites, InRange;
    var s' := s.With(dst.reg, value);
    WriteIsWholeOrPartial(port, instr, dst);
    forall r | !PartiallyWrites(port, instr, instr.operands, r) && !HiddenlyWrites(port, func, instr, Register(r))
      ensures DescribesRegister(port, s', m', arg, r)
    {
      assert DescribesRegister(port, s, m, arg, r);
      if r != dst.reg.value {
        assert s'.Register(r) == s.Register(r);
        assert OpView(port, dst).parent == Parent(port, dst.reg.value);
        assert Parent(port, dst.reg.value) != r;
        UntouchedRegister(port, func, instr, s, m, m', arg, r);
        assert DescribesRegister(port, s, m', arg, r);
      }
    }
    UntouchedSlots(port, func, instr, s, m, m', arg);
  }

  /** Operands of different numbers are different operands. */
  lemma OnlyOperandZeroIsWritten(port: IdaPort, loc: Locator, instr: Instruction)
    requires Supported(port, instr) && Matches(loc, instr)
    requires loc != XchgRegReg && loc != Push && loc != CallReturn
    ensures instr.IsWritten(0)
    ensures forall op :: op in instr.operands && instr.IsWritten(op.number) ==> op == Dst(instr)
  {
    assert FlagsFit(loc, instr);
    assert Dst(instr).number == 0;
  }

  lemma WholeRegisterMeans(port: IdaPort, s: State, m: MState, m': MState, arg: int, r: int)
    requires Describes(port, s, m, arg) && m.rets <= m'.rets
    ensures Means(s.Register(r), m.Reg(r), m'.rets, arg)
  {
    assert DescribesRegister(port, s, m, arg, r);
  }

  lemma ForwardLocatorIsSound(port: IdaPort, func: int, loc: Locator, instr: Instruction, s: State, m: MState, m': MState, arg: int)
    requires Ran(port, func, instr, m, m') && Describes(port, s, m, arg) && !instr.IsCall()
    requires Matches(loc, instr) && DefinesForward(loc) && loc != XchgRegReg && (loc == CmovRegReg ==> CmovFits(port, instr))
    ensures Owes(port, func, instr, ApplyForward(loc, instr, s), m', arg)
  {
    DestinationIsNamed(port, func, loc, instr, m, m');
    LocatorSetsItsDestination(loc, instr, s);
    hide Ran, Describes, Matches, ApplyForward, Defines, Owes, CmovFits;
    var dst := Dst(instr);
    var value := ApplyForward(loc, instr, s).RegisterOf(dst.reg);
    if Defines(port, dst) {
      LocatorValueMeans(port, func, loc, instr, s, m, m', arg);
    }
    SettingOneRegister(port, func, instr, s, m, m', arg, dst, value);
  }

  lemma LocatorSetsItsDestination(loc: Locator, instr: Instruction, s: State)
    requires Matches(loc, instr) && DefinesForward(loc) && loc != XchgRegReg
    ensures ApplyForward(loc, instr, s) == s.With(Dst(instr).reg, ApplyForward(loc, instr, s).RegisterOf(Dst(instr).reg))
  {
    hide FindOperand, Folded, ForwardAdjust;
  }

  lemma DestinationIsNamed(port: IdaPort, func: int, loc: Locator, instr: Instruction, m: MState, m': MState)
    requires Ran(port, func, instr, m, m') && Matches(loc, instr) && DefinesForward(loc) && loc != XchgRegReg
    ensures Dst(instr).kind == REG && Dst(instr).reg.Some? && instr.IsWritten(Dst(instr).number)
    ensures forall op :: op in instr.operands && instr.IsWritten(op.number) ==> op == Dst(instr)
  {
    hide Executes, InRange, LayoutContract, FindOperand;
    OnlyOperandZeroIsWritten(port, loc, instr);
  }

  /** Reading what the abstract state says of the sources through the locator's word. */
  lemma WordIsDescribed(port: IdaPort, func: int, loc: Locator, instr: Instruction, s: State, m: MState,
                        word: int, rets: set<(int, int)>, arg: int)
    requires Matches(loc, instr) && DefinesForward(loc) && SetsOneWord(loc) && Dst(instr).reg.Some?
    requires word == LocatorWord(port, func, loc, instr, m)
    requires Src(instr).reg.Some? ==> Means(s.Register(Src(instr).reg.value), m.Reg(Src(instr).reg.value), rets, arg)
    requires Means(s.Register(Dst(instr).reg.value), m.Reg(Dst(instr).reg.value), rets, arg)
    ensures Means(ApplyForward(loc, instr, s).RegisterOf(Dst(instr).reg), word, rets, arg)
  {}

  /** The value a locator computes is the word the instruction leaves in the register. */
  lemma LocatorValueMeans(port: IdaPort, func: int, loc: Locator, instr: Instruction, s: State, m: MState, m': MState, arg: int)
    requires Ran(port, func, instr, m, m') && Describes(port, s, m, arg) && !instr.IsCall()
    requires Matches(loc, instr) && DefinesForward(loc) && loc != XchgRegReg && Defines(port, Dst(instr))
    requires loc == CmovRegReg ==> CmovFits(port, instr)
    ensures Means(ApplyForward(loc, instr, s).RegisterOf(Dst(instr).reg), m'.Reg(Dst(instr).reg.value), m'.rets, arg)
  {
    var dst, src := Dst(instr), Src(instr);
    hide Executes, Supported, WellDecoded, LayoutContract, InRange, Describes, Matches, ApplyForward, Defines, CmovFits,
         FullRead, OpView;
    ExecutionIsInRange(port, func, instr, m, m');
    if src.reg.Some? { WholeRegisterMeans(port, s, m, m', arg, src.reg.value); }
    WholeRegisterMeans(port, s, m, m', arg, dst.reg.value);
    if loc == CmovRegReg {
      CmovValueMeans(port, func, instr, s, m, m', arg);
    } else {
      LocatorWordIsLeft(port, func, loc, instr, m, m');
      WordIsDescribed(port, func, loc, instr, s, m, m'.Reg(dst.reg.value), m'.rets, arg);
    }
  }

  lemma CmovValueMeans(port: IdaPort, func: int, instr: Instruction, s: State, m: MState, m': MState, arg: int)
    requires Stepped(port, func, instr, m, m') && Matches(CmovRegReg, instr) && CmovFits(port, instr) && Defines(port, Dst(instr))
    requires Src(instr).reg.Some? ==> Means(s.Register(Src(instr).reg.value), m.Reg(Src(instr).reg.value), m'.rets, arg)
    requires Means(s.Register(Dst(instr).reg.value), m.Reg(Dst(instr).reg.value), m'.rets, arg)
    ensures Means(ApplyForward(CmovRegReg, instr, s).RegisterOf(Dst(instr).reg), m'.Reg(Dst(instr).reg.value), m'.rets, arg)
  {
    hide Stepped, FindOperand, OpView;
    if Src(instr).kind == REG { CmovMovesOrNot(port, func, instr, m, m'); }
  }

  lemma XchgWritesBoth(port: IdaPort, instr: Instruction)
    requires Supported(port, instr) && Matches(XchgRegReg, instr)
    ensures Dst(instr).reg.Some? && Src(instr).reg.Some? && instr.IsWritten(0) && instr.IsWritten(1)
    ensures forall op :: op in instr.operands && instr.IsWritten(op.number) ==> op == Dst(instr) || op == Src(instr)
  {
    assert FlagsFit(XchgRegReg, instr);
    assert Dst(instr).number == 0 && Src(instr).number == 1;
  }

  lemma XchgIsSound(port: IdaPort, func: int, instr: Instruction, s: State, m: MState, m': MState, arg: int)
    requires Ran(port, func, instr, m, m') && Describes(port, s, m, arg) && !instr.IsCall() && Matches(XchgRegReg, instr)
    ensures Owes(port, func, instr, ApplyForward(XchgRegReg, instr, s), m', arg)
  {
    var s' := ApplyForward(XchgRegReg, instr, s);
    assert s'.stack == s.stack by { XchgKeepsTheStack(instr, s); }
    hide Ran, Describes, Matches, ApplyForward, PartiallyWrites, HiddenlyWrites, DescribesRegister, OwesSlots;
    forall r | !PartiallyWrites(port, instr, instr.operands, r) && !HiddenlyWrites(port, func, instr, Register(r))
      ensures DescribesRegister(port, s', m', arg, r)
    {
      XchgDescribes(port, func, instr, s, m, m', arg, r);
    }
    XchgKeepsSlots(port, func, instr, s, m, m', arg);
    SameSlotsAreOwed(port, func, instr, s, s', m', arg);
  }

  lemma SameSlotsAreOwed(port: IdaPort, func: int, instr: Instruction, s: State, s': State, m: MState, arg: int)
    requires OwesSlots(port, func, instr, s, m, arg) && s'.stack == s.stack
    ensures OwesSlots(port, func, instr, s', m, arg)
  {
    hide HiddenlyWrites;
    assert forall c :: s'.Slot(c) == s.Slot(c);
  }

  lemma XchgKeepsTheStack(instr: Instruction, s: State)
    requires Matches(XchgRegReg, instr)
    ensures ApplyForward(XchgRegReg, instr, s).stack == s.stack
  {
    hide FindOperand;
  }

  lemma XchgKeepsSlots(port: IdaPort, func: int, instr: Instruction, s: State, m: MState, m': MState, arg: int)
    requires Ran(port, func, instr, m, m') && Describes(port, s, m, arg) && Matches(XchgRegReg, instr)
    ensures OwesSlots(port, func, instr, s, m', arg)
  {
    XchgWritesBoth(port, instr);
    UntouchedSlots(port, func, instr, s, m, m', arg);
  }

  lemma XchgDescribes(port: IdaPort, func: int, instr: Instruction, s: State, m: MState, m': MState, arg: int, r: int)
    requires Ran(port, func, instr, m, m') && Describes(port, s, m, arg) && !instr.IsCall() && Matches(XchgRegReg, instr)
    requires !PartiallyWrites(port, instr, instr.operands, r) && !HiddenlyWrites(port, func, instr, Register(r))
    ensures DescribesRegister(port, ApplyForward(XchgRegReg, instr, s), m', arg, r)
  {
    assert Supported(port, instr);
    hide Ran, Supported, Describes, Matches, ApplyForward, PartiallyWrites, HiddenlyWrites;
    XchgWritesBoth(port, instr);
    if r == Dst(instr).reg.value || r == Src(instr).reg.value {
      XchgDescribesBoth(port, func, instr, s, m, m', arg, r);
    } else {
      XchgKeepsTheRest(port, func, instr, s, m, m', arg, r);
      XchgTouchesBoth(instr, s, r);
    }
  }

  lemma XchgTouchesBoth(instr: Instruction, s: State, r: int)
    requires Matches(XchgRegReg, instr) && Dst(instr).reg != Some(r) && Src(instr).reg != Some(r)
    ensures ApplyForward(XchgRegReg, instr, s).Register(r) == s.Register(r)
  {
    hide FindOperand;
  }

  lemma XchgDescribesBoth(port: IdaPort, func: int, instr: Instruction, s: State, m: MState, m': MState, arg: int, r: int)
    requires Ran(port, func, instr, m, m') && Describes(port, s, m, arg) && !instr.IsCall() && Matches(XchgRegReg, instr)
    requires Dst(instr).reg.Some? && Src(instr).reg.Some? && (r == Dst(instr).reg.value || r == Src(instr).reg.value)
    requires instr.IsWritten(0) && instr.IsWritten(1) && !PartiallyWrites(port, instr, instr.operands, r)
    ensures DescribesRegister(port, ApplyForward(XchgRegReg, instr, s), m', arg, r)
  {
    var dst, src := Dst(instr), Src(instr);
    var a, b := dst.reg.value, src.reg.value;
    WriteIsWholeOrPartial(port, instr, dst);
    WriteIsWholeOrPartial(port, instr, src);
    XchgSwaps(port, func, instr, m, m');
    WholeRegisterMeans(port, s, m, m', arg, a);
    WholeRegisterMeans(port, s, m, m', arg, b);
    var s' := ApplyForward(XchgRegReg, instr, s);
    assert s'.Register(b) == s.Register(a);
    assert a != b ==> s'.Register(a) == s.Register(b);
  }

  lemma XchgKeepsTheRest(port: IdaPort, func: int, instr: Instruction, s: State, m: MState, m': MState, arg: int, r: int)
    requires Ran(port, func, instr, m, m') && Describes(port, s, m, arg) && !instr.IsCall() && Matches(XchgRegReg, instr)
    requires Dst(instr).reg.Some? && Src(instr).reg.Some? && r != Dst(instr).reg.value && r != Src(instr).reg.value
    requires forall op :: op in instr.operands && instr.IsWritten(op.number) ==> op == Dst(instr) || op == Src(instr)
    requires instr.IsWritten(0) && instr.IsWritten(1)
    requires !PartiallyWrites(port, instr, instr.operands, r) && !HiddenlyWrites(port, func, instr, Register(r))
    ensures DescribesRegister(port, s, m', arg, r)
  {
    var dst, src := Dst(instr), Src(instr);
    WriteIsWholeOrPartial(port, instr, dst);
    WriteIsWholeOrPartial(port, instr, src);
    assert OpView(port, dst).parent == Parent(port, dst.reg.value);
    assert OpView(port, src).parent == Parent(port, src.reg.value);
    assert DescribesRegister(port, s, m, arg, r);
    UntouchedRegister(port, func, instr, s, m, m', arg, r);
  }

  lemma StoreKeepsRegisters(e: Engine, func: int, instr: Instruction, op: Operand, s: State, m: MState, m': MState, arg: int, r: int)
    requires Ran(e.port, func, instr, m, m') && DescribesRegister(e.port, s, m, arg, r) && !instr.IsCall()
    requires RegisterDestination(instr, instr.operands).None? && !HiddenlyWrites(e.port, func, instr, Register(r))
    ensures DescribesRegister(e.port, ApplyStore(e.port, instr, op, func, s), m', arg, r)
  {
    UntouchedRegister(e.port, func, instr, s, m, m', arg, r);
    assert ApplyStore(e.port, instr, op, func, s).Register(r) == s.Register(r);
  }

  lemma StoreWritesOnePlace(e: Engine, func: int, instr: Instruction, op: Operand)
    requires ForwardSupported(e, instr, func) && !instr.IsCall() && MemoryOperand(instr, instr.operands, true) == Some(op)
    requires var loc := Dispatch(e.locators, instr); loc.Some? ==> !DefinesForward(loc.value)
    ensures RegisterDestination(instr, instr.operands).None?
    ensures forall o :: o in instr.operands && o.IsMemory() && instr.IsWritten(o.number) ==> o == op
  {}

  lemma StoreDescribesSlot(e: Engine, func: int, instr: Instruction, op: Operand, s: State, m: MState, m': MState, arg: int, c: Cell)
    requires Ran(e.port, func, instr, m, m') && Describes(e.port, s, m, arg) && !instr.IsCall()
    requires MemoryOperand(instr, instr.operands, true) == Some(op) && ForwardSupported(e, instr, func)
    requires var loc := Dispatch(e.locators, instr); loc.Some? ==> !DefinesForward(loc.value)
    requires !HiddenlyWrites(e.port, func, instr, Memory(c))
    ensures Means(ApplyStore(e.port, instr, op, func, s).Slot(c), m'.Mem(c), m'.rets, arg)
  {
    StoreWritesOnePlace(e, func, instr, op);
    hide HiddenlyWrites, Dispatch, ForwardSupported, Supported, LayoutContract, Executes, MayLandOn;
    if StackKey(e.port, op, instr.ea, func) != Some(c) {
      assert Addressed(op);
      OtherSlotsKeepTheirValue(e.port, func, instr, op, s, m, m', arg, c);
    } else if instr.IsPureDefinitionOf(op.number) {
      StoredValueMeans(e, func, instr, op, s, m, m', arg);
    }
  }

  lemma StoreKeepsSlotsFramed(port: IdaPort, func: int, instr: Instruction, op: Operand, s: State)
    requires forall c :: s.Slot(c).IsKnown() ==> Framed(c)
    ensures forall c :: ApplyStore(port, instr, op, func, s).Slot(c).IsKnown() ==> Framed(c)
  {}

  lemma StoreIsSound(e: Engine, func: int, instr: Instruction, op: Operand, s: State, m: MState, m': MState, arg: int)
    requires Ran(e.port, func, instr, m, m') && Describes(e.port, s, m, arg) && !instr.IsCall()
    requires MemoryOperand(instr, instr.operands, true) == Some(op)
    requires ForwardSupported(e, instr, func)
    requires var loc := Dispatch(e.locators, instr); loc.Some? ==> !DefinesForward(loc.value)
    ensures Owes(e.port, func, instr, ApplyStore(e.port, instr, op, func, s), m', arg)
  {
    var port, s' := e.port, ApplyStore(e.port, instr, op, func, s);
    StoreWritesOnePlace(e, func, instr, op);
    StoreKeepsSlotsFramed(port, func, instr, op, s);
    hide HiddenlyWrites, Ran, ForwardSupported, ApplyStore, DescribesRegister, PartiallyWrites;
    forall r | !HiddenlyWrites(port, func, instr, Register(r)) ensures DescribesRegister(port, s', m', arg, r) {
      assert DescribesRegister(port, s, m, arg, r);
      StoreKeepsRegisters(e, func, instr, op, s, m, m', arg, r);
    }
    forall c | !HiddenlyWrites(port, func, instr, Memory(c)) ensures Means(s'.Slot(c), m'.Mem(c), m'.rets, arg) {
      StoreDescribesSlot(e, func, instr, op, s, m, m', arg, c);
    }
  }

  lemma OtherSlotsKeepTheirValue(port: IdaPort, func: int, instr: Instruction, op: Operand, s: State, m: MState, m': MState,
                                 arg: int, c: Cell)
    requires Executes(port, func, instr, m, m') && DescribesSlots(s, m, arg)
    requires op.IsMemory() && Addressed(op) && StackKey(port, op, instr.ea, func) != Some(c)
    requires !HiddenlyWrites(port, func, instr, Memory(c))
    requires forall o :: o in instr.operands && o.IsMemory() && instr.IsWritten(o.number) ==> o == op
    ensures Means(ApplyStore(port, instr, op, func, s).Slot(c), m'.Mem(c), m'.rets, arg)
  {
    var s' := ApplyStore(port, instr, op, func, s);
    if s'.Slot(c).IsKnown() {
      assert s'.Slot(c) == s.Slot(c) && Framed(c);
      assert !MayLandOn(port, op, instr.ea, func, c);
      assert ValueOf(Memory(c), m') == ValueOf(Memory(c), m);
    }
  }

  lemma StoreHasItsShape(e: Engine, func: int, instr: Instruction, op: Operand)
    requires ForwardSupported(e, instr, func) && !instr.IsCall() && MemoryOperand(instr, instr.operands, true) == Some(op)
    requires var loc := Dispatch(e.locators, instr); loc.Some? ==> !DefinesForward(loc.value)
    requires StackKey(e.port, op, instr.ea, func).Some? && instr.IsPureDefinitionOf(op.number)
    ensures instr.mnem == "mov" && instr.OperandAt(0) == Some(op)
    ensures var other := OtherOperand(instr.operands, op.number);
      other.Some? ==> other.value in instr.operands && instr.OperandAt(1) == other && StoresWord(e.port, other.value)
  {
    hide StoresWord, Dispatch, StackKey;
    var other := OtherOperand(instr.operands, op.number);
    if other.Some? {
      assert instr.operands == [instr.operands[0], instr.operands[1]];
      assert op == instr.operands[0] && other.value == instr.operands[1];
      assert FindOperand(instr.operands, 0) == Some(op);
      assert FindOperand(instr.operands[1..], 1) == Some(other.value);
    }
  }

  lemma StoredValueMeans(e: Engine, func: int, instr: Instruction, op: Operand, s: State, m: MState, m': MState, arg: int)
    requires Ran(e.port, func, instr, m, m') && Describes(e.port, s, m, arg) && !instr.IsCall()
    requires MemoryOperand(instr, instr.operands, true) == Some(op)
    requires ForwardSupported(e, instr, func) && instr.IsPureDefinitionOf(op.number)
    requires var loc := Dispatch(e.locators, instr); loc.Some? ==> !DefinesForward(loc.value)
    requires StackKey(e.port, op, instr.ea, func).Some?
    ensures Means(ValueOfSource(OtherOperand(instr.operands, op.number), s),
                  m'.Mem(StackKey(e.port, op, instr.ea, func).value), m'.rets, arg)
  {
    hide ForwardSupported, Dispatch, Supported, WellDecoded, LayoutContract, Executes, InRange, Describes, MemoryOperand,
         Flag, MemoryLocation;
    var other := OtherOperand(instr.operands, op.number);
    StoreHasItsShape(e, func, instr, op);
    if other.Some? && (other.value.kind == REG || other.value.kind == IMMEDIATE) {
      assert NamesOneCell(op);
      ExecutionIsInRange(e.port, func, instr, m, m');
      MovLeavesTheWord(e.port, func, instr, m, m');
      if other.value.kind == REG { WholeRegisterMeans(e.port, s, m, m', arg, other.value.reg.value); }
    }
  }

  lemma LoadIsSound(e: Engine, func: int, instr: Instruction, op: Operand, s: State, m: MState, m': MState, arg: int)
    requires Ran(e.port, func, instr, m, m') && Describes(e.port, s, m, arg) && !instr.IsCall()
    requires MemoryOperand(instr, instr.operands, true).None?
    requires MemoryOperand(instr, instr.operands, false) == Some(op)
    requires ForwardSupported(e, instr, func)
    requires var loc := Dispatch(e.locators, instr); loc.Some? ==> !DefinesForward(loc.value)
    ensures Owes(e.port, func, instr, ApplyLoad(e.port, instr, op, func, s), m', arg)
  {
    var port, reg, key := e.port, RegisterDestination(instr, instr.operands), StackKey(e.port, op, instr.ea, func);
    if reg.None? {
      forall r | !HiddenlyWrites(port, func, instr, Register(r)) ensures DescribesRegister(port, s, m', arg, r) {
        assert DescribesRegister(port, s, m, arg, r);
        UntouchedRegister(port, func, instr, s, m, m', arg, r);
      }
      UntouchedSlots(port, func, instr, s, m, m', arg);
    } else {
      var dst := reg.value;
      var value := ApplyLoad(port, instr, op, func, s).RegisterOf(dst.reg);
      if instr.IsPureDefinitionOf(dst.number) && key.Some? && Defines(port, dst) {
        assert Dst(instr) == dst && Src(instr) == op by { NumbersFindOperands(port, instr, dst, op); }
        LocatorWordIsLeft(port, func, MovRegMem, instr, m, m');
        assert Means(s.Slot(key.value), m.Mem(key.value), m.rets, arg);
      }
      SettingOneRegister(port, func, instr, s, m, m', arg, dst, value);
      assert ApplyLoad(port, instr, op, func, s) == s.With(dst.reg, value);
    }
  }

  lemma NumbersFindOperands(port: IdaPort, instr: Instruction, a: Operand, b: Operand)
    requires Supported(port, instr) && a in instr.operands && b in instr.operands && a.number == 0 && b.number == 1
    ensures instr.OperandAt(0) == Some(a) && instr.OperandAt(1) == Some(b)
  {
    Finds(instr.operands, a);
    Finds(instr.operands, b);
  }

  lemma {:induction false} Finds(ops: seq<Operand>, op: Operand)
    requires op in ops
    requires forall i, j :: 0 <= i < j < |ops| ==> ops[i].number != ops[j].number
    ensures FindOperand(ops, op.number) == Some(op)
  {
    if ops[0] != op { Finds(ops[1..], op); }
  }

  lemma {:induction false} WrittenRegistersAreDropped(instr: Instruction, ops: seq<Operand>, s: State)
    ensures InvalidateWritten(instr, ops, s).stack == s.stack
    ensures forall r ::
              InvalidateWritten(instr, ops, s).Register(r)
              == (if exists op :: op in ops && op.kind == REG && instr.IsWritten(op.number) && op.reg == Some(r)
                  then Unk(UNSUPPORTED_INSTRUCTION) else s.Register(r))
  {
    if ops != [] {
      var front, op := ops[..|ops| - 1], ops[|ops| - 1];
      WrittenRegistersAreDropped(instr, front, s);
      assert forall o :: o in ops <==> o in front || o == op;
    }
  }

  lemma InvalidationIsSound(e: Engine, func: int, instr: Instruction, s: State, m: MState, m': MState, arg: int)
    requires Ran(e.port, func, instr, m, m') && Describes(e.port, s, m, arg) && !instr.IsCall()
    requires MemoryOperand(instr, instr.operands, true).None?
    ensures Owes(e.port, func, instr, InvalidateWritten(instr, instr.operands, s), m', arg)
  {
    var port, s' := e.port, InvalidateWritten(instr, instr.operands, s);
    WrittenRegistersAreDropped(instr, instr.operands, s);
    forall r | !PartiallyWrites(port, instr, instr.operands, r) && !HiddenlyWrites(port, func, instr, Register(r))
      ensures DescribesRegister(port, s', m', arg, r)
    {
      assert DescribesRegister(port, s, m, arg, r);
      if s'.Register(r).IsKnown() {
        if WritesRegister(port, instr, r) {
          var op :| op in instr.operands && op.kind == REG && op.reg.Some? && instr.IsWritten(op.number)
                    && Parent(port, op.reg.value) == r;
          WriteIsWholeOrPartial(port, instr, op);
          assert false;
        }
        UntouchedRegister(port, func, instr, s, m, m', arg, r);
      }
    }
    UntouchedSlots(port, func, instr, s, m, m', arg);
  }

  lemma TransferIsSound(e: Engine, func: int, instr: Instruction, s: State, m: MState, m': MState, arg: int)
    requires Ran(e.port, func, instr, m, m') && Describes(e.port, s, m, arg) && ForwardSupported(e, instr, func)
    ensures Owes(e.port, func, instr, Transfer(e, instr, func, s), m', arg)
  {
    var loc := Dispatch(e.locators, instr);
    var dst, src := MemoryOperand(instr, instr.operands, true), MemoryOperand(instr, instr.operands, false);
    if instr.IsCall() {
      CallIsSound(e.port, func, instr, s, m, m', arg);
    } else if loc.Some? && DefinesForward(loc.value) {
      if loc.value == XchgRegReg {
        XchgIsSound(e.port, func, instr, s, m, m', arg);
      } else {
        ForwardLocatorIsSound(e.port, func, loc.value, instr, s, m, m', arg);
      }
    } else if dst.Some? {
      StoreIsSound(e, func, instr, dst.value, s, m, m', arg);
    } else if src.Some? {
      LoadIsSound(e, func, instr, src.value, s, m, m', arg);
    } else {
      InvalidationIsSound(e, func, instr, s, m, m', arg);
    }
  }

  /** What the state says of the locations that the instruction has not written unseen. */
  ghost predicate DescribesAfter(port: IdaPort, func: int, instr: Instruction, s: State, m: MState, arg: int) {
    && (forall r :: HiddenlyWrites(port, func, instr, Register(r)) || DescribesRegister(port, s, m, arg, r))
    && OwesSlots(port, func, instr, s, m, arg)
  }

  /** The transfer of one instruction carries the description across its execution. */
  lemma StepIsSound(e: Engine, func: int, instr: Instruction, s: State, m: MState, m': MState, arg: int)
    requires Ran(e.port, func, instr, m, m') && Describes(e.port, s, m, arg) && ForwardSupported(e, instr, func)
    ensures DescribesAfter(e.port, func, instr, Step(e, instr, func, s), m', arg)
  {
    TransferIsSound(e, func, instr, s, m, m', arg);
    hide Ran, Describes, ForwardSupported, Transfer, HiddenlyWrites, PartiallyWrites;
    var moved := Transfer(e, instr, func, s);
    PartialWritesAreDropped(e.port, instr, instr.operands, moved);
    forall r | !HiddenlyWrites(e.port, func, instr, Register(r))
      ensures DescribesRegister(e.port, Step(e, instr, func, s), m', arg, r)
    {
      assert PartiallyWrites(e.port, instr, instr.operands, r) || DescribesRegister(e.port, moved, m', arg, r);
    }
    assert forall c :: Step(e, instr, func, s).Slot(c) == moved.Slot(c);
  }
}
