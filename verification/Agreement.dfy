/** The two engines agree on straight-line code: asking backward for a register and
  simulating forward to the same point give the same constant, or neither gives one. */
module Agreement {
  import opened Values
  import opened InsnModel
  import opened Port
  import opened State
  import opened Locators
  import opened Registry
  import opened Machine
  import opened ForwardSpec
  import opened ForwardStep
  import opened BackwardSpec
  import opened ReachingDefs
  import opened BackwardSoundness

  /** No claim about `Symbolic`: adding to one is where the engines differ. */
  predicate SameConstant(x: Value, y: Value) { x.Concrete? || y.Concrete? ==> x == y }

  /** Forward over the instructions, from `s`. */
  function Forward(e: Engine, func: int, code: seq<Instruction>, s: State): State {
    if code == [] then s else Step(e, code[|code| - 1], func, Forward(e, func, code[..|code| - 1], s))
  }

  /** Backward over the instructions, without a budget. */
  function Backward(r: Resolver, func: int, code: seq<Instruction>, reg: int): Value {
    if code == [] then Unk(NO_DEFINITION_FOUND)
    else
      var front, instr := code[..|code| - 1], code[|code| - 1];
      match Decide(r.port, Register(reg), instr, func)
      case Skip => Backward(r, func, front, reg)
      case Settle(v) => v
      case Define(operand) =>
        match Dispatch(r.locators, instr)
        case None => Unk(UNSUPPORTED_INSTRUCTION)
        case Some(loc) =>
          match Extract(loc, instr, operand, r.port.pointerSize)
          case Done(v) => v
          case FromRegister(source, fold) => Folded(fold, Backward(r, func, front, source))
          case FromMemory(_, _, _) => Unk(UNSUPPORTED_OPERAND_SHAPE)
          case NotApplicable => Unk(UNSUPPORTED_OPERAND_SHAPE)
  }

  /** Register moves, exchanges, address computations, constant additions, zero idioms,
    calls, and writes of registers by instructions without a locator; register sources
    are named by their whole parent. */
  ghost predicate Straight(port: IdaPort, locators: seq<Locator>, instr: Instruction) {
    && (forall i, j :: 0 <= i < j < |instr.operands| ==> instr.operands[i].number != instr.operands[j].number)
    && (forall op :: op in instr.operands && op.kind == REG ==> op.reg.Some?)
    && (forall loc :: Matches(loc, instr) ==> FlagsFit(loc, instr))
    && match Dispatch(locators, instr)
       case None => instr.IsCall() || forall op :: op in instr.operands ==> !op.IsMemory()
       case Some(loc) =>
         match loc
         case CmovRegReg => false
         case MovRegReg => Defines(port, Dst(instr)) ==> Whole(port, Src(instr).reg.value)
         case LeaRegDispl => Defines(port, Dst(instr)) ==> Whole(port, Src(instr).reg.value)
         case XchgRegReg =>
           Defines(port, Dst(instr)) || Defines(port, Src(instr)) ==> Defines(port, Dst(instr)) && Defines(port, Src(instr))
         case _ => DefinesForward(loc) || loc == CallReturn || forall op :: op in instr.operands ==> !op.IsMemory()
  }

  // -- one instruction ----------------------------------------------------------------------

  /** What the backward step takes from the values before the instruction. */
  ghost predicate StepsAlike(r: Resolver, func: int, instr: Instruction, reg: int, after: Value, before: State) {
    match Decide(r.port, Register(reg), instr, func)
    case Skip => after == before.Register(reg)
    case Settle(v) => !v.Concrete? && !after.Concrete?
    case Define(operand) =>
      match Dispatch(r.locators, instr)
      case None => !after.Concrete?
      case Some(loc) =>
        match Extract(loc, instr, operand, r.port.pointerSize)
        case Done(v) => SameConstant(v, after)
        case FromRegister(source, fold) => Whole(r.port, source) && SameConstant(Folded(fold, before.Register(source)), after)
        case _ => !after.Concrete?
  }

  lemma SkippedIsNotPartiallyWritten(port: IdaPort, instr: Instruction, func: int, reg: int)
    requires LayoutContract(port) && Whole(port, reg) && Decide(port, Register(reg), instr, func) == Skip
    ensures !PartiallyWrites(port, instr, instr.operands, reg)
    ensures forall op :: op in instr.operands && op.kind == REG && op.reg == Some(reg) ==> !instr.IsWritten(op.number)
  {
    forall op | op in instr.operands && op.kind == REG && op.reg.Some? && instr.IsWritten(op.number)
      ensures Parent(port, op.reg.value) != reg
    {
      if Parent(port, op.reg.value) == reg { WrittenOperandDecides(port, instr, op, reg); }
    }
    forall op | op in instr.operands && PartialWrite(port, instr, op)
      ensures op.reg.value != reg && port.registerView(op.reg.value, op.dtypeSize).value.parent != reg
    {
      assert ViewOf(port, op.reg.value, op.dtypeSize).parent == Parent(port, op.reg.value);
    }
  }

  lemma SettledIsPartialOrDestroyed(port: IdaPort, instr: Instruction, func: int, reg: int)
    requires LayoutContract(port) && Whole(port, reg) && Decide(port, Register(reg), instr, func).Settle?
    ensures PartiallyWrites(port, instr, instr.operands, reg)
      || (instr.IsCall() && reg in port.callClobbered && port.returnValueReg != Some(reg))
  {
    var d := Decide(port, Register(reg), instr, func);
    if instr.IsCall() && IsCallClobbered(port, reg) {
      assert ViewOf(port, reg, 0).parent == reg;
    } else {
      var op :| op in instr.operands && DecideOperand(port, instr, op, reg) == d;
      assert PartialWrite(port, instr, op);
      assert ViewOf(port, reg, 0).parent == reg;
    }
  }

  lemma CallStepsAlike(r: Resolver, e: Engine, func: int, instr: Instruction, reg: int, s: State)
    requires LayoutContract(r.port) && e.port == r.port && Whole(r.port, reg) && instr.IsCall()
    requires Straight(r.port, r.locators, instr)
    ensures StepsAlike(r, func, instr, reg, Step(e, instr, func, s).Register(reg), s)
  {
    assert Matches(CallReturn, instr) && FlagsFit(CallReturn, instr);
    var called := ApplyCall(e.port, instr, s);
    PartialWritesAreDropped(e.port, instr, instr.operands, called);
    var d, loc := Decide(r.port, Register(reg), instr, func), Dispatch(r.locators, instr);
    if loc.Some? { BuiltinsAreDisjoint(CallReturn, loc.value, instr); }
    if d == Skip {
      SkippedIsNotPartiallyWritten(r.port, instr, func, reg);
    } else if d.Settle? {
      SettledIsUnknown(Flow(r.port, Register(reg), func, []), instr);
      SettledIsPartialOrDestroyed(r.port, instr, func, reg);
    }
  }

  lemma UnnamedIsKept(e: Engine, func: int, instr: Instruction, reg: int, s: State)
    requires Straight(e.port, e.locators, instr) && !instr.IsCall()
    requires forall op :: op in instr.operands && op.kind == REG && op.reg == Some(reg) ==> !instr.IsWritten(op.number)
    ensures Transfer(e, instr, func, s).Register(reg) == s.Register(reg)
  {
    var loc := Dispatch(e.locators, instr);
    assert loc.Some? ==> FlagsFit(loc.value, instr);
    if loc.Some? && DefinesForward(loc.value) {
      hide Straight, ApplyForward, Dispatch, FlagsFit, Matches;
      ForwardTouchesOnlyWritten(loc.value, instr, s, reg);
    } else {
      OthersInvalidate(e, func, instr, s);
      hide Straight, InvalidateWritten, Transfer, Dispatch, FlagsFit;
      WrittenRegistersAreDropped(instr, instr.operands, s);
    }
  }

  lemma OthersInvalidate(e: Engine, func: int, instr: Instruction, s: State)
    requires Straight(e.port, e.locators, instr) && !instr.IsCall()
    requires var loc := Dispatch(e.locators, instr); loc.Some? ==> !DefinesForward(loc.value)
    ensures Transfer(e, instr, func, s) == InvalidateWritten(instr, instr.operands, s)
  {
    hide InvalidateWritten, ApplyForward, Dispatch, FlagsFit, MemoryOperand, StartsWith;
    assert MemoryOperand(instr, instr.operands, true).None? && MemoryOperand(instr, instr.operands, false).None?;
  }

  lemma SkipStepsAlike(r: Resolver, e: Engine, func: int, instr: Instruction, reg: int, s: State)
    requires LayoutContract(r.port) && e.port == r.port && e.locators == r.locators && Whole(r.port, reg) && !instr.IsCall()
    requires Straight(r.port, r.locators, instr) && Decide(r.port, Register(reg), instr, func) == Skip
    ensures Step(e, instr, func, s).Register(reg) == s.Register(reg)
  {
    hide Straight, LayoutContract, Decide, Transfer, PartiallyWrites;
    SkippedIsNotPartiallyWritten(r.port, instr, func, reg);
    PartialWritesAreDropped(e.port, instr, instr.operands, Transfer(e, instr, func, s));
    UnnamedIsKept(e, func, instr, reg, s);
  }

  lemma ForwardTouchesOnlyWritten(loc: Locator, instr: Instruction, s: State, reg: int)
    requires Matches(loc, instr) && DefinesForward(loc) && FlagsFit(loc, instr)
    requires forall op :: op in instr.operands && op.kind == REG && op.reg == Some(reg) ==> !instr.IsWritten(op.number)
    ensures ApplyForward(loc, instr, s).Register(reg) == s.Register(reg)
  {
    assert Dst(instr).kind == REG && instr.IsWritten(0);
    assert loc == XchgRegReg ==> Src(instr).kind == REG && instr.IsWritten(1);
  }

  /** What a forward locator leaves in the register its destination operand names. */
  lemma ForwardMatchesPlan(port: IdaPort, loc: Locator, instr: Instruction, op: Operand, s: State)
    requires Matches(loc, instr) && DefinesForward(loc) && loc != CmovRegReg
    requires op == Dst(instr) || (loc == XchgRegReg && op == Src(instr))
    requires op.reg.Some? && (loc == AddSubRegImm ==> Whole(port, op.reg.value))
    requires loc == MovRegReg || loc == LeaRegDispl ==> Src(instr).reg.Some? && Whole(port, Src(instr).reg.value)
    requires loc == XchgRegReg ==>
      Dst(instr).reg.Some? && Src(instr).reg.Some? && Whole(port, Dst(instr).reg.value) && Whole(port, Src(instr).reg.value)
    ensures var after := ApplyForward(loc, instr, s).Register(op.reg.value);
      match Extract(loc, instr, op.number, port.pointerSize)
      case Done(v) => SameConstant(v, after)
      case FromRegister(source, fold) => Whole(port, source) && SameConstant(Folded(fold, s.Register(source)), after)
      case _ => !after.Concrete?
  {
    assert Dst(instr).number == 0 && Src(instr).number == 1;
  }

  lemma ForwardLocatorWritesWholly(port: IdaPort, locators: seq<Locator>, loc: Locator, instr: Instruction, op: Operand, reg: int)
    requires LayoutContract(port) && Straight(port, locators, instr) && Dispatch(locators, instr) == Some(loc)
    requires DefinesForward(loc) && op.reg == Some(reg) && Defines(port, op) && Whole(port, reg)
    requires op == Dst(instr) || (loc == XchgRegReg && op == Src(instr))
    ensures !PartiallyWrites(port, instr, instr.operands, reg)
    ensures loc == XchgRegReg ==>
      Dst(instr).reg.Some? && Src(instr).reg.Some? && Whole(port, Dst(instr).reg.value) && Whole(port, Src(instr).reg.value)
    ensures loc == MovRegReg || loc == LeaRegDispl ==> Src(instr).reg.Some? && Whole(port, Src(instr).reg.value)
  {
    assert Matches(loc, instr) && FlagsFit(loc, instr);
    forall other | other in instr.operands && instr.IsWritten(other.number) ensures !PartialWrite(port, instr, other) {
      SameNumberSameOperand(instr, other, if other.number == 0 then Dst(instr) else Src(instr));
    }
    if loc == XchgRegReg {
      assert OpView(port, Dst(instr)).parent == Parent(port, Dst(instr).reg.value);
      assert OpView(port, Src(instr)).parent == Parent(port, Src(instr).reg.value);
    }
  }

  lemma LocatorStepsAlike(r: Resolver, e: Engine, func: int, instr: Instruction, reg: int, s: State, loc: Locator, op: Operand)
    requires LayoutContract(r.port) && e.port == r.port && e.locators == r.locators && Whole(r.port, reg) && !instr.IsCall()
    requires Straight(r.port, r.locators, instr) && Decide(r.port, Register(reg), instr, func) == Define(op.number)
    requires Dispatch(r.locators, instr) == Some(loc) && DefinesForward(loc)
    requires op.reg == Some(reg) && Defines(r.port, op) && (op == Dst(instr) || (loc == XchgRegReg && op == Src(instr)))
    ensures StepsAlike(r, func, instr, reg, Step(e, instr, func, s).Register(reg), s)
  {
    ForwardLocatorWritesWholly(r.port, r.locators, loc, instr, op, reg);
    PartialWritesAreDropped(r.port, instr, instr.operands, Transfer(e, instr, func, s));
    ForwardMatchesPlan(r.port, loc, instr, op, s);
    hide Matches, ApplyForward, Extract, Decide, Straight;
  }

  lemma DefineStepsAlike(r: Resolver, e: Engine, func: int, instr: Instruction, reg: int, s: State)
    requires LayoutContract(r.port) && e.port == r.port && e.locators == r.locators && Whole(r.port, reg) && !instr.IsCall()
    requires Straight(r.port, r.locators, instr) && Decide(r.port, Register(reg), instr, func).Define?
    ensures StepsAlike(r, func, instr, reg, Step(e, instr, func, s).Register(reg), s)
  {
    var port, loc, operand := r.port, Dispatch(r.locators, instr), Decide(r.port, Register(reg), instr, func).operand;
    var op := DefinedOperand(port, instr, reg, operand);
    if loc.None? {
      UnsupportedWriteIsDropped(e, func, instr, op, reg, s);
    } else {
      DefiningLocator(r, instr, loc.value, op);
      LocatorStepsAlike(r, e, func, instr, reg, s, loc.value, op);
    }
  }

  lemma UnsupportedWriteIsDropped(e: Engine, func: int, instr: Instruction, op: Operand, reg: int, s: State)
    requires Straight(e.port, e.locators, instr) && Dispatch(e.locators, instr) == None && !instr.IsCall()
    requires op in instr.operands && op.kind == REG && op.reg == Some(reg) && instr.IsWritten(op.number)
    ensures Step(e, instr, func, s).Register(reg).Unknown?
  {
    PartialWritesAreDropped(e.port, instr, instr.operands, Transfer(e, instr, func, s));
    WrittenRegistersAreDropped(instr, instr.operands, s);
  }

  lemma DefiningLocator(r: Resolver, instr: Instruction, loc: Locator, op: Operand)
    requires Straight(r.port, r.locators, instr) && Dispatch(r.locators, instr) == Some(loc)
    requires op in instr.operands && op.kind == REG && instr.IsWritten(op.number)
    ensures DefinesForward(loc) && (op == Dst(instr) || (loc == XchgRegReg && op == Src(instr)))
  {
    MatchedOperands(loc, instr, op);
    SameNumberSameOperand(instr, op, if op.number == 0 then Dst(instr) else Src(instr));
  }

  lemma SameNumberSameOperand(instr: Instruction, a: Operand, b: Operand)
    requires forall i, j :: 0 <= i < j < |instr.operands| ==> instr.operands[i].number != instr.operands[j].number
    requires a in instr.operands && b in instr.operands && a.number == b.number
    ensures a == b
  {}

  lemma InstructionStepsAlike(r: Resolver, e: Engine, func: int, instr: Instruction, reg: int, s: State)
    requires LayoutContract(r.port) && e.port == r.port && e.locators == r.locators && Whole(r.port, reg)
    requires Straight(r.port, r.locators, instr)
    ensures StepsAlike(r, func, instr, reg, Step(e, instr, func, s).Register(reg), s)
  {
    var d := Decide(r.port, Register(reg), instr, func);
    if instr.IsCall() {
      CallStepsAlike(r, e, func, instr, reg, s);
    } else if d == Skip {
      SkipStepsAlike(r, e, func, instr, reg, s);
    } else if d.Define? {
      DefineStepsAlike(r, e, func, instr, reg, s);
    } else {
      SettledIsUnknown(Flow(r.port, Register(reg), func, []), instr);
      SettledIsPartialOrDestroyed(r.port, instr, func, reg);
      PartialWritesAreDropped(r.port, instr, instr.operands, Transfer(e, instr, func, s));
    }
  }

  // -- a stretch of code -------------------------------------------------------------------

  /** Agreement about every register before the last instruction is agreement after it. */
  lemma LastStepAgrees(r: Resolver, func: int, code: seq<Instruction>, reg: int, before: State, after: Value)
    requires code != [] && StepsAlike(r, func, code[|code| - 1], reg, after, before) && Whole(r.port, reg)
    requires forall x :: Whole(r.port, x) ==> SameConstant(Backward(r, func, code[..|code| - 1], x), before.Register(x))
    ensures SameConstant(Backward(r, func, code, reg), after)
  {
    hide Decide, Dispatch, Extract, Whole;
  }

  lemma {:induction false} StretchesAgree(r: Resolver, e: Engine, func: int, code: seq<Instruction>, reg: int)
    requires LayoutContract(r.port) && e.port == r.port && e.locators == r.locators && Whole(r.port, reg)
    requires forall instr :: instr in code ==> Straight(r.port, r.locators, instr)
    ensures SameConstant(Backward(r, func, code, reg), Forward(e, func, code, EMPTY).Register(reg))
  {
    if code != [] {
      hide Straight, LayoutContract, Step, StepsAlike, Backward, SameConstant, Whole;
      var front, instr := code[..|code| - 1], code[|code| - 1];
      var s := Forward(e, func, front, EMPTY);
      assert instr in code;
      InstructionStepsAlike(r, e, func, instr, reg, s);
      forall x | Whole(r.port, x) ensures SameConstant(Backward(r, func, front, x), s.Register(x)) {
        StretchesAgree(r, e, func, front, x);
      }
      LastStepAgrees(r, func, code, reg, s, Step(e, instr, func, s).Register(reg));
    }
  }

  lemma {:induction false} ForwardFromTheFront(e: Engine, func: int, instr: Instruction, code: seq<Instruction>, s: State)
    ensures Forward(e, func, [instr] + code, s) == Forward(e, func, code, Step(e, instr, func, s))
  {
    hide Step;
    if code == [] {
      assert [instr] + code == [instr] && [instr][..0] == [];
    } else {
      var all := [instr] + code;
      assert all[..|all| - 1] == [instr] + code[..|code| - 1];
      ForwardFromTheFront(e, func, instr, code[..|code| - 1], s);
    }
  }

  lemma {:induction false} SimulationIsForward(e: Engine, func: int, ea: int, end: int, stop: int, s: State, used: int)
    requires DecodesInPlace(e.port) && stop <= end
    requires !Simulate(e, ea, end, Some(stop), func, s, used).exceeded
    ensures Simulate(e, ea, end, Some(stop), func, s, used).state == Forward(e, func, Code(e.port, ea, stop), s)
    decreases e.maxInstructions - used, end - ea
  {
    hide Step;
    if ea < stop {
      CodeFromTheFront(e.port, ea, stop);
      match e.port.decodeAt(ea)
      case None =>
        assert Code(e.port, ea, stop) == Code(e.port, ea + 1, stop);
        SimulationIsForward(e, func, ea + 1, end, stop, s, used);
      case Some(instr) =>
        CodeSkipsGaps(e.port, ea + 1, instr.NextEa(), stop);
        ForwardFromTheFront(e, func, instr, Code(e.port, instr.NextEa(), stop), s);
        SimulationIsForward(e, func, instr.NextEa(), end, stop, Step(e, instr, func, s), used + 1);
    }
  }

  // -- the budgeted walk over a single block ---------------------------------------------------

  function Heads(port: IdaPort, lo: int, hi: int): nat
    decreases hi - lo
  {
    if hi <= lo then 0 else Heads(port, lo, hi - 1) + if port.isHead(hi - 1) then 1 else 0
  }

  lemma {:induction false} HeadsSkip(port: IdaPort, lo: int, mid: int, hi: int)
    requires lo <= mid <= hi && forall ea :: mid <= ea < hi ==> !port.isHead(ea)
    requires DecodesInPlace(port)
    ensures Heads(port, lo, hi) == Heads(port, lo, mid) && Code(port, lo, hi) == Code(port, lo, mid)
    decreases hi - mid
  {
    if mid < hi { HeadsSkip(port, lo, mid, hi - 1); }
  }

  /** A block of the function's graph that nothing leads to. */
  ghost predicate FirstBlock(port: IdaPort, func: int, block: Block) {
    var blocks := port.flowchart(func);
    && Predecessors(blocks, block) == []
    && forall ea :: block.startEa <= ea < block.endEa ==>
         port.funcStart(ea) == Some(func) && BlockContaining(blocks, ea) == Some(block)
  }

  ghost predicate AllStraight(r: Resolver, block: Block) {
    forall ea :: block.startEa <= ea < block.endEa && r.port.decodeAt(ea).Some? ==>
      Straight(r.port, r.locators, r.port.decodeAt(ea).value)
  }

  function ValueOr(v: Option<Value>): Value { if v.Some? then v.value else Unk(NO_DEFINITION_FOUND) }

  lemma StraightPlansNeedNoMemory(r: Resolver, instr: Instruction, func: int, reg: int)
    requires Straight(r.port, r.locators, instr) && Dispatch(r.locators, instr).Some?
    requires Decide(r.port, Register(reg), instr, func).Define?
    ensures !Extract(Dispatch(r.locators, instr).value, instr, Decide(r.port, Register(reg), instr, func).operand,
                     r.port.pointerSize).FromMemory?
  {}

  /** Two steps for every head are enough for the walk to follow its chain to the end. */
  lemma {:induction false} ScanIsBackward(r: Resolver, func: int, block: Block, reg: int, hi: int, b: Budget)
    requires DecodesInPlace(r.port) && FirstBlock(r.port, func, block) && AllStraight(r, block)
    requires block.startEa <= hi <= block.endEa
    requires b.maxSteps - b.steps >= 2 * Heads(r.port, block.startEa, hi)
    ensures ValueOr(Scan(r, Register(reg), r.port.PrevHead(hi, block.startEa), block.startEa, func, b).0)
      == Backward(r, func, Code(r.port, block.startEa, hi), reg)
    decreases hi - block.startEa, 0
  {
    var lo := block.startEa;
    var ea := r.port.PrevHead(hi, lo);
    if ea.None? {
      HeadsSkip(r.port, lo, lo, hi);
    } else {
      HeadsSkip(r.port, lo, ea.value + 1, hi);
      var b1 := b.Step().Touch();
      match r.port.decodeAt(ea.value)
      case None => ScanIsBackward(r, func, block, reg, ea.value, b1);
      case Some(instr) =>
        assert Code(r.port, lo, hi)[..|Code(r.port, lo, ea.value)|] == Code(r.port, lo, ea.value);
        match Decide(r.port, Register(reg), instr, func)
        case Skip => ScanIsBackward(r, func, block, reg, ea.value, b1);
        case Settle(v) =>
        case Define(operand) =>
          var loc := Dispatch(r.locators, instr);
          if loc.Some? {
            StraightPlansNeedNoMemory(r, instr, func, reg);
            var plan := Extract(loc.value, instr, operand, r.port.pointerSize);
            if plan.FromRegister? { ResolveIsBackward(r, func, block, plan.reg, ea.value, b1); }
          }
    }
  }

  lemma {:induction false} ResolveIsBackward(r: Resolver, func: int, block: Block, reg: int, before: int, b: Budget)
    requires DecodesInPlace(r.port) && FirstBlock(r.port, func, block) && AllStraight(r, block)
    requires block.startEa <= before < block.endEa
    requires b.maxSteps - b.steps >= 2 * Heads(r.port, block.startEa, before) + 1
    ensures ResolveRegister(r, reg, before, b).0 == Backward(r, func, Code(r.port, block.startEa, before), reg)
    decreases before - block.startEa, 1
  {
    hide Scan, Backward, Code, AllStraight, DecodesInPlace;
    assert r.port.funcStart(before) == Some(func);
    var blocks := r.port.flowchart(func);
    ScanIsBackward(r, func, block, reg, before, b.Step());
    assert Walk(r, Register(reg), before, block, func, blocks, {}, b.Step()).0 ==
      Found(ValueOr(Scan(r, Register(reg), r.port.PrevHead(before, block.startEa), block.startEa, func, b.Step()).0));
  }

  /** Up to any point of a straight-line block that nothing leads to: with two steps per
    instruction and one more, the demand-driven walk answers a constant for a whole
    register exactly when forward simulation from the empty state does, and then it is
    the same. */
  lemma EnginesAgreeOnStraightLines(r: Resolver, e: Engine, func: int, block: Block, before: int, reg: int, b: Budget)
    requires e.port == r.port && e.locators == r.locators && Whole(r.port, reg)
    requires DecodesInPlace(r.port) && LayoutContract(r.port)
    requires FirstBlock(r.port, func, block) && AllStraight(r, block) && block.startEa <= before < block.endEa
    requires b.maxSteps - b.steps >= 2 * Heads(r.port, block.startEa, before) + 1
    requires !Simulate(e, block.startEa, block.endEa, Some(before), func, EMPTY, 0).exceeded
    ensures var backward := ResolveRegister(r, reg, before, b).0;
      var forward := Simulate(e, block.startEa, block.endEa, Some(before), func, EMPTY, 0).state.Register(reg);
      forall c :: backward == c && c.Concrete? <==> forward == c && c.Concrete?
  {
    ResolveIsBackward(r, func, block, reg, before, b);
    SimulationIsForward(e, func, block.startEa, block.endEa, before, EMPTY, 0);
    CodeIsStraight(r, block, block.startEa, before);
    StretchesAgree(r, e, func, Code(r.port, block.startEa, before), reg);
  }

  lemma {:induction false} CodeIsStraight(r: Resolver, block: Block, lo: int, hi: int)
    requires AllStraight(r, block) && block.startEa <= lo && hi <= block.endEa
    ensures forall instr :: instr in Code(r.port, lo, hi) ==> Straight(r.port, r.locators, instr)
    decreases hi - lo
  {
    if lo < hi { CodeIsStraight(r, block, lo, hi - 1); }
  }
}
