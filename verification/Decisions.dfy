/** Exactly when an instruction is passed by, and exactly what calls and conditional moves do. */
module Decisions {
  import opened Values
  import opened InsnModel
  import opened Port
  import opened State
  import opened Addressing
  import opened Merge
  import opened Locators
  import opened Machine
  import opened ForwardSpec
  import opened ForwardStep
  import opened BackwardSpec
  import opened BackwardBudget
  import opened ReachingDefs
  import opened BackwardSoundness
  import opened PushSequence

  // -- the backward walk -----------------------------------------------------------------------------

  lemma OpenWriteDecides(f: Flow, instr: Instruction)
    requires LayoutContract(f.port) && Askable(f.port, f.target) && WellDecoded(f.port, instr)
    requires Decide(f.port, f.target, instr, f.func) != Skip
    ensures OpenlyWrites(f.port, f.func, instr, f.target)
  {
    var d := Decide(f.port, f.target, instr, f.func);
    match f.target
    case Memory(cell) =>
      var op :| op in instr.operands && DecideStore(f.port, instr, op, f.func, cell) == d;
      assert MayLandOn(f.port, op, instr.ea, f.func, cell);
    case Register(reg) =>
      assert ViewOf(f.port, reg, 0).parent == reg;
      if !(instr.IsCall() && CallDestroys(f.port, reg)) {
        var op :| op in instr.operands && DecideOperand(f.port, instr, op, reg) == d;
        assert ViewOf(f.port, op.reg.value, op.dtypeSize).parent == Parent(f.port, op.reg.value);
      }
  }

  /** The walk passes by exactly the instructions whose operands, or a call, do not say that
    they may write the target. */
  lemma SkipsExactlyWhatIsNotWritten(f: Flow, instr: Instruction)
    requires LayoutContract(f.port) && Askable(f.port, f.target) && WellDecoded(f.port, instr)
    ensures Decide(f.port, f.target, instr, f.func) == Skip <==> !OpenlyWrites(f.port, f.func, instr, f.target)
  {
    hide LayoutContract, WellDecoded, Decide, OpenlyWrites, Askable;
    if Decide(f.port, f.target, instr, f.func) == Skip {
      SkippedIsNotWritten(f, instr);
    } else {
      OpenWriteDecides(f, instr);
    }
  }

  /** A call that returns in the register defines it, one that only clobbers it settles that its
    value is unknown; otherwise, if one operand writes the register, it defines it or settles
    that, according as it writes all of it. */
  lemma RegistersAreDecidedExactly(port: IdaPort, instr: Instruction, func: int, reg: int, op: Operand)
    requires LayoutContract(port) && Whole(port, reg) && WellDecoded(port, instr)
    ensures instr.IsCall() && port.returnValueReg == Some(reg) ==> Decide(port, Register(reg), instr, func) == Define(0)
    ensures instr.IsCall() && port.returnValueReg != Some(reg) && reg in port.callClobbered ==>
              Decide(port, Register(reg), instr, func) == Settle(Unk(NO_DEFINITION_FOUND))
    ensures !(instr.IsCall() && CallDestroys(port, reg)) && OnlyWriter(port, instr, reg, op) ==>
              Decide(port, Register(reg), instr, func) ==
                if Defines(port, op) then Define(op.number) else Settle(Unk(UNSUPPORTED_OPERAND_SHAPE))
  {
    assert ViewOf(port, reg, 0).parent == reg;
    if !(instr.IsCall() && CallDestroys(port, reg)) && OnlyWriter(port, instr, reg, op) {
      forall other | other in instr.operands && other != op ensures DecideOperand(port, instr, other, reg) == Skip {
        OtherOperandIsSkipped(port, instr, reg, other);
      }
      WriterDecides(port, instr, reg, op);
      assert DecideOperands(port, instr, instr.operands, reg) != Skip;
    }
  }

  /** A call that does not return in the register, whole or part, settles that its value is
    unknown exactly when it clobbers what the register is part of. */
  lemma ClobberedPartsAreSettled(port: IdaPort, instr: Instruction, func: int, reg: int)
    requires LayoutContract(port) && instr.IsCall() && port.returnValueReg != Some(reg)
    requires forall op :: op in instr.operands ==> !instr.IsWritten(op.number)
    ensures Decide(port, Register(reg), instr, func) ==
      if Parent(port, reg) in port.callClobbered then Settle(Unk(NO_DEFINITION_FOUND)) else Skip
  {
    assert ViewOf(port, reg, 0).parent == Parent(port, reg);
    assert forall op :: op in instr.operands ==> DecideOperand(port, instr, op, reg) == Skip;
  }

  ghost predicate OnlyWriter(port: IdaPort, instr: Instruction, reg: int, op: Operand) {
    && op in instr.operands && WritesTo(port, instr, op, reg)
    && forall other :: other in instr.operands && WritesTo(port, instr, other, reg) ==> other == op
  }

  predicate WritesTo(port: IdaPort, instr: Instruction, op: Operand, reg: int) {
    op.kind == REG && op.reg.Some? && instr.IsWritten(op.number) && Parent(port, op.reg.value) == reg
  }

  lemma OtherOperandIsSkipped(port: IdaPort, instr: Instruction, reg: int, op: Operand)
    requires LayoutContract(port) && Whole(port, reg) && !WritesTo(port, instr, op, reg)
    ensures DecideOperand(port, instr, op, reg) == Skip
  {
    assert ViewOf(port, reg, 0).parent == reg;
    if op.reg.Some? { assert ViewOf(port, op.reg.value, op.dtypeSize).parent == Parent(port, op.reg.value); }
  }

  lemma WriterDecides(port: IdaPort, instr: Instruction, reg: int, op: Operand)
    requires LayoutContract(port) && Whole(port, reg) && WritesTo(port, instr, op, reg)
    ensures DecideOperand(port, instr, op, reg) == if Defines(port, op) then Define(op.number) else Settle(Unk(UNSUPPORTED_OPERAND_SHAPE))
  {
    var query, write := ViewOf(port, reg, 0), ViewOf(port, op.reg.value, op.dtypeSize);
    assert write.parent == Parent(port, op.reg.value) && query.bitSize == query.parentBitSize;
    assert write.parentBitSize == Bits(port, write.parent);
    assert port.registerView(op.reg.value, op.dtypeSize).Some? ==> port.registerView(write.parent, 0).Some?;
  }

  /** If one operand may land on the cell, it defines the cell, or if it is indexed settles that
    its value is unknown. */
  lemma CellsAreDecidedExactly(port: IdaPort, instr: Instruction, func: int, cell: Cell, op: Operand)
    requires WellDecoded(port, instr) && op in instr.operands && LandsOn(port, instr, op, func, cell)
    requires forall other :: other in instr.operands && LandsOn(port, instr, other, func, cell) ==> other == op
    ensures Decide(port, Memory(cell), instr, func) ==
      if op.HasIndex() then Settle(Unk(UNSUPPORTED_OPERAND_SHAPE)) else Define(op.number)
  {
    hide OperandCell;
    var d := DecideStores(port, instr, instr.operands, func, cell);
    assert DecideStore(port, instr, op, func, cell) != Skip;
    assert forall other :: other in instr.operands && other != op ==> DecideStore(port, instr, other, func, cell) == Skip;
  }

  predicate LandsOn(port: IdaPort, instr: Instruction, op: Operand, func: int, cell: Cell) {
    op.IsMemory() && instr.IsWritten(op.number) && MayLandOn(port, op, instr.ea, func, cell)
  }

  /** Where no block holds the use, the search is one scan down to the start of the function. */
  lemma SearchWithoutABlock(r: Resolver, f: Flow, before: int, b: Budget)
    requires f.port == r.port && HeadsDecode(r.port) && f.blocks == r.port.flowchart(f.func) && BlockContaining(f.blocks, before).None?
    ensures var (o, b') := Search(r, f.target, before, f.func, b);
      var def := LastDef(f, f.func, before);
      || (o == Found(Unk(BUDGET_EXCEEDED)) && !Granted(b, b'))
      || (def.None? && o == EntryOutcome(f.target))
      || (def.Some? && exists at: Budget :: at.Left() < b.Left() && o == Found(DefValue(r, f, def.value, at).0))
  {
    ScanStopsAtLastDef(r, f, before, f.func, b);
    hide Scan, LastDef, HeadsDecode, DefValue;
  }

  /** Of the paths that close no cycle, some write the cell: if all do, a constant or symbol is
    answered exactly when each comes to it, and otherwise that they diverge. */
  lemma PathsAreCombinedExactly(results: seq<Outcome>, v: Value)
    requires (exists o :: o in results && o.Found?) && (v.Concrete? || v.Symbolic?)
    ensures NotFound in results ==> Combine(results) == Found(Unk(DIVERGENT_PATHS))
    ensures NotFound !in results ==>
      (Combine(results) == Found(v) <==> forall o :: o in results && o.Found? ==> o.value == v)
  {
    var o :| o in results && o.Found?;
    var informative := Informative(results);
    var found := FoundValues(informative);
    assert Found(o.value) in informative && o.value in found;
    JoinAllNeverGuesses(found, v);
    if NotFound in results {
      assert NotFound in informative;
    } else {
      assert forall x :: x in informative ==> x.Found?;
      assert forall x :: x in results && x.Found? ==> Found(x.value) in informative;
    }
  }

  // -- calls and conditional moves, forward ------------------------------------------------------------

  /** Forward, a call names what it returns, gives up what it clobbers and keeps all else. */
  lemma CallsAreSteppedExactly(e: Engine, instr: Instruction, func: int, s: State)
    requires instr.IsCall() && forall op :: op in instr.operands ==> !instr.IsWritten(op.number)
    ensures var after := Step(e, instr, func, s);
      && after.stack == s.stack
      && forall reg :: after.Register(reg) ==
           if e.port.returnValueReg == Some(reg) then Symbolic(Ret(instr.ea))
           else if reg in e.port.callClobbered then Unk(INDIRECT_CONTROL_FLOW)
           else s.Register(reg)
  {
    PartialWritesAreDropped(e.port, instr, instr.operands, Transfer(e, instr, func, s));
  }

  /** Forward, a conditional move leaves a constant or a symbol exactly when both its operands
    hold it. */
  lemma CmovsAreSteppedExactly(instr: Instruction, s: State, v: Value)
    requires Matches(CmovRegReg, instr) && Dst(instr).reg.Some? && Src(instr).reg.Some? && (v.Concrete? || v.Symbolic?)
    ensures ApplyForward(CmovRegReg, instr, s).RegisterOf(Dst(instr).reg) == v <==>
      s.RegisterOf(Dst(instr).reg) == v && s.RegisterOf(Src(instr).reg) == v
  {
    var both := [s.RegisterOf(Dst(instr).reg), s.RegisterOf(Src(instr).reg)];
    assert both[..1] == [both[0]] && JoinAll([both[0]]) == both[0];
    assert forall x :: x in both <==> x == both[0] || x == both[1];
    JoinAllNeverGuesses(both, v);
  }

  // -- the push scan ------------------------------------------------------------------------------------

  predicate OnTheStack(space: Space) {
    match space
    case StackPointer => true
    case StackUnknown(_) => true
    case Segment(_, inner) => OnTheStack(inner)
    case _ => false
  }

  lemma StackOperands(port: IdaPort, func: int, instr: Instruction, op: Operand, sp: int)
    requires port.stackPointerReg == Some(sp) && Addressed(op) && (op.kind == MEM_DIRECT ==> op.reg.None?)
    ensures OnTheStack(OperandCell(port, op, instr.ea, func).space) <==> op.reg == Some(sp)
  {
    var cell := OperandCell(port, op, instr.ea, func);
    if op.HasSegment() { assert OnTheStack(cell.space) == OnTheStack(cell.space.inner); }
  }

  /** The scan passes exactly the instructions, other than pushes, that transfer no control and
    openly write neither the stack pointer nor a cell of its region. */
  lemma TransparentExactly(port: IdaPort, func: int, instr: Instruction, sp: int)
    requires port.stackPointerReg == Some(sp)
    requires forall op :: op in instr.operands && op.IsMemory() ==> Addressed(op) && (op.kind == MEM_DIRECT ==> op.reg.None?)
    ensures IsTransparent(instr, Some(sp)) <==>
      && !instr.isControlTransfer
      && (forall op :: op in instr.operands && op.kind == REG && op.reg == Some(sp) ==> !instr.IsWritten(op.number))
      && (forall cell: Cell :: OnTheStack(cell.space) ==> !WritesCell(port, func, instr, cell))
  {
    hide OperandCell, OnTheStack;
    forall op | op in instr.operands && op.IsMemory()
      ensures OnTheStack(OperandCell(port, op, instr.ea, func).space) <==> op.reg == Some(sp)
    {
      StackOperands(port, func, instr, op, sp);
    }
    if op :| op in instr.operands && op.IsMemory() && instr.IsWritten(op.number) && op.reg == Some(sp) {
      var cell := OperandCell(port, op, instr.ea, func);
      assert MayLandOn(port, op, instr.ea, func, cell);
      assert WritesCell(port, func, instr, cell);
    }
  }

  // -- refusals -------------------------------------------------------------------------------------------

  /** A query without a budget is refused as such, whatever it is about. */
  lemma SpentBudgetsAreNamed(r: Resolver, reg: int, base: Option<int>, disp: int, size: int, before: int, operand: int, b: Budget)
    requires !b.Step().StepsLast()
    ensures ResolveRegister(r, reg, before, b).0 == Unk(BUDGET_EXCEEDED)
    ensures ResolveMemory(r, base, disp, before, size, b).0 == Unk(BUDGET_EXCEEDED)
    ensures ResolveAtInstruction(r, before, operand, b).0 == Unk(BUDGET_EXCEEDED)
    ensures Dereference(r, disp, size, b).0 == Unk(BUDGET_EXCEEDED)
  {
    hide Search, Interpret, FallbackDereference;
  }

  /** A forward query without a register, without blocks to start from and to answer at, or
    without an end to its fixpoint. */
  lemma UnanswerableQueriesAreNamed(e: Engine, func: int, argIndex: int, targetEa: int, reg: Option<int>)
    ensures var entry := BlockContaining(e.port.flowchart(func), func);
      var answer := ForwardSpec.ResolveAt(e, func, argIndex, targetEa, reg);
      if reg.None? then answer == Unk(UNSUPPORTED_OPERAND_SHAPE)
      else if entry.None? || BlockContaining(e.port.flowchart(func), targetEa).None? then answer == Unk(NO_DEFINITION_FOUND)
      else Fixpoint(e, QueryFor(e, func, argIndex, reg.value, entry.value)).exceeded ==> answer == Unk(BUDGET_EXCEEDED)
  {
    hide Fixpoint, BlockContaining, Simulate;
  }

  // -- which of several ----------------------------------------------------------------------------------

  lemma {:induction false} FirstBlockIsTaken(blocks: seq<Block>, ea: int, i: nat)
    requires i < |blocks| && blocks[i].startEa <= ea < blocks[i].endEa
    requires forall j :: 0 <= j < i ==> !(blocks[j].startEa <= ea < blocks[j].endEa)
    ensures BlockContaining(blocks, ea) == Some(blocks[i])
  {
    if i > 0 { FirstBlockIsTaken(blocks[1..], ea, i - 1); }
  }

  lemma {:induction false} LastBlockIsTaken(blocks: seq<Block>, start: int, i: nat)
    requires i < |blocks| && blocks[i].startEa == start && forall j :: i < j < |blocks| ==> blocks[j].startEa != start
    ensures BlockAt(blocks, start) == Some(blocks[i])
  {
    if i < |blocks| - 1 { LastBlockIsTaken(blocks[..|blocks| - 1], start, i); }
  }

  predicate IsWrittenMemory(instr: Instruction, op: Operand, written: bool) { op.IsMemory() && instr.IsWritten(op.number) == written }

  /** Of several memory operands the last is taken. */
  lemma {:induction false} LastMemoryOperandIsTaken(instr: Instruction, ops: seq<Operand>, written: bool, i: nat)
    requires i < |ops| && IsWrittenMemory(instr, ops[i], written)
    requires forall j :: i < j < |ops| ==> !IsWrittenMemory(instr, ops[j], written)
    ensures MemoryOperand(instr, ops, written) == Some(ops[i])
  {
    if i < |ops| - 1 { LastMemoryOperandIsTaken(instr, ops[..|ops| - 1], written, i); }
  }

  predicate IsWrittenRegister(instr: Instruction, op: Operand) { op.kind == REG && instr.IsWritten(op.number) }

  /** Of several registers written the first is taken, and of several sources. */
  lemma {:induction false} FirstDestinationIsTaken(instr: Instruction, ops: seq<Operand>, i: nat)
    requires i < |ops| && IsWrittenRegister(instr, ops[i]) && forall j :: 0 <= j < i ==> !IsWrittenRegister(instr, ops[j])
    ensures RegisterDestination(instr, ops) == Some(ops[i])
  {
    if i > 0 { FirstDestinationIsTaken(instr, ops[1..], i - 1); }
  }

  lemma {:induction false} FirstOtherIsTaken(ops: seq<Operand>, exclude: int, i: nat)
    requires i < |ops| && ops[i].number != exclude && forall j :: 0 <= j < i ==> ops[j].number == exclude
    ensures OtherOperand(ops, exclude) == Some(ops[i])
  {
    if i > 0 { FirstOtherIsTaken(ops[1..], exclude, i - 1); }
  }

  function Alone(port: IdaPort, instr: Instruction, op: Operand, func: int, t: Target): Decision {
    if t.Register? then DecideOperand(port, instr, op, t.reg) else DecideStore(port, instr, op, func, t.cell)
  }

  /** Of several operands that decide the first does. */
  lemma {:induction false} FirstOperandDecides(port: IdaPort, instr: Instruction, ops: seq<Operand>, func: int, t: Target, i: nat)
    requires i < |ops| && Alone(port, instr, ops[i], func, t) != Skip
    requires forall j :: 0 <= j < i ==> Alone(port, instr, ops[j], func, t) == Skip
    ensures Alone(port, instr, ops[i], func, t) ==
      if t.Register? then DecideOperands(port, instr, ops, t.reg) else DecideStores(port, instr, ops, func, t.cell)
  {
    hide DecideOperand, DecideStore;
    if i > 0 { FirstOperandDecides(port, instr, ops[1..], func, t, i - 1); }
  }
}
