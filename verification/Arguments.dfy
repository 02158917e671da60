/** From an argument's slot to the word the callee receives: the slot is resolved through
  the backward resolver, and a constant it answers is that word. */
module Arguments {
  import opened Values
  import opened InsnModel
  import opened Port
  import opened State
  import opened Addressing
  import opened Addresses
  import opened Locators
  import opened Registry
  import opened Arithmetic
  import opened Machine
  import opened BackwardSpec
  import opened BackwardSoundness
  import opened PushSequence
  import opened Conventions
  import opened ReachingDefs

  /** `_resolve_slot`: every slot is a query of its own, with a fresh budget. */
  function ResolveSlot(r: Resolver, callEa: int, slot: Slot, pushes: seq<int>, b: Budget): Value {
    match slot
    case InRegister(None) => Unk(UNSUPPORTED_OPERAND_SHAPE)
    case InRegister(Some(reg)) => ResolveRegister(r, reg, callEa, b).0
    case Pushed(position) =>
      (match PushForPosition(pushes, position)
       case None => Unk(NO_DEFINITION_FOUND)
       case Some(ea) => ResolveAtInstruction(r, ea, 0, b).0)
    case AtOffset(offset) => ResolveMemory(r, r.port.stackPointerReg, offset, callEa, r.port.pointerSize, b).0
  }

  // -- the operand of a push -------------------------------------------------------------

  /** A push of a whole register or a constant that fits a word, or of a memory word. */
  predicate PushFits(port: IdaPort, push: Instruction)
    requires push.OperandAt(0).Some?
  {
    StoresWord(port, Dst(push))
  }

  /** What resolving the push's operand comes to ask is answerable. */
  ghost predicate PushClear(r: Resolver, func: int, entryStart: int, push: Instruction)
    requires Matches(Push, push)
  {
    match Extract(Push, push, 0, r.port.pointerSize)
    case FromRegister(reg, _) => Clear(r, func, entryStart, Register(reg), push.ea)
    case FromMemory(base, disp, _) => Clear(r, func, entryStart, Memory(MemoryLocation(r.port, base, disp, push.ea, func)), push.ea)
    case _ => true
  }

  lemma PushStoresItsOperand(port: IdaPort, func: int, push: Instruction, m: MState)
    requires LayoutContract(port) && InRange(port, m) && Matches(Push, push) && PushFits(port, push)
    ensures var op, plan := Dst(push), Extract(Push, push, 0, port.pointerSize);
      match plan
      case Done(v) => v.Concrete? ==> v.value == PushedWord(port, func, push, m)
      case FromRegister(reg, fold) => fold == Same && m.Reg(reg) == PushedWord(port, func, push, m)
      case FromMemory(base, disp, _) => m.Mem(MemoryLocation(port, base, disp, push.ea, func)) == PushedWord(port, func, push, m)
      case NotApplicable => true
  {
    var op, bits := Dst(push), WordBits(port);
    if op.kind == REG {
      FullReadReads(port, m, op);
      Pow2Grows(Bits(port, op.reg.value), bits);
      DivisionIsUnique(m.Reg(op.reg.value), Pow2(bits), 0, m.Reg(op.reg.value));
    } else if op.kind == IMMEDIATE {
      DivisionIsUnique(op.immValue, Pow2(bits), 0, op.immValue);
    } else {
      var word := m.Mem(OperandCell(port, op, push.ea, func));
      DivisionIsUnique(word, Pow2(bits), 0, word);
    }
  }

  /** Resolving at a push answers the operand's word in every run that reaches it. */
  lemma PushOperandIsSound(r: Resolver, func: int, entryStart: int, run: seq<Hop>, push: Instruction, b: Budget)
    requires BackwardHypotheses(r.port, func) && RunsTo(r.port, func, entryStart, run, push.ea)
    requires r.port.decodeAt(push.ea) == Some(push) && Matches(Push, push)
    requires PushFits(r.port, push) && PushClear(r, func, entryStart, push)
    ensures |run| > 0 && |run[|run| - 1].trace| > 0
    ensures var v := ResolveAtInstruction(r, push.ea, 0, b).0;
      v.Concrete? ==> v.value == PushedWord(r.port, func, push, LastState(run))
  {
    var loc, b1 := Dispatch(r.locators, push), b.Step().Touch();
    RunIsInRange(r.port, func, entryStart, run, push.ea);
    PushStoresItsOperand(r.port, func, push, LastState(run));
    if loc.Some? { BuiltinsAreDisjoint(Push, loc.value, push); }
    hide BackwardHypotheses, RunsTo, Clear, Matches, PushedWord, ResolveRegister, ResolveMemory, InRange, PushFits,
         LayoutContract;
    if loc.Some? {
      match Extract(Push, push, 0, r.port.pointerSize) {
        case Done(_) =>
        case NotApplicable =>
        case FromRegister(reg, _) =>
          if ResolveRegister(r, reg, push.ea, b1).0.Concrete? {
            RegisterIsSound(r, func, entryStart, reg, run, push.ea, b1);
          }
        case FromMemory(base, disp, size) =>
          if ResolveMemory(r, base, disp, push.ea, size, b1).0.Concrete? {
            MemoryIsSound(r, func, entryStart, base, disp, size, run, push.ea, b1);
          }
      }
    }
  }

  lemma RunIsInRange(port: IdaPort, func: int, entryStart: int, run: seq<Hop>, before: int)
    requires RunsTo(port, func, entryStart, run, before)
    ensures |run| > 0 && |run[|run| - 1].trace| > 0 && InRange(port, LastState(run))
  {
    var f := Flow(port, Register(0), func, port.flowchart(func));
    RunStaysInRange(f, entryStart, run, before);
  }

  // -- a call reached through its pushes ---------------------------------------------------

  lemma {:induction false} ScannedAreDecoded(port: IdaPort, ea: Option<int>, minEa: int, pushes: nat, skipped: nat)
    requires ea.Some? ==> minEa <= ea.value
    ensures forall h :: h in Scanned(port, ea, minEa, pushes, skipped) ==> port.decodeAt(h.0) == Some(h.1)
    decreases if ea.Some? then ea.value - minEa + 1 else 0
  {
    hide IsTransparent;
    if ea.Some? && pushes < MAX_PUSH_SEQUENCE && skipped < MAX_TRANSPARENT_SKIP {
      var next := port.PrevHead(ea.value, minEa);
      ScannedAreDecoded(port, next, minEa, pushes + 1, skipped);
      ScannedAreDecoded(port, next, minEa, pushes, skipped + 1);
    }
  }

  lemma {:induction false} ReversedKeepsMembers<T>(s: seq<T>)
    ensures forall x :: x in Reversed(s) <==> x in s
  {
    if s != [] {
      ReversedKeepsMembers(s[..|s| - 1]);
      assert forall x :: x in s <==> x in s[..|s| - 1] || x == s[|s| - 1];
    }
  }

  lemma StretchIsDecoded(port: IdaPort, callEa: int)
    ensures forall h :: h in Stretch(port, callEa) ==> port.decodeAt(h.0) == Some(h.1)
  {
    var func := port.funcStart(callEa);
    if func.Some? {
      var scanned := Scanned(port, port.PrevHead(callEa, func.value), func.value, 0, 0);
      ScannedAreDecoded(port, port.PrevHead(callEa, func.value), func.value, 0, 0);
      ReversedKeepsMembers(scanned);
    }
  }

  /** The stretch before a call as it was executed: the stack after each head, the word
    each push stored, and the run that led to each head. */
  datatype Passage = Passage(values: seq<int>, trace: seq<Stack>, runs: seq<seq<Hop>>)

  ghost predicate Passed(r: Resolver, func: int, entryStart: int, callEa: int, p: Passage) {
    var port, heads := r.port, Stretch(r.port, callEa);
    && Performs(heads, p.values, p.trace, port.pointerSize) && |p.runs| == |heads|
    && forall i :: 0 <= i < |heads| && IsPush(heads[i]) && Matches(Push, heads[i].1) ==>
         && PushFits(port, heads[i].1) && PushClear(r, func, entryStart, heads[i].1)
         && RunsTo(port, func, entryStart, p.runs[i], heads[i].0)
         && |p.runs[i]| > 0 && |p.runs[i][|p.runs[i]| - 1].trace| > 0
         && p.values[i] == PushedWord(port, func, heads[i].1, LastState(p.runs[i]))
  }

  /** What the callee finds in a slot: `run` leads to the call, `p` through its pushes. */
  function ArgumentWord(port: IdaPort, func: int, callEa: int, slot: Slot, run: seq<Hop>, p: Passage): int
    requires |run| > 0 && |run[|run| - 1].trace| > 0 && |p.trace| > 0
  {
    match slot
    case InRegister(None) => 0
    case InRegister(Some(reg)) => LastState(run).Reg(reg)
    case Pushed(position) =>
      var atCall := p.trace[|p.trace| - 1];
      atCall.Load(atCall.sp + position * port.pointerSize)
    case AtOffset(offset) => LastState(run).Mem(MemoryLocation(port, port.stackPointerReg, offset, callEa, func))
  }

  lemma StretchWasPerformed(r: Resolver, func: int, entryStart: int, callEa: int, p: Passage)
    requires Passed(r, func, entryStart, callEa, p)
    ensures var heads := Stretch(r.port, callEa);
      Performs(heads, p.values, p.trace, r.port.pointerSize) && |p.trace| == |heads| + 1 && |p.values| == |heads|
  {}

  lemma PushedArgumentIsSound(r: Resolver, func: int, entryStart: int, callEa: int, position: nat, p: Passage, b: Budget)
    requires BackwardHypotheses(r.port, func) && r.port.pointerSize > 0
    requires Passed(r, func, entryStart, callEa, p)
    ensures var v := ResolveSlot(r, callEa, Pushed(position), CollectPushes(r.port, callEa), b);
      var atCall := p.trace[|p.trace| - 1];
      v.Concrete? ==> v.value == atCall.Load(atCall.sp + position * r.port.pointerSize)
  {
    hide BackwardHypotheses, RunsTo, ResolveAtInstruction, PushedWord, Matches, Stretch, CollectPushes, PushFits, Performs;
    var heads, pushes := Stretch(r.port, callEa), CollectPushes(r.port, callEa);
    StretchWasPerformed(r, func, entryStart, callEa, p);
    PushArgumentsMatchTheStack(r.port, callEa, Convention([], true, 0, 0), _ => None, position, p.values, p.trace);
    if position < |pushes| {
      var atCall := p.trace[|heads|];
      var i :| 0 <= i < |heads| && IsPush(heads[i]) && PushForPosition(pushes, position) == Some(heads[i].0)
               && atCall.Load(atCall.sp + position * r.port.pointerSize) == p.values[i];
      StretchIsDecoded(r.port, callEa);
      assert heads[i] in heads;
      PushAtIsSound(r, func, entryStart, heads[i].0, heads[i].1, p.runs[i], p.values[i], b);
    }
  }

  lemma PushAtIsSound(r: Resolver, func: int, entryStart: int, ea: int, push: Instruction, run: seq<Hop>, word: int, b: Budget)
    requires BackwardHypotheses(r.port, func) && r.port.decodeAt(ea) == Some(push) && push.mnem == "push"
    requires Matches(Push, push) ==>
      && PushFits(r.port, push) && PushClear(r, func, entryStart, push) && RunsTo(r.port, func, entryStart, run, ea)
      && |run| > 0 && |run[|run| - 1].trace| > 0 && word == PushedWord(r.port, func, push, LastState(run))
    ensures var v := ResolveAtInstruction(r, ea, 0, b).0; v.Concrete? ==> v.value == word
  {
    if Matches(Push, push) {
      assert push.ea == ea;
      PushOperandIsSound(r, func, entryStart, run, push, b);
    } else {
      MnemonicsDiffer(push.mnem);
      assert push.mnem[0] == 'p';
    }
  }

  /** What resolving the slot comes to ask is answerable. */
  ghost predicate SlotClear(r: Resolver, func: int, entryStart: int, callEa: int, slot: Slot) {
    match slot
    case InRegister(None) => true
    case InRegister(Some(reg)) => Clear(r, func, entryStart, Register(reg), callEa)
    case AtOffset(offset) => Clear(r, func, entryStart, Memory(MemoryLocation(r.port, r.port.stackPointerReg, offset, callEa, func)), callEa)
    case Pushed(_) => true
  }

  lemma OffsetArgumentIsSound(r: Resolver, func: int, entryStart: int, run: seq<Hop>, callEa: int, offset: int, b: Budget)
    requires BackwardHypotheses(r.port, func) && RunsTo(r.port, func, entryStart, run, callEa)
    requires SlotClear(r, func, entryStart, callEa, AtOffset(offset))
    ensures |run| > 0 && |run[|run| - 1].trace| > 0
    ensures var v := ResolveSlot(r, callEa, AtOffset(offset), [], b);
      v.Concrete? ==> v.value == LastState(run).Mem(MemoryLocation(r.port, r.port.stackPointerReg, offset, callEa, func))
  {
    RunIsInRange(r.port, func, entryStart, run, callEa);
    hide BackwardHypotheses, RunsTo, Clear, ResolveMemory, InRange;
    if ResolveSlot(r, callEa, AtOffset(offset), [], b).Concrete? {
      MemoryIsSound(r, func, entryStart, r.port.stackPointerReg, offset, r.port.pointerSize, run, callEa, b);
    }
  }

  lemma RegisterArgumentIsSound(r: Resolver, func: int, entryStart: int, run: seq<Hop>, callEa: int, reg: int, b: Budget)
    requires BackwardHypotheses(r.port, func) && RunsTo(r.port, func, entryStart, run, callEa)
    requires SlotClear(r, func, entryStart, callEa, InRegister(Some(reg)))
    ensures |run| > 0 && |run[|run| - 1].trace| > 0
    ensures var v := ResolveSlot(r, callEa, InRegister(Some(reg)), [], b); v.Concrete? ==> v.value == LastState(run).Reg(reg)
  {
    RunIsInRange(r.port, func, entryStart, run, callEa);
    hide BackwardHypotheses, RunsTo, Clear, ResolveRegister, InRange;
    if ResolveSlot(r, callEa, InRegister(Some(reg)), [], b).Concrete? {
      RegisterIsSound(r, func, entryStart, reg, run, callEa, b);
    }
  }

  /** Only the slots of pushes look at the pushes. */
  lemma PushesOnlyMatterToTheirSlots(r: Resolver, callEa: int, slot: Slot, pushes: seq<int>, b: Budget)
    requires !slot.Pushed?
    ensures ResolveSlot(r, callEa, slot, pushes, b) == ResolveSlot(r, callEa, slot, [], b)
  {}

  lemma SlotIsSound(r: Resolver, func: int, entryStart: int, run: seq<Hop>, callEa: int, slot: Slot, p: Passage, b: Budget)
    requires BackwardHypotheses(r.port, func) && RunsTo(r.port, func, entryStart, run, callEa)
    requires Passed(r, func, entryStart, callEa, p) && r.port.pointerSize > 0 && SlotClear(r, func, entryStart, callEa, slot)
    ensures |run| > 0 && |run[|run| - 1].trace| > 0 && |p.trace| > 0
    ensures var v := ResolveSlot(r, callEa, slot, CollectPushes(r.port, callEa), b);
      v.Concrete? ==> v.value == ArgumentWord(r.port, func, callEa, slot, run, p)
  {
    hide BackwardHypotheses, RunsTo, Passed, SlotClear, CollectPushes, Stretch, InRange, Performs, ResolveSlot, MemoryLocation;
    RunIsInRange(r.port, func, entryStart, run, callEa);
    StretchWasPerformed(r, func, entryStart, callEa, p);
    if !slot.Pushed? { PushesOnlyMatterToTheirSlots(r, callEa, slot, CollectPushes(r.port, callEa), b); }
    match slot {
      case InRegister(None) => SlotsWithoutAnswer(r, callEa, 0, [], b);
      case InRegister(Some(reg)) => RegisterArgumentIsSound(r, func, entryStart, run, callEa, reg, b);
      case Pushed(position) => PushedArgumentIsSound(r, func, entryStart, callEa, position, p, b);
      case AtOffset(offset) => OffsetArgumentIsSound(r, func, entryStart, run, callEa, offset, b);
    }
  }

  /** A register the port has no number for, and a position beyond the pushes that were found,
    are answered with the reason. */
  lemma SlotsWithoutAnswer(r: Resolver, callEa: int, position: nat, pushes: seq<int>, b: Budget)
    ensures ResolveSlot(r, callEa, InRegister(None), pushes, b) == Unk(UNSUPPORTED_OPERAND_SHAPE)
    ensures position >= |pushes| ==> ResolveSlot(r, callEa, Pushed(position), pushes, b) == Unk(NO_DEFINITION_FOUND)
  {}

  // -- the layout of the convention ---------------------------------------------------------

  /** The cell that far above the stack pointer at the call. */
  function AboveTheStack(port: IdaPort, func: int, callEa: int, offset: int): Cell {
    match port.spDelta(func, callEa)
    case Some(delta) => Cell(StackPointer, delta + offset)
    case None => Cell(StackUnknown(callEa), offset)
  }

  /** It lies that far above the stack pointer. */
  lemma AboveTheStackIsAbove(port: IdaPort, func: int, callEa: int, offset: int, entry: int, m: MState)
    requires port.stackPointerReg.Some? && StackAsTold(port, func, callEa, entry, m)
    ensures Place(port, entry, m, AboveTheStack(port, func, callEa, offset)) ==
      (m.Reg(Parent(port, port.stackPointerReg.value)) + offset) % AddressSpace(port)
  {
    hide Pow2, Parent;
    var delta := port.spDelta(func, callEa);
    if delta.Some? { ModAdds(entry + delta.value, offset, AddressSpace(port)); }
  }

  /** A slot at an offset is looked for on the stack exactly when the port knows the stack
    pointer: otherwise at the absolute address that the offset happens to be. */
  lemma OffsetsAreOnTheStackExactly(port: IdaPort, func: int, callEa: int, offset: int)
    ensures MemoryLocation(port, port.stackPointerReg, offset, callEa, func) == AboveTheStack(port, func, callEa, offset)
       <==> port.stackPointerReg.Some?
    ensures port.stackPointerReg.None? ==> MemoryLocation(port, port.stackPointerReg, offset, callEa, func) == Cell(Absolute, offset)
  {}

  /** What the callee receives as that argument: the registers that the convention names come
    first; after them the k-th argument is the k-th word above the stack pointer where
    arguments are pushed, and `stackBaseOffset` and k times `stackArgSize` above it where they
    are not.  `run` leads to the call, `p` through its pushes. */
  function ReceivedWord(port: IdaPort, func: int, c: Convention, register: string -> Option<int>, index: nat, callEa: int,
                        run: seq<Hop>, p: Passage): int
    requires |run| > 0 && |run[|run| - 1].trace| > 0 && |p.trace| > 0
  {
    if index < |c.registerNames| then
      match register(c.registerNames[index])
      case Some(reg) => LastState(run).Reg(reg)
      case None => 0
    else
      var k, atCall := index - |c.registerNames|, p.trace[|p.trace| - 1];
      if c.pushes then atCall.Load(atCall.sp + k * port.pointerSize)
      else LastState(run).Mem(AboveTheStack(port, func, callEa, c.stackBaseOffset + k * c.stackArgSize))
  }

  /** What resolving the argument comes to ask is answerable. */
  ghost predicate ArgumentClear(r: Resolver, func: int, entryStart: int, c: Convention, register: string -> Option<int>, index: nat,
                                callEa: int) {
    if index < |c.registerNames| then
      match register(c.registerNames[index])
      case Some(reg) => Clear(r, func, entryStart, Register(reg), callEa)
      case None => true
    else
      var k := index - |c.registerNames|;
      !c.pushes ==>
        && r.port.stackPointerReg.Some?
        && Clear(r, func, entryStart, Memory(AboveTheStack(r.port, func, callEa, c.stackBaseOffset + k * c.stackArgSize)), callEa)
  }

  lemma ArgumentIsInItsSlot(r: Resolver, func: int, entryStart: int, c: Convention, register: string -> Option<int>, index: nat,
                            run: seq<Hop>, callEa: int, p: Passage)
    requires |run| > 0 && |run[|run| - 1].trace| > 0 && |p.trace| > 0
    requires ArgumentClear(r, func, entryStart, c, register, index, callEa)
    ensures SlotClear(r, func, entryStart, callEa, SlotFor(c, register, index))
    ensures ArgumentWord(r.port, func, callEa, SlotFor(c, register, index), run, p) ==
      ReceivedWord(r.port, func, c, register, index, callEa, run, p)
  {
    hide Clear;
    if index >= |c.registerNames| && !c.pushes {
      OffsetsAreOnTheStackExactly(r.port, func, callEa, c.stackBaseOffset + (index - |c.registerNames|) * c.stackArgSize);
    }
  }

  /** Whatever way the convention passes the argument, a constant that the resolver
    answers for its slot is the word the callee receives, in every run to the call. */
  lemma ArgumentIsSound(r: Resolver, func: int, entryStart: int, c: Convention, register: string -> Option<int>, index: nat,
                        run: seq<Hop>, callEa: int, p: Passage, b: Budget)
    requires BackwardHypotheses(r.port, func) && RunsTo(r.port, func, entryStart, run, callEa)
    requires Passed(r, func, entryStart, callEa, p) && r.port.pointerSize > 0
    requires ArgumentClear(r, func, entryStart, c, register, index, callEa)
    ensures |run| > 0 && |run[|run| - 1].trace| > 0 && |p.trace| > 0
    ensures var v := ResolveSlot(r, callEa, SlotFor(c, register, index), CollectPushes(r.port, callEa), b);
      v.Concrete? ==> v.value == ReceivedWord(r.port, func, c, register, index, callEa, run, p)
  {
    hide BackwardHypotheses, RunsTo, Passed, SlotClear, ResolveSlot, SlotFor, CollectPushes, ArgumentWord, ArgumentClear,
         ReceivedWord, InRange, Stretch, Performs;
    RunIsInRange(r.port, func, entryStart, run, callEa);
    StretchWasPerformed(r, func, entryStart, callEa, p);
    ArgumentIsInItsSlot(r, func, entryStart, c, register, index, run, callEa, p);
    SlotIsSound(r, func, entryStart, run, callEa, SlotFor(c, register, index), p, b);
  }
}
