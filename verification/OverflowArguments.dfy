/** A Microsoft x64 call with six arguments: the two that no register takes are each answered
  with the word stored for it. */
module OverflowArguments {
  import opened Values
  import opened InsnModel
  import opened Port
  import opened State
  import opened Addressing
  import opened Locators
  import opened Registry
  import opened Machine
  import opened BackwardSpec
  import opened Conventions
  import opened Arguments
  import opened Programs
  import opened Unseen
  import opened StaticMemory
  import opened BackwardBudget
  import FakePort

  /** 0: mov [rsp+20h], 5;  1: mov [rsp+28h], 6;  2: call. */
  const FIFTH := StoreAt(0, At(0, 4, 0x20), 5)
  const SIXTH := StoreAt(1, At(0, 4, 0x28), 6)
  const CALL := Instruction(2, "call", 1, [], [], [], true)
  const CODE: Program := map[0 := FIFTH, 1 := SIXTH, 2 := CALL]
  const DELTAS: map<(int, int), int> := map[(0, 0) := -0x38, (0, 1) := -0x38, (0, 2) := -0x38]

  function SlotCell(disp: int): Cell { Cell(StackPointer, -0x38 + disp) }

  ghost predicate Setting(r: Resolver) { Hosts(r.port, CODE, [BLOCK], DELTAS) && r.locators == BUILTINS }

  lemma StoreIsDecided(port: IdaPort, ea: int, disp: int, value: int, cell: Cell)
    requires Hosts(port, CODE, [BLOCK], DELTAS) && (ea == 0 || ea == 1)
    ensures Decide(port, Memory(cell), StoreAt(ea, At(0, 4, disp), value), 0) == if SlotCell(disp) == cell then Define(0) else Skip
  {
    hide LayoutContract, DecodesInPlace, FindOperand;
    var instr := StoreAt(ea, At(0, 4, disp), value);
    TwoReads(ea, "mov", At(0, 4, disp), Imm(1, value), false);
    assert OperandCell(port, At(0, 4, disp), ea, 0) == SlotCell(disp);
    assert instr.operands[1..] == [Imm(1, value)] && DecideStores(port, instr, [Imm(1, value)], 0, cell) == Skip;
  }

  lemma StoreIsInterpreted(r: Resolver, ea: int, disp: int, value: int, b: Budget)
    requires Setting(r)
    ensures Interpret(r, StoreAt(ea, At(0, 4, disp), value), 0, b).0 == Concrete(value, IntKind)
  {
    var instr := StoreAt(ea, At(0, 4, disp), value);
    TwoReads(ea, "mov", At(0, 4, disp), Imm(1, value), false);
    hide FindOperand, Hosts, Dispatch;
    assert BUILTINS[6] == MovMemImm && Matches(MovMemImm, instr);
    DispatchFindsTheMatch(BUILTINS, MovMemImm, instr);
  }

  lemma HeadsAreListed(r: Resolver)
    requires Setting(r)
    ensures r.port.PrevHead(2, 0) == Some(1) && r.port.PrevHead(1, 0) == Some(0)
    ensures r.port.decodeAt(0) == Some(FIFTH) && r.port.decodeAt(1) == Some(SIXTH)
    ensures r.port.flowchart(0) == [BLOCK] && r.port.funcStart(2) == Some(0) && r.port.stackPointerReg == Some(4)
    ensures r.port.spDelta(0, 2) == Some(-0x38)
  {
    hide LayoutContract, DecodesInPlace;
    assert r.port.isHead(0) && r.port.isHead(1);
  }

  /** The scan back from the call for either slot. */
  lemma ScanFinds(r: Resolver, disp: int, b: Budget)
    requires Setting(r) && (disp == 0x20 || disp == 0x28) && b.maxSteps - b.steps >= 2
    ensures Scan(r, Memory(SlotCell(disp)), Some(1), 0, 0, b).0 == Some(Concrete(if disp == 0x20 then 5 else 6, IntKind))
  {
    hide Setting, Decide, Interpret, Scan;
    var t := Memory(SlotCell(disp));
    HeadsAreListed(r);
    assert Hosts(r.port, CODE, [BLOCK], DELTAS) by { SettingIsHosted(r); }
    StoreIsDecided(r.port, 1, 0x28, 6, SlotCell(disp));
    StoreIsDecided(r.port, 0, 0x20, 5, SlotCell(disp));
    if disp == 0x28 {
      ScanDefines(r, t, 1, 0, 0, b, SIXTH, 0);
      StoreIsInterpreted(r, 1, 0x28, 6, b.Step().Touch());
    } else {
      ScanSkips(r, t, 1, 0, 0, b, SIXTH);
      ScanDefines(r, t, 0, 0, 0, b.Step().Touch(), FIFTH, 0);
      StoreIsInterpreted(r, 0, 0x20, 5, b.Step().Touch().Step().Touch());
    }
  }

  lemma SettingIsHosted(r: Resolver)
    requires Setting(r)
    ensures Hosts(r.port, CODE, [BLOCK], DELTAS)
  {
    hide Hosts;
  }

  /** The fifth argument is what was stored at [rsp+20h], the sixth what was stored above it. */
  lemma OverflowArgumentsAreAnswered(r: Resolver, register: string -> Option<int>, pushes: seq<int>, b: Budget)
    requires r.port == PortOf(CODE, [BLOCK], DELTAS) && r.locators == BUILTINS && b.maxSteps - b.steps >= 3
    ensures ResolveSlot(r, 2, SlotFor(MS_X64, register, 4), pushes, b) == Concrete(5, IntKind)
    ensures ResolveSlot(r, 2, SlotFor(MS_X64, register, 5), pushes, b) == Concrete(6, IntKind)
  {
    Hosted(CODE, [BLOCK], DELTAS);
    SlotIsAnswered(r, 0x20, b);
    SlotIsAnswered(r, 0x28, b);
    hide PortOf, Hosts, ResolveMemory;
  }

  /** Where nothing is known to have been stored for it and the stack pointer is a constant, an
    argument passed at an offset is answered with the word of static memory there. */
  lemma UnwrittenArgumentIsStatic(r: Resolver, f: FakePort.Fake, callEa: int, offset: int, pushes: seq<int>, b: Budget, address: int)
    requires r.port == FakePort.AsPort(f) && FakePort.FiledInPlace(f) && NeverWritten(r, r.port.stackPointerReg, offset, callEa)
    requires Denotes(r, r.port.stackPointerReg, offset, callEa, AfterTheWalk(r, r.port.stackPointerReg, offset, callEa, b), address)
    requires Granted(b, ResolveMemory(r, r.port.stackPointerReg, offset, callEa, r.port.pointerSize, b).1)
    ensures IsStatic(f.memory, address, r.port.pointerSize, ResolveSlot(r, callEa, AtOffset(offset), pushes, b))
  {
    hide FakePort.AsPort, FakePort.FiledInPlace, NeverWritten, Denotes, IsStatic, ResolveMemory, AfterTheWalk;
    UnwrittenMemoryIsStatic(r, f, r.port.stackPointerReg, offset, callEa, r.port.pointerSize, b, address);
  }

  lemma SlotIsAnswered(r: Resolver, disp: int, b: Budget)
    requires Setting(r) && (disp == 0x20 || disp == 0x28) && b.maxSteps - b.steps >= 3
    ensures ResolveMemory(r, r.port.stackPointerReg, disp, 2, r.port.pointerSize, b).0 ==
      Concrete(if disp == 0x20 then 5 else 6, IntKind)
  {
    hide Setting, Scan, Search;
    HeadsAreListed(r);
    ScanFinds(r, disp, b.Step());
    SearchScans(r, Memory(SlotCell(disp)), 2, 1, b.Step());
    assert MemoryLocation(r.port, Some(4), disp, 2, 0) == SlotCell(disp);
  }
}
