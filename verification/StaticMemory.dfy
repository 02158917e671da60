/** Memory that no path writes: the resolver falls back on the bytes of the image, and answers
  with the address it read and the integer those bytes spell. */
module StaticMemory {
  import opened Values
  import opened InsnModel
  import opened Port
  import opened State
  import opened Addressing
  import opened Merge
  import opened Locators
  import opened Registry
  import opened BackwardSpec
  import opened BackwardBudget
  import opened ReachingDefs
  import opened MemoryImage
  import FakePort

  // -- a walk that finds no write ------------------------------------------------------------------

  /** The entry alone, or nothing but closed cycles. */
  ghost predicate NoWriteAmong(leaves: set<Leaf>) { forall leaf :: leaf in leaves ==> leaf == Entry }

  function WithoutWrite(t: Target, leaves: set<Leaf>): Outcome { if leaves == {} then Cycle else EntryOutcome(t) }

  /** Unless a step is refused, a walk for what no path writes finds what the entry stands for. */
  lemma {:induction false} WalkFindsNoWrite(r: Resolver, f: Flow, boundary: int, block: Block, visited: set<int>, b: Budget)
    requires f.port == r.port && HeadsDecode(r.port) && block in f.blocks
    requires NoWriteAmong(Leaves(f, boundary, block, visited))
    requires Granted(b, Walk(r, f.target, boundary, block, f.func, f.blocks, visited, b).1)
    ensures Walk(r, f.target, boundary, block, f.func, f.blocks, visited, b).0 ==
      WithoutWrite(f.target, Leaves(f, boundary, block, visited))
    decreases b.Left(), 0
  {
    ScanStopsAtLastDef(r, f, boundary, block.startEa, b);
    hide Scan, WalkAll, Combine, HeadsDecode, Predecessors, LeavesOfAll, LastDef, Interpret;
    var (v, b1) := Scan(r, f.target, r.port.PrevHead(boundary, block.startEa), block.startEa, f.func, b);
    var def, preds := LastDef(f, block.startEa, boundary), Predecessors(f.blocks, block);
    if def.Some? {
      assert false;
    } else if preds != [] && block.startEa !in visited {
      var next, b2 := visited + {block.startEa}, b1.StepBlock().Expand();
      WalkAllFindsNoWrite(r, f, preds, next, b2);
      NothingIsCombined(f.target, WalkAll(r, f.target, preds, f.func, f.blocks, next, b2).0);
    }
  }

  lemma {:induction false} WalkAllFindsNoWrite(r: Resolver, f: Flow, preds: seq<Block>, visited: set<int>, b: Budget)
    requires f.port == r.port && HeadsDecode(r.port) && forall p :: p in preds ==> p in f.blocks
    requires NoWriteAmong(LeavesOfAll(f, preds, visited))
    requires Granted(b, WalkAll(r, f.target, preds, f.func, f.blocks, visited, b).1)
    ensures var results := WalkAll(r, f.target, preds, f.func, f.blocks, visited, b).0;
      && (forall o :: o in results ==> o == EntryOutcome(f.target) || o == Cycle)
      && (LeavesOfAll(f, preds, visited) == {} <==> forall o :: o in results ==> o == Cycle)
    decreases b.Left(), 1, |preds|
  {
    hide Walk, HeadsDecode, Leaves;
    if preds != [] {
      var front, last := preds[..|preds| - 1], preds[|preds| - 1];
      var (rest, b1) := WalkAll(r, f.target, front, f.func, f.blocks, visited, b);
      var o := Walk(r, f.target, last.endEa, last, f.func, f.blocks, visited, b1).0;
      WalkAllFindsNoWrite(r, f, front, visited, b);
      WalkFindsNoWrite(r, f, last.endEa, last, visited, b1);
      assert WalkAll(r, f.target, preds, f.func, f.blocks, visited, b).0 == rest + [o];
      assert o in rest + [o] && forall x :: x in rest ==> x in rest + [o];
    }
  }

  lemma {:induction false} NoneIsFound(results: seq<Outcome>)
    requires forall i :: 0 <= i < |results| ==> results[i] == NotFound
    ensures FoundValues(results) == []
  {
    if results != [] {
      NoneIsFound(results[..|results| - 1]);
    }
  }

  lemma AllAreFound(results: seq<Outcome>, v: Value)
    requires forall o :: o in results ==> o == Found(v)
    ensures |FoundValues(results)| == |results| && forall x :: x in FoundValues(results) ==> x == v
  {}

  lemma NothingIsCombined(t: Target, results: seq<Outcome>)
    requires forall o :: o in results ==> o == EntryOutcome(t) || o == Cycle
    ensures Combine(results) == if forall o :: o in results ==> o == Cycle then Cycle else EntryOutcome(t)
  {
    var informative := Informative(results);
    assert forall o :: o in informative ==> o == EntryOutcome(t);
    assert forall i :: 0 <= i < |informative| ==> informative[i] in informative;
    if t.Memory? {
      NoneIsFound(informative);
    } else {
      var none := Unk(NO_DEFINITION_FOUND);
      AllAreFound(informative, none);
      var found := FoundValues(informative);
      assert forall i :: 0 <= i < |found| ==> found[i] in found;
      if found != [] { JoinOfEquals(found, none); }
    }
  }

  /** No path from the use leads back to a definition. */
  ghost predicate Unwritten(f: Flow, before: int) {
    match BlockContaining(f.blocks, before)
    case Some(block) => forall path, ea :: Reaches(f, before, path, Def(ea)) ==> path[0] != block
    case None => LastDef(f, f.func, before).None?
  }

  /** A search for what no path writes finds what the entry stands for, or only cycles. */
  lemma SearchFindsTheEntry(r: Resolver, f: Flow, before: int, b: Budget)
    requires f.port == r.port && HeadsDecode(r.port) && f.blocks == r.port.flowchart(f.func)
    requires Unwritten(f, before) && Granted(b, Search(r, f.target, before, f.func, b).1)
    ensures var o, block := Search(r, f.target, before, f.func, b).0, BlockContaining(f.blocks, before);
      && (o == Cycle || o == EntryOutcome(f.target))
      && (block.None? || Leaves(f, before, block.value, {}) == {Entry} ==> o == EntryOutcome(f.target))
  {
    hide HeadsDecode, Scan, Walk, LastDef;
    match BlockContaining(f.blocks, before) {
      case None => ScanStopsAtLastDef(r, f, before, f.func, b);
      case Some(block) =>
        forall leaf | leaf in Leaves(f, before, block, {}) ensures leaf == Entry {
          var path := LeafHasPath(f, before, block, {}, leaf);
        }
        WalkFindsNoWrite(r, f, before, block, {}, b);
    }
  }

  /** For a cell that is nothing, whatever the graph. */
  lemma SearchFindsNoWrite(r: Resolver, f: Flow, before: int, b: Budget)
    requires f.port == r.port && HeadsDecode(r.port) && f.blocks == r.port.flowchart(f.func) && f.target.Memory?
    requires Unwritten(f, before) && Granted(b, Search(r, f.target, before, f.func, b).1)
    ensures !Search(r, f.target, before, f.func, b).0.Found?
    ensures var block := BlockContaining(f.blocks, before);
      block.None? || Leaves(f, before, block.value, {}) == {Entry} ==> Search(r, f.target, before, f.func, b).0 == NotFound
  {
    hide HeadsDecode, Search, Unwritten, Leaves;
    SearchFindsTheEntry(r, f, before, b);
  }

  /** A register that no path to the use defines has no definition, whatever the graph: this is
    what a query that starts in no function is answered as well. */
  lemma UndefinedRegisterIsNotFound(r: Resolver, reg: int, before: int, b: Budget)
    requires HeadsDecode(r.port) && Granted(b, ResolveRegister(r, reg, before, b).1)
    requires var func := r.port.funcStart(before);
      func.Some? ==> Unwritten(Flow(r.port, Register(reg), func.value, r.port.flowchart(func.value)), before)
    ensures ResolveRegister(r, reg, before, b).0 == Unk(NO_DEFINITION_FOUND)
  {
    hide HeadsDecode, Search, Unwritten;
    var func := r.port.funcStart(before);
    if func.Some? {
      SearchFindsTheEntry(r, Flow(r.port, Register(reg), func.value, r.port.flowchart(func.value)), before, b.Step());
    }
  }

  // -- the read -------------------------------------------------------------------------------------

  /** The address a reference denotes: the displacement, or that much past the constant in its
    base register. */
  ghost predicate Denotes(r: Resolver, base: Option<int>, disp: int, before: int, b: Budget, address: int) {
    if base.None? then address == disp
    else
      var v := ResolveRegister(r, base.value, before, b).0;
      v.Concrete? && address == v.value + disp
  }

  /** What is read at the address: the integer its bytes spell, or that they are not there. */
  ghost predicate IsStatic(image: Image, address: int, size: int, v: Value) {
    && v.MemoryRef? && v.addr == address
    && if AllThere(image, address, size) then v.inner.Concrete? && v.inner.kind == IntKind && Spells(image, address, size, v.inner.value)
       else v.inner == Unk(MEMORY_READ_FAILED)
  }

  lemma FallbackReadsTheBytes(r: Resolver, f: FakePort.Fake, base: Option<int>, disp: int, before: int, size: int, b: Budget, address: int)
    requires r.port == FakePort.AsPort(f) && Denotes(r, base, disp, before, b, address)
    requires Granted(b, FallbackDereference(r, base, disp, before, size, b).1)
    ensures IsStatic(f.memory, address, size, FallbackDereference(r, base, disp, before, size, b).0)
  {
    hide ResolveRegister, Spells, ReadInt, AllThere;
    ReadIntSpells(f.memory, address, size);
    assert r.port.readInt(address, size) == ReadInt(f.memory, address, size);
  }

  /** The cell that the query is about, in the flow of its function. */
  function FlowFor(r: Resolver, func: int, base: Option<int>, disp: int, before: int): Flow {
    Flow(r.port, Memory(MemoryLocation(r.port, base, disp, before, func)), func, r.port.flowchart(func))
  }

  /** Nothing is known to write the reference: outside any function, or on no path to it. */
  ghost predicate NeverWritten(r: Resolver, base: Option<int>, disp: int, before: int) {
    var func := r.port.funcStart(before);
    func.Some? ==> Unwritten(FlowFor(r, func.value, base, disp, before), before)
  }

  /** The budget with which the walk for a write, if there is one, leaves off. */
  function AfterTheWalk(r: Resolver, base: Option<int>, disp: int, before: int, b: Budget): (b': Budget)
    ensures Advances(b, b')
  {
    match r.port.funcStart(before)
    case None => b.Step()
    case Some(func) => Search(r, Memory(MemoryLocation(r.port, base, disp, before, func)), before, func, b.Step()).1
  }

  lemma UnwrittenMemoryFallsBack(r: Resolver, base: Option<int>, disp: int, before: int, size: int, b: Budget)
    requires HeadsDecode(r.port) && NeverWritten(r, base, disp, before)
    requires Granted(b, ResolveMemory(r, base, disp, before, size, b).1)
    ensures ResolveMemory(r, base, disp, before, size, b) ==
      FallbackDereference(r, base, disp, before, size, AfterTheWalk(r, base, disp, before, b))
  {
    hide HeadsDecode, Search, FallbackDereference, MemoryLocation, Unwritten;
    var func := r.port.funcStart(before);
    if func.Some? { SearchFindsNoWrite(r, FlowFor(r, func.value, base, disp, before), before, b.Step()); }
  }

  /** A reference that no path writes is answered with its address and the integer that the
    image's bytes spell there, least significant first, or with the failed read if one of
    the bytes is missing. */
  lemma UnwrittenMemoryIsStatic(r: Resolver, f: FakePort.Fake, base: Option<int>, disp: int, before: int, size: int, b: Budget,
                                address: int)
    requires r.port == FakePort.AsPort(f) && FakePort.FiledInPlace(f) && NeverWritten(r, base, disp, before)
    requires Denotes(r, base, disp, before, AfterTheWalk(r, base, disp, before, b), address)
    requires Granted(b, ResolveMemory(r, base, disp, before, size, b).1)
    ensures IsStatic(f.memory, address, size, ResolveMemory(r, base, disp, before, size, b).0)
  {
    assert HeadsDecode(r.port);
    hide FakePort.AsPort, HeadsDecode, NeverWritten, Denotes, IsStatic, ResolveMemory, FallbackDereference, AfterTheWalk;
    UnwrittenMemoryFallsBack(r, base, disp, before, size, b);
    var b1 := AfterTheWalk(r, base, disp, before, b);
    assert Granted(b1, FallbackDereference(r, base, disp, before, size, b1).1);
    FallbackReadsTheBytes(r, f, base, disp, before, size, b1, address);
  }

  /** Nothing is read through a base register that holds no constant. */
  lemma UnknownBasesAreNotRead(r: Resolver, base: int, disp: int, before: int, size: int, b: Budget)
    requires HeadsDecode(r.port) && NeverWritten(r, Some(base), disp, before)
    requires !ResolveRegister(r, base, before, AfterTheWalk(r, Some(base), disp, before, b)).0.Concrete?
    requires Granted(b, ResolveMemory(r, Some(base), disp, before, size, b).1)
    ensures ResolveMemory(r, Some(base), disp, before, size, b).0 == Unk(NO_DEFINITION_FOUND)
  {
    hide HeadsDecode, NeverWritten, ResolveRegister, ResolveMemory, AfterTheWalk;
    UnwrittenMemoryFallsBack(r, Some(base), disp, before, size, b);
  }

  // -- a load ----------------------------------------------------------------------------------------

  /** The address register, displacement and width that a load's own operand gives. */
  predicate LoadsFrom(port: IdaPort, op: Operand, base: Option<int>, disp: int, size: int) {
    && !op.HasIndex() && !op.HasSegment()
    && ((op.kind == MEM_DIRECT && base == None && disp == op.addr) || (op.IsBased() && op.reg.Some? && base == op.reg && disp == op.disp))
    && size == if op.dtypeSize == 0 then port.pointerSize else op.dtypeSize
  }

  lemma LoadIsExtracted(r: Resolver, instr: Instruction, base: Option<int>, disp: int, size: int)
    requires MovRegMem in r.locators && instr.IsMove() && instr.OperandAt(0).Some? && instr.OperandAt(1).Some?
    requires Dst(instr).kind == REG && Src(instr).IsMemory() && LoadsFrom(r.port, Src(instr), base, disp, size)
    ensures Matches(MovRegMem, instr) && Dispatch(r.locators, instr) == Some(MovRegMem)
    ensures Extract(MovRegMem, instr, 0, r.port.pointerSize) == FromMemory(base, disp, size)
  {
    DispatchFindsTheMatch(r.locators, MovRegMem, instr);
    hide Dispatch;
  }

  /** A `mov`, `movzx`, `movsx` or `movsxd` from memory that no path writes is answered with the
    bytes at its operand's own address, as many as its operand is wide, or as the port's
    pointers are where it was not sized. */
  lemma LoadsReadTheirOperand(r: Resolver, f: FakePort.Fake, instr: Instruction, base: Option<int>, disp: int, size: int, b: Budget,
                              address: int)
    requires r.port == FakePort.AsPort(f) && FakePort.FiledInPlace(f) && MovRegMem in r.locators
    requires instr.IsMove() && instr.OperandAt(0).Some? && instr.OperandAt(1).Some? && Dst(instr).kind == REG && Src(instr).IsMemory()
    requires LoadsFrom(r.port, Src(instr), base, disp, size) && NeverWritten(r, base, disp, instr.ea)
    requires Denotes(r, base, disp, instr.ea, AfterTheWalk(r, base, disp, instr.ea, b), address)
    requires Granted(b, Interpret(r, instr, 0, b).1)
    ensures IsStatic(f.memory, address, size, Interpret(r, instr, 0, b).0)
  {
    LoadIsExtracted(r, instr, base, disp, size);
    hide LoadsFrom, FakePort.AsPort, FakePort.FiledInPlace, NeverWritten, Denotes, IsStatic, ResolveMemory, AfterTheWalk,
         Matches, Dispatch, Extract, FindOperand;
    UnwrittenMemoryIsStatic(r, f, base, disp, instr.ea, size, b, address);
  }
}
