/** A store, an instruction that both engines pass by, and a load of what was stored: the
  constant stored is answered, whatever the instruction in between did to the cell. */
module Unseen {
  import opened Values
  import opened InsnModel
  import opened Port
  import opened State
  import opened Addressing
  import opened Locators
  import opened Registry
  import opened Arithmetic
  import opened StackEffects
  import opened Machine
  import opened Progress
  import opened ForwardSpec
  import opened ForwardStep
  import opened BackwardSpec
  import opened ReachingDefs
  import opened BackwardSoundness
  import opened Agreement
  import opened StackSlots
  import opened Widening
  import opened Skips
  import opened Programs

  const BLOCK := Block(0, 4, [], [])

  /** 0: mov dst, value;  1: the instruction between;  2: a move of `src` into `target`. */
  datatype Case = Case(dst: Operand, value: int, between: Instruction, mnem: string, target: Operand, src: Operand,
                       deltas: map<(int, int), int>)
  {
    function Store(): Instruction { StoreAt(0, dst, value) }

    function Load(): Instruction { Two(2, mnem, target, src, false) }

    function Code(): Program { map[0 := Store(), 1 := between, 2 := Load()] }

    function Port(): IdaPort { PortOf(Code(), [BLOCK], deltas) }
  }

  predicate NamesPlainly(op: Operand) {
    (op.kind == MEM_DIRECT || op.kind == MEM_DISPL) && Addressed(op) && !op.HasIndex() && !op.HasSegment()
  }

  predicate NamesRegister(op: Operand, reg: int) {
    op.kind == REG && op.number == 0 && op.reg == Some(reg) && 0 <= reg < 6 && (op.dtypeSize == 8 || op.dtypeSize == 4)
  }

  /** The store and the load name one cell, and the walk for it passes by what is between. */
  ghost predicate Fair(port: IdaPort, c: Case, cell: Cell, reg: int) {
    && Hosts(port, c.Code(), [BLOCK], c.deltas)
    && NamesPlainly(c.dst) && c.dst.number == 0 && NamesPlainly(c.src) && c.src.number == 1 && NamesRegister(c.target, reg)
    && FitsWord(c.value, 64) && c.Load().IsMove()
    && OperandCell(port, c.dst, 0, 0) == cell && OperandCell(port, c.src, 2, 0) == cell
    && Decide(port, Memory(cell), c.between, 0) == Skip
  }

  // -- the backward walk ---------------------------------------------------------------------------

  lemma HeadsAreFound(port: IdaPort, c: Case)
    requires Hosts(port, c.Code(), [BLOCK], c.deltas)
    ensures port.PrevHead(3, 0) == Some(2) && port.PrevHead(2, 0) == Some(1) && port.PrevHead(1, 0) == Some(0)
  {
    hide LayoutContract, DecodesInPlace, HasWords;
    assert port.isHead(0) && port.isHead(1) && port.isHead(2);
  }

  lemma BlockIsFound()
    ensures forall ea :: 0 <= ea < 4 ==> BlockContaining([BLOCK], ea) == Some(BLOCK)
    ensures Predecessors([BLOCK], BLOCK) == []
  {}

  lemma StoreDefinesTheCell(port: IdaPort, c: Case, cell: Cell, reg: int)
    requires Fair(port, c, cell, reg)
    ensures Decide(port, Memory(cell), c.Store(), 0) == Define(0) && Matches(MovMemImm, c.Store())
    ensures Dispatch(BUILTINS, c.Store()) == Some(MovMemImm)
    ensures Extract(MovMemImm, c.Store(), 0, 8) == Done(Concrete(c.value, IntKind))
  {
    hide LayoutContract, DecodesInPlace, HasWords;
    TwoReads(0, "mov", c.dst, Imm(1, c.value), false);
    assert BUILTINS[6] == MovMemImm;
    hide FindOperand, OperandCell, Dispatch;
    DispatchFindsTheMatch(BUILTINS, MovMemImm, c.Store());
  }

  lemma LoadDefinesTheRegister(port: IdaPort, c: Case, cell: Cell, reg: int)
    requires Fair(port, c, cell, reg)
    ensures Decide(port, Register(reg), c.Load(), 0) == Define(0) && Matches(MovRegMem, c.Load())
    ensures Dispatch(BUILTINS, c.Load()) == Some(MovRegMem)
    ensures var plan := Extract(MovRegMem, c.Load(), 0, 8);
      plan.FromMemory? && MemoryLocation(port, plan.base, plan.offset, 2, 0) == cell
  {
    hide LayoutContract, DecodesInPlace, HasWords;
    TwoReads(2, c.mnem, c.target, c.src, false);
    assert BUILTINS[7] == MovRegMem;
    LoadIsNoCall(c);
    RegisterIsDefined(port, c, reg);
    hide FindOperand, Dispatch, DecideOperands;
    DispatchFindsTheMatch(BUILTINS, MovRegMem, c.Load());
  }

  lemma LoadIsNoCall(c: Case)
    ensures !c.Store().IsCall() && (c.Load().IsMove() ==> !c.Load().IsCall())
  {
    MnemonicsDiffer("mov");
    MnemonicsDiffer(c.mnem);
    assert c.Load().IsMove() ==> c.mnem[0] == 'm';
  }

  lemma RegisterIsDefined(port: IdaPort, c: Case, reg: int)
    requires HasWords(port) && NamesRegister(c.target, reg) && c.src.number == 1
    ensures DecideOperands(port, c.Load(), c.Load().operands, reg) == Define(0)
  {
    TwoReads(2, c.mnem, c.target, c.src, false);
  }

  lemma ScanDefines(r: Resolver, t: Target, ea: int, minEa: int, func: int, b: Budget, instr: Instruction, operand: int)
    requires r.port.decodeAt(ea) == Some(instr) && Decide(r.port, t, instr, func) == Define(operand) && b.Step().StepsLast()
    ensures Scan(r, t, Some(ea), minEa, func, b).0 == Some(Interpret(r, instr, operand, b.Step().Touch()).0)
  {
    hide Interpret, Decide;
  }

  lemma ScanSkips(r: Resolver, t: Target, ea: int, minEa: int, func: int, b: Budget, instr: Instruction)
    requires r.port.decodeAt(ea) == Some(instr) && Decide(r.port, t, instr, func) == Skip && b.Step().StepsLast()
    ensures Scan(r, t, Some(ea), minEa, func, b) == Scan(r, t, r.port.PrevHead(ea, minEa), minEa, func, b.Step().Touch())
  {
    hide Interpret, Decide;
  }

  lemma CaseIsDecoded(port: IdaPort, c: Case)
    requires Hosts(port, c.Code(), [BLOCK], c.deltas)
    ensures port.decodeAt(0) == Some(c.Store()) && port.decodeAt(1) == Some(c.between) && port.decodeAt(2) == Some(c.Load())
    ensures port.pointerSize == 8 && port.flowchart(0) == [BLOCK] && forall ea :: 0 <= ea < 4 ==> port.funcStart(ea) == Some(0)
  {}

  lemma ScanFindsTheStore(r: Resolver, c: Case, cell: Cell, reg: int, b: Budget)
    requires Fair(r.port, c, cell, reg) && r.locators == BUILTINS && b.maxSteps - b.steps >= 2
    ensures Scan(r, Memory(cell), Some(1), 0, 0, b).0 == Some(Concrete(c.value, IntKind))
  {
    CaseIsDecoded(r.port, c);
    HeadsAreFound(r.port, c);
    StoreDefinesTheCell(r.port, c, cell, reg);
    hide Fair, Decide, Dispatch, Extract, Matches, Scan;
    assert Decide(r.port, Memory(cell), c.between, 0) == Skip by { SkipsBetween(r.port, c, cell, reg); }
    ScanSkips(r, Memory(cell), 1, 0, 0, b, c.between);
    ScanDefines(r, Memory(cell), 0, 0, 0, b.Step().Touch(), c.Store(), 0);
  }

  lemma SkipsBetween(port: IdaPort, c: Case, cell: Cell, reg: int)
    requires Fair(port, c, cell, reg)
    ensures Decide(port, Memory(cell), c.between, 0) == Skip && Hosts(port, c.Code(), [BLOCK], c.deltas)
  {
    hide Hosts, Decide;
  }

  /** Nothing leads to the block, so a search in it is a scan. */
  lemma SearchScans(r: Resolver, t: Target, before: int, head: int, b: Budget)
    requires r.port.flowchart(0) == [BLOCK] && 0 <= before < 4 && r.port.PrevHead(before, 0) == Some(head)
    requires Scan(r, t, Some(head), 0, 0, b).0.Some?
    ensures Search(r, t, before, 0, b).0 == Found(Scan(r, t, Some(head), 0, 0, b).0.value)
  {
    BlockIsFound();
    hide Scan, Predecessors, BlockContaining;
    assert Walk(r, t, before, BLOCK, 0, [BLOCK], {}, b).0 == Found(Scan(r, t, Some(head), 0, 0, b).0.value);
  }

  lemma ResolvesBySearch(r: Resolver, reg: int, before: int, b: Budget)
    requires r.port.funcStart(before) == Some(0) && b.Step().StepsLast() && Search(r, Register(reg), before, 0, b.Step()).0.Found?
    ensures ResolveRegister(r, reg, before, b).0 == Search(r, Register(reg), before, 0, b.Step()).0.value
  {
    hide Search;
  }

  lemma CellIsResolved(r: Resolver, c: Case, cell: Cell, reg: int, base: Option<int>, disp: int, size: int, b: Budget)
    requires Fair(r.port, c, cell, reg) && r.locators == BUILTINS && b.maxSteps - b.steps >= 3
    requires MemoryLocation(r.port, base, disp, 2, 0) == cell
    ensures ResolveMemory(r, base, disp, 2, size, b).0 == Concrete(c.value, IntKind)
  {
    CaseIsDecoded(r.port, c);
    HeadsAreFound(r.port, c);
    ScanFindsTheStore(r, c, cell, reg, b.Step());
    hide Fair, Scan, Search, MemoryLocation;
    SearchScans(r, Memory(cell), 2, 1, b.Step());
  }

  lemma InterpretsFromMemory(r: Resolver, loc: Locator, instr: Instruction, operand: int, b: Budget)
    requires Dispatch(r.locators, instr) == Some(loc) && Extract(loc, instr, operand, r.port.pointerSize).FromMemory?
    ensures var plan := Extract(loc, instr, operand, r.port.pointerSize);
      Interpret(r, instr, operand, b) == ResolveMemory(r, plan.base, plan.offset, instr.ea, plan.size, b)
  {
    hide Dispatch, Extract, ResolveMemory;
  }

  lemma LoadInterprets(r: Resolver, c: Case, cell: Cell, reg: int, b: Budget)
    requires Fair(r.port, c, cell, reg) && r.locators == BUILTINS && b.maxSteps - b.steps >= 3
    ensures Interpret(r, c.Load(), 0, b).0 == Concrete(c.value, IntKind)
  {
    hide Fair, Decide, Dispatch, Extract, Matches, ResolveMemory, MemoryLocation, Interpret;
    CaseIsDecoded(r.port, c) by { SkipsBetween(r.port, c, cell, reg); }
    LoadDefinesTheRegister(r.port, c, cell, reg);
    var plan := Extract(MovRegMem, c.Load(), 0, 8);
    InterpretsFromMemory(r, MovRegMem, c.Load(), 0, b);
    CellIsResolved(r, c, cell, reg, plan.base, plan.offset, plan.size, b);
  }

  /** Backward, the load is answered with what was stored. */
  lemma StoreIsAnswered(r: Resolver, c: Case, cell: Cell, reg: int, b: Budget)
    requires Fair(r.port, c, cell, reg) && r.locators == BUILTINS && b.maxSteps - b.steps >= 5
    ensures ResolveRegister(r, reg, 3, b).0 == Concrete(c.value, IntKind)
  {
    CaseIsDecoded(r.port, c);
    HeadsAreFound(r.port, c);
    LoadDefinesTheRegister(r.port, c, cell, reg);
    LoadInterprets(r, c, cell, reg, b.Step().Step().Touch());
    hide Fair, Decide, Scan, Search, Interpret, Extract, Matches, Dispatch;
    ScanDefines(r, Register(reg), 2, 0, 0, b.Step(), c.Load(), 0);
    SearchScans(r, Register(reg), 3, 2, b.Step());
  }

  // -- runs -----------------------------------------------------------------------------------------

  lemma StoreRuns(port: IdaPort, c: Case, cell: Cell, reg: int, m: MState) returns (m': MState)
    requires Fair(port, c, cell, reg) && InRange(port, m)
    ensures Executes(port, 0, c.Store(), m, m') && InRange(port, m')
    ensures m'.Mem(cell) == c.value && forall r :: m'.Reg(r) == m.Reg(r)
  {
    StoreFits(port, 0, c.dst, c.value);
    TwoIsWellDecoded(port, 0, "mov", c.dst, Imm(1, c.value), false);
    TwoReads(0, "mov", c.dst, Imm(1, c.value), false);
    hide Supported, LayoutContract, DecodesInPlace, HasWords, Pow2, Executes, InRange, FindOperand, WellDecoded, Matches,
         OperandCell;
    m' := CanExecute(port, 0, c.Store(), m);
    MovLeavesTheWord(port, 0, c.Store(), m, m');
    StoresKeepRegisters(port, c, m, m');
  }

  lemma StoresKeepRegisters(port: IdaPort, c: Case, m: MState, m': MState)
    requires Executes(port, 0, c.Store(), m, m') && c.dst.IsMemory()
    ensures InRange(port, m') && forall r :: m'.Reg(r) == m.Reg(r)
  {
    LoadIsNoCall(c);
    assert ImplicitNames(c.Store()) == {};
    hide Computes, ComputesPush, InRange, FindOperand, GrowsOver, Rebases, WritesCell;
    forall r ensures m'.Reg(r) == m.Reg(r) {
      assert ValueOf(Register(r), m') == ValueOf(Register(r), m);
    }
  }

  /** A plain `mov` of the word to a whole register. */
  predicate LoadsTheWord(c: Case, reg: int) { c.mnem == "mov" && c.target == Reg(0, reg) }

  lemma LoadRuns(port: IdaPort, c: Case, cell: Cell, reg: int, m: MState) returns (m': MState)
    requires Fair(port, c, cell, reg) && LoadsTheWord(c, reg) && InRange(port, m)
    ensures Executes(port, 0, c.Load(), m, m') && m'.Reg(reg) == m.Mem(cell)
  {
    LoadFits(port, 2, reg, c.src);
    WordOperand(port, 0, reg);
    TwoReads(2, "mov", Reg(0, reg), c.src, false);
    TwoIsWellDecoded(port, 2, "mov", Reg(0, reg), c.src, false);
    hide Supported, LayoutContract, DecodesInPlace, HasWords, Pow2, Executes, InRange, FindOperand, WellDecoded, OpView, Matches;
    m' := CanExecute(port, 0, c.Load(), m);
    LoadWord(port, 0, c.Load(), m, m');
  }

  lemma CaseRuns(port: IdaPort, c: Case, m0: MState, m1: MState, m2: MState, m3: MState) returns (run: seq<Hop>)
    requires Hosts(port, c.Code(), [BLOCK], c.deltas) && InRange(port, m0) && m0.rets == {}
    requires Executes(port, 0, c.Store(), m0, m1) && Executes(port, 0, c.between, m1, m2) && Executes(port, 0, c.Load(), m2, m3)
    ensures RunsTo(port, 0, 0, run, 3) && |run| == 1 && |run[0].trace| > 0 && LastState(run) == m3
  {
    hide LayoutContract, DecodesInPlace, HasWords, Executes, InRange;
    run := [Hop(BLOCK, [m0, m1, m2, m3])];
    assert Code(port, 0, 1) == [c.Store()];
    assert Code(port, 0, 2) == [c.Store(), c.between];
    assert Code(port, 0, 3) == [c.Store(), c.between, c.Load()];
  }

  /** The one block is a function of its own, and nothing else is amiss with the port. */
  lemma BlockIsOneFunction(port: IdaPort, code: Program, deltas: map<(int, int), int>)
    requires Hosts(port, code, [BLOCK], deltas)
    ensures BackwardHypotheses(port, 0)
  {
    BlockIsFound();
    hide LayoutContract, DecodesInPlace, HasWords;
    assert Successors([BLOCK], BLOCK) == [];
  }

  // -- the query is clear unless the instruction disturbs the cell ------------------------------------

  lemma DefinitionsAreFound(r: Resolver, c: Case, cell: Cell, reg: int)
    requires Fair(r.port, c, cell, reg)
    ensures LastDef(FlowOf(r, 0, Register(reg)), 0, 3) == Some(2) && LastDef(FlowOf(r, 0, Memory(cell)), 0, 2) == Some(0)
  {
    CaseIsDecoded(r.port, c);
    StoreDefinesTheCell(r.port, c, cell, reg);
    LoadDefinesTheRegister(r.port, c, cell, reg);
    SkipsBetween(r.port, c, cell, reg);
    hide Hosts, Fair, Decide, Matches, Dispatch, Extract;
    var f := FlowOf(r, 0, Memory(cell));
    assert !IsDef(f, 1) && IsDef(f, 0) && LastDef(f, 0, 1) == Some(0);
  }

  lemma WordsAreMoved(port: IdaPort, c: Case, cell: Cell, reg: int)
    requires Fair(port, c, cell, reg) && LoadsTheWord(c, reg)
    ensures Supported(port, c.Store()) && MemorySupported(port, c.Store())
    ensures Supported(port, c.Load()) && MemorySupported(port, c.Load())
  {
    StoreFits(port, 0, c.dst, c.value);
    LoadFits(port, 2, reg, c.src);
    WordOperand(port, 0, reg);
    TwoReads(2, "mov", Reg(0, reg), c.src, false);
    TwoReads(0, "mov", c.dst, Imm(1, c.value), false);
    hide Supported, LayoutContract, DecodesInPlace, HasWords, Pow2, FindOperand, Flag, OpView, Matches, OperandCell, Decide;
    forall loc | Matches(loc, c.Store()) ensures loc == MovMemImm { BuiltinsAreDisjoint(loc, MovMemImm, c.Store()); }
    forall loc | Matches(loc, c.Load()) ensures loc == MovRegMem { BuiltinsAreDisjoint(loc, MovRegMem, c.Load()); }
  }

  /** The only path from a use in the block is the block. */
  lemma PathsStay(r: Resolver, t: Target, before: int, ea: int, path: seq<Block>, leaf: Leaf)
    requires r.port.flowchart(0) == [BLOCK] && LastDef(FlowOf(r, 0, t), 0, before) == Some(ea) && |path| > 0 && path[0] == BLOCK
    ensures Reaches(FlowOf(r, 0, t), before, path, leaf) ==> path == [BLOCK] && leaf == Def(ea)
    ensures !Bare(FlowOf(r, 0, t), 0, before, path)
  {}

  lemma OneDefinitionIsAnswerable(r: Resolver, t: Target, before: int, ea: int, queries: Queries)
    requires r.port.flowchart(0) == [BLOCK] && 0 <= before < 4 && Askable(r.port, t)
    requires LastDef(FlowOf(r, 0, t), 0, before) == Some(ea) && Quiet(FlowOf(r, 0, t), ea + 1, before)
    requires r.port.decodeAt(ea).Some? && DefinitionFits(r, 0, t, ea, queries)
    ensures Answerable(r, 0, 0, t, before, queries)
  {
    BlockIsFound();
    hide LastDef, BlockContaining, Quiet, DefinitionFits, Askable;
    var f := FlowOf(r, 0, t);
    forall path, leaf | Reaches(f, before, path, Def(leaf)) && path[0] == BLOCK
      ensures path == [BLOCK] && leaf == ea
    {
      PathsStay(r, t, before, ea, path, Def(leaf));
    }
    forall path | Bare(f, 0, before, path) && path[0] == BLOCK ensures false {
      PathsStay(r, t, before, ea, path, Entry);
    }
    assert PathIsQuiet(f, before, [BLOCK], Def(ea));
  }

  lemma DefinitionsFit(r: Resolver, c: Case, cell: Cell, reg: int, queries: Queries)
    requires Fair(r.port, c, cell, reg) && r.locators == BUILTINS && LoadsTheWord(c, reg) && (Memory(cell), 2) in queries
    ensures r.port.decodeAt(0).Some? && r.port.decodeAt(2).Some?
    ensures DefinitionFits(r, 0, Register(reg), 2, queries) && DefinitionFits(r, 0, Memory(cell), 0, queries)
  {
    hide Hosts, Fair, Decide, Matches, Dispatch, Extract, Supported, MemorySupported, MemoryLocation;
    CaseIsDecoded(r.port, c) by { SkipsBetween(r.port, c, cell, reg); }
    WordsAreMoved(r.port, c, cell, reg);
    StoreDefinesTheCell(r.port, c, cell, reg);
    LoadDefinesTheRegister(r.port, c, cell, reg);
  }

  lemma CaseIsAnswerable(r: Resolver, c: Case, cell: Cell, reg: int, queries: Queries)
    requires Fair(r.port, c, cell, reg) && r.locators == BUILTINS && LoadsTheWord(c, reg) && (Memory(cell), 2) in queries
    requires !Disturbs(r.port, 0, c.between, Memory(cell))
    ensures Answerable(r, 0, 0, Register(reg), 3, queries) && Answerable(r, 0, 0, Memory(cell), 2, queries)
  {
    hide Fair, Decide, LastDef, Disturbs, DefinitionFits, Answerable;
    WholeRegister(r.port, c, cell, reg);
    DefinitionsAreFound(r, c, cell, reg);
    DefinitionsFit(r, c, cell, reg, queries);
    CaseIsDecoded(r.port, c) by { SkipsBetween(r.port, c, cell, reg); }
    OneDefinitionIsAnswerable(r, Register(reg), 3, 2, queries);
    OneDefinitionIsAnswerable(r, Memory(cell), 2, 0, queries);
  }

  /** The query is clear as long as the instruction between does not disturb the cell. */
  lemma CaseIsClear(r: Resolver, c: Case, cell: Cell, reg: int)
    requires Fair(r.port, c, cell, reg) && r.locators == BUILTINS && LoadsTheWord(c, reg)
    requires !Disturbs(r.port, 0, c.between, Memory(cell))
    ensures Clear(r, 0, 0, Register(reg), 3)
  {
    hide Fair, LoadsTheWord, Disturbs, Answerable;
    var queries: Queries := iset{(Register(reg), 3), (Memory(cell), 2)};
    CaseIsAnswerable(r, c, cell, reg, queries);
    assert Closed(r, 0, 0, queries);
  }

  lemma WholeRegister(port: IdaPort, c: Case, cell: Cell, reg: int)
    requires Fair(port, c, cell, reg)
    ensures Whole(port, reg)
  {
    WordOperand(port, 0, reg);
  }

  // -- the forward engine --------------------------------------------------------------------------

  ghost predicate Ample(e: Engine, port: IdaPort) {
    e.port == port && e.locators == BUILTINS && e.maxInstructions >= 4 && e.maxBlockVisits >= 1
  }

  lemma EntryIsVisitedOnce(e: Engine, q: Query)
    requires DecodesInPlace(e.port) && e.maxInstructions >= 4 && e.maxBlockVisits >= 1
    requires q.blocks == [BLOCK] && q.entryStart == 0
    ensures var w := Fixpoint(e, q); !w.exceeded && 0 in w.ins && w.ins[0] == q.initial
  {
    var w := Begin(q);
    assert Starts([BLOCK]) == [0] && Successors([BLOCK], BLOCK) == [] && Starts([]) == [];
    assert BlockAt([BLOCK], 0) == Some(BLOCK);
    SimulationUsesAtMost(e, 0, 4, None, q.func, q.initial, 0);
    hide Simulate, Successors, BlockAt, Starts, DecodesInPlace;
    assert ComputedIn(e, q, w, BLOCK, 1) == Some(q.initial);
    var next := Turn(e, q, w);
    assert next.ins == map[0 := q.initial] && next.worklist == [] && !next.exceeded;
    IterateTurns(e, q, w);
    IterateTurns(e, q, next);
  }

  /** The forward answer is what one pass over the code leaves. */
  lemma BlockPasses(e: Engine, code: Program, deltas: map<(int, int), int>, argIndex: int, reg: int, at: int)
    requires Hosts(e.port, code, [BLOCK], deltas) && Ample(e, e.port) && 0 <= at < 4
    ensures ForwardSpec.ResolveAt(e, 0, argIndex, at, Some(reg)) ==
      Forward(e, 0, Code(e.port, 0, at), EMPTY.With(Some(reg), Symbolic(Arg(argIndex)))).Register(reg)
  {
    hide LayoutContract, HasWords, Fixpoint, Forward, Step, Code, BlockContaining, Simulate;
    var q := QueryFor(e, 0, argIndex, reg, BLOCK);
    BlockIsFound();
    EntryIsVisitedOnce(e, q);
    SimulationUsesAtMost(e, 0, 4, Some(at), 0, q.initial, 0);
    SimulationIsForward(e, 0, 0, 4, at, q.initial, 0);
  }

  lemma ForwardPasses(e: Engine, c: Case, argIndex: int, reg: int)
    requires Ample(e, c.Port()) && Hosts(e.port, c.Code(), [BLOCK], c.deltas)
    ensures ForwardSpec.ResolveAt(e, 0, argIndex, 3, Some(reg)) ==
      Forward(e, 0, [c.Store(), c.between, c.Load()], EMPTY.With(Some(reg), Symbolic(Arg(argIndex)))).Register(reg)
  {
    hide Hosts, Forward, PortOf, ForwardSpec.ResolveAt;
    CaseIsDecoded(e.port, c);
    BlockPasses(e, c.Code(), c.deltas, argIndex, reg, 3);
    assert Code(e.port, 0, 1) == [c.Store()];
    assert Code(e.port, 0, 2) == [c.Store(), c.between];
    assert Code(e.port, 0, 3) == [c.Store(), c.between, c.Load()];
  }

  /** Both operands are slots that the forward engine tracks. */
  ghost predicate Tracked(e: Engine, c: Case, cell: Cell) {
    StackKey(e.port, c.dst, 0, 0) == Some(cell) && StackKey(e.port, c.src, 2, 0) == Some(cell) && !MayStoreTo(e, 0, c.between, cell)
  }

  lemma CaseShape(port: IdaPort, c: Case, cell: Cell, reg: int)
    requires Fair(port, c, cell, reg)
    ensures Pair(c.dst, Imm(1, c.value)) && c.dst.IsMemory() && Pair(c.target, c.src) && c.src.IsMemory()
    ensures c.target.kind == REG && c.target.reg == Some(reg)
  {
    hide Hosts, OperandCell, Decide;
  }

  lemma CaseStores(e: Engine, c: Case, cell: Cell, reg: int)
    requires Ample(e, c.Port()) && Fair(e.port, c, cell, reg) && Tracked(e, c, cell)
    ensures Stores(e, 0, c.Store(), cell, Imm(1, c.value))
  {
    hide Fair, Matches, Dispatch, StackKey, Flag, PortOf, Decide, MayStoreTo, MemoryOperand, OtherOperand, Extract, StartsWith;
    CaseShape(e.port, c, cell, reg);
    StoreDefinesTheCell(e.port, c, cell, reg);
    LoadIsNoCall(c);
    TwoOperands(0, "mov", c.dst, Imm(1, c.value), false);
  }

  lemma LoadIsWhole(port: IdaPort, c: Case, cell: Cell, reg: int)
    requires Fair(port, c, cell, reg)
    ensures !PartiallyWrites(port, c.Load(), c.Load().operands, reg)
  {
    TwoReads(2, c.mnem, c.target, c.src, false);
    hide LayoutContract, DecodesInPlace, Flag, FindOperand, OperandCell, Decide;
    forall op | op in c.Load().operands ensures !PartialWrite(port, c.Load(), op) {}
  }

  lemma CaseLoads(e: Engine, c: Case, cell: Cell, reg: int)
    requires Ample(e, c.Port()) && Fair(e.port, c, cell, reg) && Tracked(e, c, cell)
    ensures Loads(e, 0, c.Load(), cell, reg)
  {
    hide Fair, Matches, Dispatch, StackKey, Flag, PortOf, Decide, MayStoreTo, MemoryOperand, RegisterDestination,
         Extract, StartsWith, PartiallyWrites;
    CaseShape(e.port, c, cell, reg);
    LoadDefinesTheRegister(e.port, c, cell, reg);
    LoadMoves(e.port, c, cell, reg);
    LoadIsWhole(e.port, c, cell, reg);
    TwoOperands(2, c.mnem, c.target, c.src, false);
  }

  lemma LoadMoves(port: IdaPort, c: Case, cell: Cell, reg: int)
    requires Fair(port, c, cell, reg)
    ensures c.Load().IsMove() && !c.Load().IsCall()
  {
    LoadIsNoCall(c);
    hide Hosts, OperandCell, Decide;
  }

  /** Forward, the load is answered with what was stored, too. */
  lemma StoreIsAnsweredForward(e: Engine, c: Case, cell: Cell, reg: int, argIndex: int)
    requires Ample(e, c.Port()) && Fair(e.port, c, cell, reg) && Tracked(e, c, cell)
    ensures ForwardSpec.ResolveAt(e, 0, argIndex, 3, Some(reg)) == Concrete(c.value, IntKind)
  {
    hide Fair, Ample, Tracked, Stores, Loads, ForwardSpec.ResolveAt, Forward, MayStoreTo;
    CaseStores(e, c, cell, reg);
    CaseLoads(e, c, cell, reg);
    ForwardPasses(e, c, argIndex, reg) by { SkipsBetween(e.port, c, cell, reg); }
    var seed := EMPTY.With(Some(reg), Symbolic(Arg(argIndex)));
    assert [c.Store()] + [c.between] + [c.Load()] == [c.Store(), c.between, c.Load()];
    assert !MayStoreTo(e, 0, c.between, cell) by { Untouched(e, c, cell); }
    StoredValueIsLoadedBack(e, 0, c.Store(), [c.between], c.Load(), seed, cell, Imm(1, c.value), reg);
  }

  lemma Untouched(e: Engine, c: Case, cell: Cell)
    requires Tracked(e, c, cell)
    ensures !MayStoreTo(e, 0, c.between, cell)
  {
    hide MayStoreTo;
  }

  // -- cases ------------------------------------------------------------------------------------------

  predicate WellFormed(c: Case, reg: int) {
    && c.between.ea == 1 && c.between.size == 1
    && (forall op :: op in c.between.operands ==> op.IsMemory() ==> !c.between.IsWritten(op.number))
    && NamesPlainly(c.dst) && c.dst.number == 0 && NamesPlainly(c.src) && c.src.number == 1 && NamesRegister(c.target, reg)
    && FitsWord(c.value, 64) && c.Load().IsMove()
  }

  lemma PassedBy(port: IdaPort, func: int, instr: Instruction, cell: Cell)
    requires forall op :: op in instr.operands ==> op.IsMemory() ==> !instr.IsWritten(op.number)
    ensures Decide(port, Memory(cell), instr, func) == Skip
  {}

  lemma CaseIsHosted(c: Case, reg: int)
    requires WellFormed(c, reg)
    ensures Hosts(c.Port(), c.Code(), [BLOCK], c.deltas)
  {
    hide Hosts, PortOf;
    Hosted(c.Code(), [BLOCK], c.deltas);
  }

  lemma CaseIsFair(c: Case, cell: Cell, reg: int)
    requires WellFormed(c, reg) && OperandCell(c.Port(), c.dst, 0, 0) == cell && OperandCell(c.Port(), c.src, 2, 0) == cell
    ensures Fair(c.Port(), c, cell, reg)
  {
    hide Hosts, PortOf, OperandCell, Decide, Pow2;
    CaseIsHosted(c, reg);
    PassedBy(c.Port(), 0, c.between, cell);
  }

  // -- a push between ---------------------------------------------------------------------------------

  /** `mov [rsp-8], 1`, `push rax`, `mov rcx, [rsp]`. */
  const PUSH := Instruction(1, "push", 1, [Reg(0, 0)], [false], [true], false)
  const BELOW := Cell(StackPointer, -8)
  const PUSHED := Case(At(0, 4, -8), 1, PUSH, "mov", Reg(0, 1), At(1, 4, 0), map[(0, 0) := 0, (0, 1) := 0, (0, 2) := -8])

  lemma PushedIsWellFormed()
    ensures WellFormed(PUSHED, 1) && LoadsTheWord(PUSHED, 1)
  {
    SmallWordsDoNotWrap(1);
    hide Pow2;
    assert !PUSH.IsWritten(0) && PUSH.operands == [Reg(0, 0)];
  }

  lemma PushedNamesBelow(port: IdaPort)
    requires Hosts(port, PUSHED.Code(), [BLOCK], PUSHED.deltas)
    ensures OperandCell(port, PUSHED.dst, 0, 0) == BELOW && OperandCell(port, PUSHED.src, 2, 0) == BELOW
    ensures StackKey(port, PUSHED.dst, 0, 0) == Some(BELOW) && StackKey(port, PUSHED.src, 2, 0) == Some(BELOW)
    ensures port.spDelta(0, 1) == Some(0)
  {
    hide LayoutContract, DecodesInPlace;
  }

  lemma PushedIsFair(port: IdaPort)
    requires port == PUSHED.Port()
    ensures Fair(port, PUSHED, BELOW, 1) && LoadsTheWord(PUSHED, 1)
    ensures StackKey(port, PUSHED.dst, 0, 0) == Some(BELOW) && StackKey(port, PUSHED.src, 2, 0) == Some(BELOW)
    ensures port.spDelta(0, 1) == Some(0)
  {
    hide Hosts, PortOf, OperandCell, StackKey, WellFormed, Fair, LoadsTheWord;
    PushedIsWellFormed();
    CaseIsHosted(PUSHED, 1);
    PushedNamesBelow(port);
    CaseIsFair(PUSHED, BELOW, 1);
  }

  lemma PushStoresNothingOpenly(e: Engine)
    ensures !MayStoreTo(e, 0, PUSH, BELOW)
  {
    assert !PUSH.IsWritten(0) && PUSH.operands[..0] == [];
    assert MemoryOperand(PUSH, PUSH.operands, true) == None;
  }

  lemma RaxIsPushed(port: IdaPort, m: MState)
    requires HasWords(port) && LayoutContract(port) && InRange(port, m) && m.Reg(0) == 2
    ensures PushesAnOperand(PUSH) && PushedWord(port, 0, PUSH, m) == 2
  {
    WordOperand(port, 0, 0);
    SmallWordsDoNotWrap(2);
    assert PUSH.OperandAt(0) == Some(Reg(0, 0));
    hide HasWords, OpView, Pow2, ReadView, FindOperand;
    FullReadReads(port, m, Reg(0, 0));
  }

  lemma PushRuns(port: IdaPort, m: MState) returns (m': MState)
    requires port == PUSHED.Port() && InRange(port, m) && m.Reg(0) == 2
    ensures Executes(port, 0, PUSH, m, m') && InRange(port, m') && m'.Mem(BELOW) == 2
  {
    hide Fair, PortOf, HasWords, LayoutContract, DecodesInPlace, PushedWord, PushesAnOperand, Executes, InRange, Pushed;
    PushedIsFair(port);
    SkipsBetween(port, PUSHED, BELOW, 1);
    RaxIsPushed(port, m);
    PushedSays(port, 0, PUSH, m);
    m' := Pushed(port, 0, PUSH, m);
    ExecutionIsInRange(port, 0, PUSH, m, m');
    assert port.pointerSize == 8 by { CaseIsDecoded(port, PUSHED); }
  }

  /** Both engines walk past the push and answer the 1 stored below the stack pointer, where
    the push has just put what `rax` held. */
  lemma PushIsPassedBy(e: Engine, argIndex: int, b: Budget) returns (run: seq<Hop>)
    requires Ample(e, PUSHED.Port()) && b.maxSteps - b.steps >= 5
    ensures ResolveRegister(Resolver(e.port, BUILTINS), 1, 3, b).0 == Concrete(1, IntKind)
    ensures ForwardSpec.ResolveAt(e, 0, argIndex, 3, Some(1)) == Concrete(1, IntKind)
    ensures BackwardHypotheses(e.port, 0) && RunsTo(e.port, 0, 0, run, 3)
    ensures |run| == 1 && |run[0].trace| > 0 && LastState(run).Reg(1) == 2
  {
    PushedIsFair(e.port);
    PushStoresNothingOpenly(e);
    hide Fair, StackKey, PortOf, Executes, InRange, MayStoreTo;
    StoreIsAnswered(Resolver(e.port, BUILTINS), PUSHED, BELOW, 1, b);
    StoreIsAnsweredForward(e, PUSHED, BELOW, 1, argIndex);
    SkipsBetween(e.port, PUSHED, BELOW, 1);
    BlockIsOneFunction(e.port, PUSHED.Code(), PUSHED.deltas);
    var m0 := RaxHolds(e.port, 2);
    var m1 := StoreRuns(e.port, PUSHED, BELOW, 1, m0);
    var m2 := PushRuns(e.port, m1);
    var m3 := LoadRuns(e.port, PUSHED, BELOW, 1, m2);
    run := CaseRuns(e.port, PUSHED, m0, m1, m2, m3);
  }

  lemma RaxHolds(port: IdaPort, word: nat) returns (m: MState)
    requires HasWords(port) && word < 10
    ensures InRange(port, m) && m.Reg(0) == word && m.rets == {}
  {
    ZeroIsInRange(port);
    WordOperand(port, 0, 0);
    SmallWordsDoNotWrap(word);
    hide HasWords, Pow2, OpView;
    m := MState(map[0 := word], map[], {});
    StaysInRange(port, ZERO, m, 0, Cell(Absolute, 0));
  }

  // -- any other instruction between ------------------------------------------------------------------

  /** What the instruction between writes unseen, some run loses. */
  lemma UnseenWriteIsLost(port: IdaPort, c: Case, cell: Cell, reg: int) returns (run: seq<Hop>)
    requires Fair(port, c, cell, reg) && LoadsTheWord(c, reg)
    requires Supported(port, c.between) && HiddenlyWrites(port, 0, c.between, Memory(cell)) && !PushesAnOperand(c.between)
    ensures BackwardHypotheses(port, 0) && RunsTo(port, 0, 0, run, 3)
    ensures |run| == 1 && |run[0].trace| > 0 && LastState(run).Reg(reg) != c.value
  {
    SkipsBetween(port, c, cell, reg);
    BlockIsOneFunction(port, c.Code(), c.deltas);
    ZeroIsInRange(port);
    NotOpenly(port, c, cell);
    hide Fair, Executes, InRange, Supported, HiddenlyWrites, OpenlyWrites, LayoutContract, DecodesInPlace, PushesAnOperand;
    var m1 := StoreRuns(port, c, cell, reg, ZERO);
    var m2 := HiddenWriteHappens(port, 0, c.between, Memory(cell), m1);
    assert InRange(port, m2) by { ExecutionIsInRange(port, 0, c.between, m1, m2); }
    var m3 := LoadRuns(port, c, cell, reg, m2);
    run := CaseRuns(port, c, ZERO, m1, m2, m3);
  }

  lemma NotOpenly(port: IdaPort, c: Case, cell: Cell)
    requires LayoutContract(port) && Supported(port, c.between) && Decide(port, Memory(cell), c.between, 0) == Skip
    ensures !OpenlyWrites(port, 0, c.between, Memory(cell))
  {
    SkippedIsNotWritten(Flow(port, Memory(cell), 0, []), c.between);
  }

  // -- a call between -----------------------------------------------------------------------------------

  /** `mov [G], 5`, `call f`, `mov rax, [G]`. */
  const CALL := Instruction(1, "call", 1, [], [], [], true)
  const GLOBAL := Cell(Absolute, 0x100)
  const CALLED := Case(Global(0, 0x100), 5, CALL, "mov", Reg(0, 0), Global(1, 0x100), map[])

  lemma CallIsSupported(port: IdaPort)
    ensures Supported(port, CALL) && CALL.IsCall()
  {
    MnemonicsDiffer("call");
    assert CALL.IsCall() && Matches(CallReturn, CALL);
    hide StartsWith, Matches;
    forall loc | Matches(loc, CALL) ensures loc == CallReturn { BuiltinsAreDisjoint(loc, CallReturn, CALL); }
  }

  lemma CalledIsFair()
    ensures Fair(CALLED.Port(), CALLED, GLOBAL, 0) && LoadsTheWord(CALLED, 0)
  {
    SmallWordsDoNotWrap(5);
    hide Fair, PortOf, Pow2;
    assert WellFormed(CALLED, 0);
    CaseIsFair(CALLED, GLOBAL, 0);
  }

  /** The walk passes by the call and answers the 5 stored in the global, which the callee
    may have written. */
  lemma CallIsPassedBy(b: Budget) returns (run: seq<Hop>)
    requires b.maxSteps - b.steps >= 5
    ensures ResolveRegister(Resolver(CALLED.Port(), BUILTINS), 0, 3, b).0 == Concrete(5, IntKind)
    ensures BackwardHypotheses(CALLED.Port(), 0) && RunsTo(CALLED.Port(), 0, 0, run, 3)
    ensures |run| == 1 && |run[0].trace| > 0 && LastState(run).Reg(0) != 5
  {
    var port := CALLED.Port();
    CalledIsFair();
    CallIsSupported(port);
    hide Fair, Supported, PortOf, RunsTo, BackwardHypotheses;
    StoreIsAnswered(Resolver(port, BUILTINS), CALLED, GLOBAL, 0, b);
    run := UnseenWriteIsLost(port, CALLED, GLOBAL, 0);
  }

  // -- a write of the base register between ----------------------------------------------------------

  /** `mov [rcx+8], 1`, `mov rcx, rdx`, `mov rax, [rcx+8]`. */
  const REBASE := CopyTo(1, 1, 2)
  const BASED := Cell(Based(1), 8)
  const REBASED := Case(At(0, 1, 8), 1, REBASE, "mov", Reg(0, 0), At(1, 1, 8), map[])

  lemma RebasedNamesBased(port: IdaPort)
    requires Hosts(port, REBASED.Code(), [BLOCK], REBASED.deltas)
    ensures OperandCell(port, REBASED.dst, 0, 0) == BASED && OperandCell(port, REBASED.src, 2, 0) == BASED
    ensures Rebases(port, REBASE, BASED)
  {
    TwoReads(1, "mov", Reg(0, 1), Reg(1, 2), false);
    WordOperand(port, 0, 1);
    hide LayoutContract, DecodesInPlace, FindOperand, Flag;
    assert Reg(0, 1) in REBASE.operands && WritesRegister(port, REBASE, 1);
  }

  lemma RebasedIsWellFormed()
    ensures WellFormed(REBASED, 0) && LoadsTheWord(REBASED, 0)
  {
    SmallWordsDoNotWrap(1);
    hide Pow2;
  }

  lemma RebasedIsFair(port: IdaPort)
    requires port == REBASED.Port()
    ensures Fair(port, REBASED, BASED, 0) && LoadsTheWord(REBASED, 0)
    ensures Supported(port, REBASE) && Rebases(port, REBASE, BASED)
  {
    hide Fair, LoadsTheWord, PortOf, OperandCell, WellFormed, Rebases, LayoutContract, DecodesInPlace, HasWords, Supported;
    RebasedIsWellFormed();
    CaseIsHosted(REBASED, 0);
    RebasedNamesBased(port);
    CopyFits(port, 1, 1, 2);
    CaseIsFair(REBASED, BASED, 0);
  }

  /** The walk takes `[rcx+8]` for one cell on both sides of a write of `rcx`. */
  lemma RebaseIsPassedBy(b: Budget) returns (run: seq<Hop>)
    requires b.maxSteps - b.steps >= 5
    ensures ResolveRegister(Resolver(REBASED.Port(), BUILTINS), 0, 3, b).0 == Concrete(1, IntKind)
    ensures BackwardHypotheses(REBASED.Port(), 0) && RunsTo(REBASED.Port(), 0, 0, run, 3)
    ensures |run| == 1 && |run[0].trace| > 0 && LastState(run).Reg(0) != 1
  {
    var port := REBASED.Port();
    RebasedIsFair(port);
    hide Fair, Supported, PortOf, RunsTo, BackwardHypotheses, Rebases;
    StoreIsAnswered(Resolver(port, BUILTINS), REBASED, BASED, 0, b);
    run := UnseenWriteIsLost(port, REBASED, BASED, 0);
  }

  // -- nothing between that matters -------------------------------------------------------------------

  /** `mov [rbp-8], 0x1234`, `mov rbx, 0`, `mov rax, [rbp-8]`. */
  const BYSTANDER := SetTo(1, 3, 0)
  const LOCAL := Cell(FramePointer, -8)
  const KEPT := Case(At(0, 5, -8), 0x1234, BYSTANDER, "mov", Reg(0, 0), At(1, 5, -8), map[])

  /** And with `movzx eax, byte ptr [rbp-8]` for the load. */
  const EAX := Operand(REG, 0, Some(0), None, 0, 0, 0, 4, None)
  const BYTE := Operand(MEM_DISPL, 1, Some(5), None, -8, 0, 0, 1, None)
  const NARROWED := KEPT.(mnem := "movzx", target := EAX, src := BYTE)

  lemma LocalsFit(c: Case)
    requires c.dst == KEPT.dst && c.value == 0x1234 && c.between == BYSTANDER && NamesPlainly(c.src) && c.src.number == 1
    requires NamesRegister(c.target, 0) && (c.mnem == "mov" || c.mnem == "movzx")
    ensures WellFormed(c, 0)
  {
    SmallWordsDoNotWrap(0x1234);
    hide Pow2, Flag;
  }

  lemma BothAreWellFormed()
    ensures WellFormed(KEPT, 0) && WellFormed(NARROWED, 0) && LoadsTheWord(KEPT, 0)
  {
    hide WellFormed;
    LocalsFit(KEPT);
    LocalsFit(NARROWED);
  }

  lemma BothNameTheLocal(port: IdaPort, c: Case)
    requires Hosts(port, c.Code(), [BLOCK], c.deltas) && (c == KEPT || c == NARROWED)
    ensures OperandCell(port, c.dst, 0, 0) == LOCAL && OperandCell(port, c.src, 2, 0) == LOCAL
    ensures StackKey(port, c.dst, 0, 0) == Some(LOCAL) && StackKey(port, c.src, 2, 0) == Some(LOCAL)
  {
    hide LayoutContract, DecodesInPlace;
  }

  lemma BothAreFair(c: Case)
    requires c == KEPT || c == NARROWED
    ensures Fair(c.Port(), c, LOCAL, 0) && StackKey(c.Port(), c.dst, 0, 0) == Some(LOCAL) && StackKey(c.Port(), c.src, 2, 0) == Some(LOCAL)
  {
    hide Fair, PortOf, OperandCell, WellFormed, Hosts, StackKey;
    BothAreWellFormed();
    CaseIsHosted(c, 0);
    BothNameTheLocal(c.Port(), c);
    CaseIsFair(c, LOCAL, 0);
  }

  lemma BystanderWritesRbx(port: IdaPort, parent: int)
    requires HasWords(port)
    ensures WritesRegister(port, BYSTANDER, parent) ==> parent == 3
    ensures !ImplicitlyWrites(port, BYSTANDER, parent) && EffectOf(BYSTANDER.mnem) == Still && !BYSTANDER.IsCall()
  {
    MnemonicsDiffer("mov");
    assert ImplicitNames(BYSTANDER) == {};
    WordOperand(port, 0, 3);
    hide HasWords;
  }

  lemma FrameIsRbp(port: IdaPort)
    requires HasWords(port)
    ensures port.framePointerReg == Some(5)
  {}

  lemma BystanderIsHarmless(port: IdaPort)
    requires HasWords(port)
    ensures !HiddenlyWrites(port, 0, BYSTANDER, Memory(LOCAL)) && !OpenlyWrites(port, 0, BYSTANDER, Memory(LOCAL))
    ensures WellDecoded(port, BYSTANDER) && Supported(port, BYSTANDER)
  {
    hide Supported, WellDecoded, HasWords, WritesRegister, ImplicitlyWrites, Pow2, OpView, FullRead, Sized;
    SmallWordsDoNotWrap(0);
    SetFits(port, 1, 3, 0);
    TwoIsWellDecoded(port, 1, "mov", Reg(0, 3), Imm(1, 0), false);
    BystanderWritesRbx(port, 5);
    WordOperand(port, 0, 5);
    assert BaseOf(port, FramePointer) == Some(5) by { FrameIsRbp(port); }
    assert forall op :: op in BYSTANDER.operands ==> !op.IsMemory();
  }

  /** The hypotheses of the backward resolver are met together, with a constant for an
    answer: the program that keeps what it stored meets all of them. */
  lemma BackwardHypothesesCanBeMet(b: Budget) returns (run: seq<Hop>)
    requires b.maxSteps - b.steps >= 5
    ensures var r := Resolver(KEPT.Port(), BUILTINS);
      && BackwardHypotheses(r.port, 0) && RunsTo(r.port, 0, 0, run, 3) && Clear(r, 0, 0, Register(0), 3)
      && ResolveRegister(r, 0, 3, b).0 == Concrete(0x1234, IntKind)
  {
    hide Fair, PortOf, StackKey, Clear, RunsTo, BackwardHypotheses, Disturbs, Executes, InRange, LayoutContract, DecodesInPlace;
    var port := KEPT.Port();
    var r := Resolver(port, BUILTINS);
    BothAreWellFormed();
    BothAreFair(KEPT);
    SkipsBetween(port, KEPT, LOCAL, 0);
    BlockIsOneFunction(port, KEPT.Code(), KEPT.deltas);
    BystanderIsQuiet(port);
    CaseIsClear(r, KEPT, LOCAL, 0);
    StoreIsAnswered(r, KEPT, LOCAL, 0, b);
    run := KeptRuns(port);
  }

  lemma BystanderIsQuiet(port: IdaPort)
    requires HasWords(port)
    ensures !Disturbs(port, 0, BYSTANDER, Memory(LOCAL))
  {
    hide HiddenlyWrites, WellDecoded, Supported;
    BystanderIsHarmless(port);
  }

  lemma LocalIsKept(port: IdaPort, c: Case, m: MState) returns (m1: MState, m2: MState)
    requires Fair(port, c, LOCAL, 0) && c.between == BYSTANDER && InRange(port, m)
    ensures Executes(port, 0, c.Store(), m, m1) && Executes(port, 0, BYSTANDER, m1, m2) && InRange(port, m2) && m2.Mem(LOCAL) == c.value
  {
    hide Fair, Executes, InRange, LayoutContract, DecodesInPlace, HasWords, Supported, WellDecoded, HiddenlyWrites, OpenlyWrites;
    SkipsBetween(port, c, LOCAL, 0);
    m1 := StoreRuns(port, c, LOCAL, 0, m);
    BystanderIsHarmless(port);
    m2 := CanExecute(port, 0, BYSTANDER, m1);
    ExecutionIsInRange(port, 0, BYSTANDER, m1, m2);
    Unwritten(port, BYSTANDER, LOCAL, m1, m2);
  }

  lemma Unwritten(port: IdaPort, instr: Instruction, cell: Cell, m: MState, m': MState)
    requires Executes(port, 0, instr, m, m')
    requires !HiddenlyWrites(port, 0, instr, Memory(cell)) && !OpenlyWrites(port, 0, instr, Memory(cell))
    ensures m'.Mem(cell) == m.Mem(cell)
  {
    hide HiddenlyWrites, OpenlyWrites, Computes, ComputesPush, InRange;
    assert ValueOf(Memory(cell), m') == ValueOf(Memory(cell), m);
  }

  lemma KeptRuns(port: IdaPort) returns (run: seq<Hop>)
    requires Fair(port, KEPT, LOCAL, 0)
    ensures RunsTo(port, 0, 0, run, 3)
  {
    hide Fair, Executes, InRange, RunsTo, Hosts;
    BothAreWellFormed();
    ZeroIsInRange(port);
    var m1, m2 := LocalIsKept(port, KEPT, ZERO);
    var m3 := LoadRuns(port, KEPT, LOCAL, 0, m2);
    SkipsBetween(port, KEPT, LOCAL, 0);
    run := CaseRuns(port, KEPT, ZERO, m1, m2, m3);
  }

  // -- a narrow load --------------------------------------------------------------------------------------

  lemma NarrowLoadFits(port: IdaPort)
    requires HasWords(port)
    ensures Supported(port, NARROWED.Load()) && OpView(port, EAX) == RegisterView(0, 0, 32, 64, true)
    ensures NARROWED.Load().OperandAt(0) == Some(EAX) && NARROWED.Load().OperandAt(1) == Some(BYTE)
  {
    TwoReads(2, "movzx", EAX, BYTE, false);
    hide Supported, FindOperand, Flag;
    TwoIsSupported(port, MovRegMem, 2, "movzx", EAX, BYTE, false);
  }

  lemma NarrowLoadRuns(port: IdaPort, m: MState) returns (m': MState)
    requires HasWords(port) && LayoutContract(port) && OperandCell(port, BYTE, 2, 0) == LOCAL
    requires InRange(port, m) && m.Mem(LOCAL) == 0x1234
    ensures Executes(port, 0, NARROWED.Load(), m, m') && m'.Reg(0) == 0x34
  {
    NarrowLoadFits(port);
    hide LayoutContract, Supported, InRange, FindOperand, Pow2, OperandCell, HasWords, OpView;
    m' := CanExecute(port, 0, NARROWED.Load(), m);
    LowByteIsLoaded(port, m, m');
  }

  lemma LowByteIsLoaded(port: IdaPort, m: MState, m': MState)
    requires OpView(port, EAX) == RegisterView(0, 0, 32, 64, true) && OperandCell(port, BYTE, 2, 0) == LOCAL
    requires NARROWED.Load().OperandAt(0) == Some(EAX) && NARROWED.Load().OperandAt(1) == Some(BYTE)
    requires Computes(port, 0, NARROWED.Load(), m, m') && m.Mem(LOCAL) == 0x1234
    ensures m'.Reg(0) == 0x34
  {
    hide Pow2, OperandCell, OpView, FindOperand;
    assert ComputesFromMemory(port, 0, NARROWED.Load(), EAX, BYTE, m, m');
    assert Sets(port, EAX, Loaded(NARROWED.Load(), BYTE, 0x1234), m');
    LowByte();
  }

  lemma LowByte()
    ensures (0x1234 % Pow2(8)) % Pow2(32) == 0x34
  {
    assert Pow2(8) == 256;
    Pow2Grows(8, 32);
    DivisionIsUnique(0x34, Pow2(32), 0, 0x34);
  }

  lemma NarrowRuns(port: IdaPort) returns (run: seq<Hop>)
    requires Fair(port, NARROWED, LOCAL, 0)
    ensures RunsTo(port, 0, 0, run, 3) && |run| == 1 && |run[0].trace| > 0 && LastState(run).Reg(0) == 0x34
  {
    SkipsBetween(port, NARROWED, LOCAL, 0);
    BothNameTheLocal(port, NARROWED);
    hide Fair, Executes, InRange, OperandCell, LayoutContract, HasWords, DecodesInPlace, RunsTo;
    ZeroIsInRange(port);
    var m1, m2 := LocalIsKept(port, NARROWED, ZERO);
    var m3 := NarrowLoadRuns(port, m2);
    run := CaseRuns(port, NARROWED, ZERO, m1, m2, m3);
  }

  /** Both engines answer the whole word stored, where the load has fetched its low byte. */
  lemma NarrowLoadIsTakenWhole(e: Engine, argIndex: int, b: Budget) returns (run: seq<Hop>)
    requires Ample(e, NARROWED.Port()) && b.maxSteps - b.steps >= 5
    ensures ResolveRegister(Resolver(e.port, BUILTINS), 0, 3, b).0 == Concrete(0x1234, IntKind)
    ensures ForwardSpec.ResolveAt(e, 0, argIndex, 3, Some(0)) == Concrete(0x1234, IntKind)
    ensures BackwardHypotheses(e.port, 0) && RunsTo(e.port, 0, 0, run, 3)
    ensures |run| == 1 && |run[0].trace| > 0 && LastState(run).Reg(0) == 0x34
  {
    hide Fair, StackKey, PortOf, RunsTo, MayStoreTo, Hosts, OperandCell, BackwardHypotheses;
    BothAreFair(NARROWED);
    SetsStoreNothing(e);
    StoreIsAnswered(Resolver(e.port, BUILTINS), NARROWED, LOCAL, 0, b);
    StoreIsAnsweredForward(e, NARROWED, LOCAL, 0, argIndex);
    SkipsBetween(e.port, NARROWED, LOCAL, 0);
    BlockIsOneFunction(e.port, NARROWED.Code(), NARROWED.deltas);
    run := NarrowRuns(e.port);
  }

  lemma SetsStoreNothing(e: Engine)
    ensures !MayStoreTo(e, 0, BYSTANDER, LOCAL)
  {
    assert BYSTANDER.operands[..1] == [Reg(0, 3)] && [Reg(0, 3)][..0] == [];
    assert MemoryOperand(BYSTANDER, [Reg(0, 3)], true) == None;
    assert MemoryOperand(BYSTANDER, BYSTANDER.operands, true) == None;
  }
}
