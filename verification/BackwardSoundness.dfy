/** Every run agrees with a constant that the backward resolver answers.

  The definition a run last executed for the target ends a path of the graph, the walk
  accounts for that path, and the locator that interpreted the definition is right by
  the same argument at the definition, with less budget. */
module BackwardSoundness {
  import opened Values
  import opened InsnModel
  import opened Port
  import opened State
  import opened Addressing
  import opened Locators
  import opened Registry
  import opened Merge
  import opened Machine
  import opened BackwardSpec
  import opened ReachingDefs

  /** The conditions on the port and the graph under which a constant answer is meant to
    hold: a block's addresses belong to the function and to that block alone. */
  ghost predicate BackwardHypotheses(port: IdaPort, func: int) {
    var blocks := port.flowchart(func);
    && DecodesInPlace(port) && LayoutContract(port) && GraphContract(blocks)
    && forall b, ea :: b in blocks && b.startEa <= ea < b.endEa ==>
         port.funcStart(ea) == Some(func) && BlockContaining(blocks, ea) == Some(b)
  }

  predicate Askable(port: IdaPort, t: Target) { t.Register? ==> Whole(port, t.reg) }

  // -- paths along which nothing is disturbed -----------------------------------------------

  /** The walk passes the instruction by, and yet it may change the target. */
  ghost predicate Disturbs(port: IdaPort, func: int, instr: Instruction, t: Target) {
    HiddenlyWrites(port, func, instr, t) || !WellDecoded(port, instr)
  }

  ghost predicate Quiet(f: Flow, lo: int, hi: int) {
    forall ea :: lo <= ea < hi && f.port.decodeAt(ea).Some? ==> !Disturbs(f.port, f.func, f.port.decodeAt(ea).value, f.target)
  }

  /** Nothing between the leaf of a path and the use disturbs the target. */
  ghost predicate PathIsQuiet(f: Flow, boundary: int, path: seq<Block>, leaf: Leaf)
    decreases |path|
  {
    |path| > 0 &&
    if |path| == 1 then Quiet(f, if leaf.Def? then leaf.ea + 1 else path[0].startEa, boundary)
    else Quiet(f, path[0].startEa, boundary) && PathIsQuiet(f, path[1].endEa, path[1..], leaf)
  }

  /** A path back to the entry's start without a definition, whether or not the walk would
    stop there. */
  ghost predicate Bare(f: Flow, entryStart: int, boundary: int, path: seq<Block>)
    decreases |path|
  {
    |path| > 0 && path[0] in f.blocks && LastDef(f, path[0].startEa, boundary).None? &&
    if |path| == 1 then path[0].startEa == entryStart
    else path[1] in Predecessors(f.blocks, path[0]) && Bare(f, entryStart, path[1].endEa, path[1..])
  }

  // -- queries whose answers hold --------------------------------------------------------------

  type Queries = iset<(Target, int)>

  /** The rules fit the definition, and what its locator asks is among the queries. */
  ghost predicate DefinitionFits(r: Resolver, func: int, t: Target, ea: int, queries: Queries)
    requires r.port.decodeAt(ea).Some?
  {
    var instr := r.port.decodeAt(ea).value;
    var d, loc := Decide(r.port, t, instr, func), Dispatch(r.locators, instr);
    d.Define? && loc.Some? ==>
      && Supported(r.port, instr) && MemorySupported(r.port, instr)
      && match Extract(loc.value, instr, d.operand, r.port.pointerSize)
         case FromRegister(reg, _) => (Register(reg), ea) in queries
         case FromMemory(base, disp, _) => (Memory(MemoryLocation(r.port, base, disp, ea, func)), ea) in queries
         case _ => true
  }

  /** The definition is an addition or subtraction of a constant: the resolver passes the symbol
    of what it started from. */
  ghost predicate IsSum(r: Resolver, func: int, t: Target, ea: int)
    requires r.port.decodeAt(ea).Some?
  {
    var instr := r.port.decodeAt(ea).value;
    var d, loc := Decide(r.port, t, instr, func), Dispatch(r.locators, instr);
    d.Define? && loc.Some? &&
    match Extract(loc.value, instr, d.operand, r.port.pointerSize)
    case FromRegister(_, fold) => fold.Adjust?
    case _ => false
  }

  /** No query comes back to a sum. */
  ghost predicate NoSums(r: Resolver, func: int, queries: Queries) {
    forall t, before, path, ea ::
      (t, before) in queries && Reaches(FlowOf(r, func, t), before, path, Def(ea)) && r.port.decodeAt(ea).Some? ==>
        BlockContaining(r.port.flowchart(func), before) == Some(path[0]) ==> !IsSum(r, func, t, ea)
  }

  function FlowOf(r: Resolver, func: int, t: Target): Flow { Flow(r.port, t, func, r.port.flowchart(func)) }

  /** Every definition that a path leads back to fits, with nothing disturbed on the way. */
  ghost predicate PathsFit(r: Resolver, func: int, t: Target, before: int, queries: Queries) {
    var f, block := FlowOf(r, func, t), BlockContaining(r.port.flowchart(func), before);
    && Askable(r.port, t) && block.Some?
    && (forall path, ea :: Reaches(f, before, path, Def(ea)) && path[0] == block.value ==>
          PathIsQuiet(f, before, path, Def(ea)) && r.port.decodeAt(ea).Some? && DefinitionFits(r, func, t, ea, queries))
  }

  /** Where a path leads back to the entry without a definition, the entry has nothing
    before it. */
  ghost predicate EntryIsFirst(r: Resolver, func: int, entryStart: int, t: Target, before: int) {
    var f, block := FlowOf(r, func, t), BlockContaining(r.port.flowchart(func), before);
    forall path :: Bare(f, entryStart, before, path) && block == Some(path[0]) ==> Predecessors(f.blocks, path[|path| - 1]) == []
  }

  ghost predicate Answerable(r: Resolver, func: int, entryStart: int, t: Target, before: int, queries: Queries) {
    PathsFit(r, func, t, before, queries) && EntryIsFirst(r, func, entryStart, t, before)
  }

  ghost predicate Closed(r: Resolver, func: int, entryStart: int, queries: Queries) {
    forall t, ea :: (t, ea) in queries ==> Answerable(r, func, entryStart, t, ea, queries)
  }

  /** The query and all that it comes to ask are answerable. */
  ghost predicate Clear(r: Resolver, func: int, entryStart: int, t: Target, before: int) {
    exists queries: Queries :: Closed(r, func, entryStart, queries) && (t, before) in queries
  }

  /** As `Clear`, and no sum is among what it comes to ask. */
  ghost predicate ClearOfSums(r: Resolver, func: int, entryStart: int, t: Target, before: int) {
    exists queries: Queries :: Closed(r, func, entryStart, queries) && NoSums(r, func, queries) && (t, before) in queries
  }

  // -- what an answer says --------------------------------------------------------------------

  /** A constant, or the symbol of what a call returned. */
  predicate Definite(v: Value) { v.Concrete? || (v.Symbolic? && v.expr.Ret?) }

  ghost predicate Tells(v: Value, word: int, rets: set<(int, int)>) {
    && (v.Concrete? ==> v.value == word)
    && (v.Symbolic? && v.expr.Ret? ==> (v.expr.ea, word) in rets)
  }

  /** A constant, or a symbol where no sum could have passed it on. */
  ghost predicate Reliable(r: Resolver, func: int, queries: Queries, v: Value) {
    v.Concrete? || (Definite(v) && NoSums(r, func, queries))
  }

  // -- instructions that are walked past ------------------------------------------------

  /** An instruction the walk skips leaves the target as it was, unless it disturbs it. */
  lemma SkippedKeepsTheValue(f: Flow, instr: Instruction, m: MState, m': MState)
    requires LayoutContract(f.port) && Executes(f.port, f.func, instr, m, m') && Askable(f.port, f.target)
    requires Decide(f.port, f.target, instr, f.func) == Skip && !Disturbs(f.port, f.func, instr, f.target)
    ensures ValueOf(f.target, m') == ValueOf(f.target, m)
  {
    SkippedIsNotWritten(f, instr);
  }

  lemma SkippedIsNotWritten(f: Flow, instr: Instruction)
    requires LayoutContract(f.port) && Askable(f.port, f.target) && WellDecoded(f.port, instr)
    requires Decide(f.port, f.target, instr, f.func) == Skip
    ensures !OpenlyWrites(f.port, f.func, instr, f.target)
  {
    match f.target
    case Memory(cell) =>
      forall op | op in instr.operands && op.IsMemory() && instr.IsWritten(op.number)
        ensures !MayLandOn(f.port, op, instr.ea, f.func, cell)
      {
        assert DecideStore(f.port, instr, op, f.func, cell) == Skip;
      }
    case Register(reg) =>
      forall op | op in instr.operands && op.kind == REG && op.reg.Some? && instr.IsWritten(op.number)
        ensures Parent(f.port, op.reg.value) != reg
      {
        if Parent(f.port, op.reg.value) == reg { WrittenOperandDecides(f.port, instr, op, reg); }
      }
  }

  lemma WrittenOperandDecides(port: IdaPort, instr: Instruction, op: Operand, reg: int)
    requires LayoutContract(port) && Whole(port, reg)
    requires op.kind == REG && op.reg.Some? && instr.IsWritten(op.number) && Parent(port, op.reg.value) == reg
    ensures DecideOperand(port, instr, op, reg) != Skip
  {
    var query, write := ViewOf(port, reg, 0), ViewOf(port, op.reg.value, op.dtypeSize);
    assert write.parent == Parent(port, op.reg.value);
    assert port.registerView(op.reg.value, op.dtypeSize).Some? ==> port.registerView(write.parent, 0).Some?;
  }

  lemma {:induction false} UnwrittenKeepsTheValue(f: Flow, lo: int, hi: int, trace: seq<MState>)
    requires LayoutContract(f.port) && Askable(f.port, f.target) && Quiet(f, lo, hi)
    requires ExecutesAll(f.port, f.func, Code(f.port, lo, hi), trace)
    requires forall ea :: lo <= ea < hi ==> !IsDef(f, ea)
    ensures ValueOf(f.target, trace[|trace| - 1]) == ValueOf(f.target, trace[0])
    decreases hi - lo
  {
    if lo < hi {
      var code, front := Code(f.port, lo, hi), Code(f.port, lo, hi - 1);
      if f.port.decodeAt(hi - 1).None? {
        UnwrittenKeepsTheValue(f, lo, hi - 1, trace);
      } else {
        hide Executes, Disturbs, LayoutContract, Decide;
        var n, instr := |front|, f.port.decodeAt(hi - 1).value;
        assert !IsDef(f, hi - 1);
        forall i | 0 <= i < n ensures Executes(f.port, f.func, front[i], trace[..n + 1][i], trace[..n + 1][i + 1]) {
          assert Executes(f.port, f.func, code[i], trace[i], trace[i + 1]);
        }
        UnwrittenKeepsTheValue(f, lo, hi - 1, trace[..n + 1]);
        assert Executes(f.port, f.func, code[n], trace[n], trace[n + 1]);
        SkippedKeepsTheValue(f, instr, trace[n], trace[n + 1]);
      }
    }
  }

  // -- the definition a run executed last ---------------------------------------------------

  lemma TraceSplits(port: IdaPort, func: int, a: seq<Instruction>, b: seq<Instruction>, trace: seq<MState>)
    requires ExecutesAll(port, func, a + b, trace)
    ensures ExecutesAll(port, func, a, trace[..|a| + 1]) && ExecutesAll(port, func, b, trace[|a|..])
  {
    hide Executes;
    var code := a + b;
    forall i | 0 <= i < |a| ensures Executes(port, func, a[i], trace[..|a| + 1][i], trace[..|a| + 1][i + 1]) {
      assert Executes(port, func, code[i], trace[i], trace[i + 1]);
    }
    forall i | 0 <= i < |b| ensures Executes(port, func, b[i], trace[|a|..][i], trace[|a|..][i + 1]) {
      assert Executes(port, func, code[|a| + i], trace[|a| + i], trace[|a| + i + 1]);
    }
  }

  /** What calls have returned is not forgotten. */
  lemma {:induction false} ReturnsAreRemembered(port: IdaPort, func: int, code: seq<Instruction>, trace: seq<MState>, i: nat, j: nat)
    requires ExecutesAll(port, func, code, trace) && i <= j < |trace|
    ensures trace[i].rets <= trace[j].rets
  {
    hide Executes;
    if i < j {
      ReturnsAreRemembered(port, func, code, trace, i, j - 1);
      assert Executes(port, func, code[j - 1], trace[j - 1], trace[j - 1 + 1]);
      ExecutionIsInRange(port, func, code[j - 1], trace[j - 1], trace[j]);
    }
  }

  /** Where a stretch of code was executed, its last definition was, and what follows the
    definition kept its value unless it was disturbed. */
  lemma LastDefWasExecuted(f: Flow, lo: int, hi: int, ea: int, trace: seq<MState>) returns (j: nat)
    requires LayoutContract(f.port) && Askable(f.port, f.target) && LastDef(f, lo, hi) == Some(ea)
    requires ExecutesAll(f.port, f.func, Code(f.port, lo, hi), trace)
    ensures j + 1 < |trace| && ExecutesAll(f.port, f.func, Code(f.port, lo, ea), trace[..j + 1])
    ensures Executes(f.port, f.func, f.port.decodeAt(ea).value, trace[j], trace[j + 1])
    ensures trace[j + 1].rets <= trace[|trace| - 1].rets
    ensures Quiet(f, ea + 1, hi) ==> ValueOf(f.target, trace[|trace| - 1]) == ValueOf(f.target, trace[j + 1])
  {
    var instr := f.port.decodeAt(ea).value;
    var front, rest := Code(f.port, lo, ea), Code(f.port, ea + 1, hi);
    CodeSplits(f.port, lo, ea, hi);
    CodeFromTheFront(f.port, ea, hi);
    assert Code(f.port, lo, hi) == front + ([instr] + rest);
    hide Executes, LayoutContract, Code, Quiet, LastDef, Askable;
    j := |front|;
    ReturnsAreRemembered(f.port, f.func, front + ([instr] + rest), trace, j + 1, |trace| - 1);
    TraceSplits(f.port, f.func, front, [instr] + rest, trace);
    TraceSplits(f.port, f.func, [instr], rest, trace[j..]);
    assert trace[j..][..2][0] == trace[j] && trace[j..][..2][1] == trace[j + 1];
    assert Executes(f.port, f.func, [instr][0], trace[j..][..2][0], trace[j..][..2][1]);
    if Quiet(f, ea + 1, hi) { UnwrittenKeepsTheValue(f, ea + 1, hi, trace[j..][1..]); }
  }

  /** A run cut short before the instruction at `ea` of its last block. */
  function CutBefore(run: seq<Hop>, trace: seq<MState>): seq<Hop>
    requires |run| > 0
  {
    run[..|run| - 1] + [Hop(run[|run| - 1].block, trace)]
  }

  lemma CutIsARun(f: Flow, entryStart: int, run: seq<Hop>, boundary: int, ea: int, j: nat)
    requires IsRun(f.port, f.func, f.blocks, entryStart, run, boundary)
    requires j < |run[|run| - 1].trace|
    requires ExecutesAll(f.port, f.func, Code(f.port, run[|run| - 1].block.startEa, ea), run[|run| - 1].trace[..j + 1])
    ensures IsRun(f.port, f.func, f.blocks, entryStart, CutBefore(run, run[|run| - 1].trace[..j + 1]), ea)
  {
    var n := |run| - 1;
    var cut := CutBefore(run, run[n].trace[..j + 1]);
    hide ExecutesAll, Code, InRange;
    forall i | 0 <= i < |cut|
      ensures ExecutesAll(f.port, f.func,
                Code(f.port, cut[i].block.startEa, if i == |cut| - 1 then ea else cut[i].block.endEa), cut[i].trace)
    {
      assert i < n ==> cut[i] == run[i];
    }
    forall i | 0 <= i < |cut| - 1
      ensures cut[i + 1].block in Successors(f.blocks, cut[i].block)
           && cut[i + 1].trace[0] == cut[i].trace[|cut[i].trace| - 1]
    {
      assert cut[i] == run[i] && cut[i + 1].block == run[i + 1].block;
    }
  }

  /** The part of a run before its last block, up to the end of that block. */
  lemma FrontIsARun(f: Flow, entryStart: int, run: seq<Hop>, boundary: int)
    requires IsRun(f.port, f.func, f.blocks, entryStart, run, boundary) && |run| > 1
    ensures IsRun(f.port, f.func, f.blocks, entryStart, run[..|run| - 1], run[|run| - 2].block.endEa)
    ensures LastState(run[..|run| - 1]) == run[|run| - 1].trace[0]
  {
    hide ExecutesAll, Code, InRange;
    var front := run[..|run| - 1];
    assert forall i :: 0 <= i < |front| ==> front[i] == run[i];
  }

  lemma {:induction false} RunStaysInRange(f: Flow, entryStart: int, run: seq<Hop>, boundary: int)
    requires IsRun(f.port, f.func, f.blocks, entryStart, run, boundary)
    ensures InRange(f.port, run[|run| - 1].trace[0]) && InRange(f.port, LastState(run))
  {
    var n := |run| - 1;
    if n > 0 {
      FrontIsARun(f, entryStart, run, boundary);
      RunStaysInRange(f, entryStart, run[..n], run[n - 1].block.endEa);
    }
    var code, trace := Code(f.port, run[n].block.startEa, boundary), run[n].trace;
    if |code| > 0 { assert Executes(f.port, f.func, code[|code| - 1], trace[|code| - 1], trace[|code|]); }
  }

  /** Where a run got the target's value from: a path of the graph from the use back to a
    leaf, and for a definition the run up to it and the machine just after it. */
  datatype Origin = Origin(path: seq<Block>, leaf: Leaf, run: seq<Hop>, after: MState)

  ghost predicate OriginOf(f: Flow, entryStart: int, o: Origin, run: seq<Hop>, boundary: int)
    requires |run| > 0 && |run[|run| - 1].trace| > 0
  {
    && |o.path| > 0 && o.path[0] == run[|run| - 1].block
    && match o.leaf
       case Entry => Bare(f, entryStart, boundary, o.path)
       case Def(ea) =>
         var block := o.path[|o.path| - 1];
         && Reaches(f, boundary, o.path, o.leaf)
         && block in f.blocks && block.startEa <= ea < block.endEa
         && IsRun(f.port, f.func, f.blocks, entryStart, o.run, ea) && o.run[|o.run| - 1].block == block
         && f.port.decodeAt(ea).Some?
         && Executes(f.port, f.func, f.port.decodeAt(ea).value, LastState(o.run), o.after)
         && o.after.rets <= LastState(run).rets
         && (PathIsQuiet(f, boundary, o.path, o.leaf) ==> ValueOf(f.target, LastState(run)) == ValueOf(f.target, o.after))
  }

  lemma LastHopIsExecuted(f: Flow, entryStart: int, run: seq<Hop>, boundary: int)
    requires IsRun(f.port, f.func, f.blocks, entryStart, run, boundary)
    ensures |run| > 0 && |run[|run| - 1].trace| > 0
    ensures ExecutesAll(f.port, f.func, Code(f.port, run[|run| - 1].block.startEa, boundary), run[|run| - 1].trace)
  {}

  ghost predicate Asks(f: Flow) { LayoutContract(f.port) && Askable(f.port, f.target) }

  lemma OriginInTheLastBlock(f: Flow, entryStart: int, run: seq<Hop>, boundary: int, ea: int) returns (o: Origin)
    requires Asks(f) && IsRun(f.port, f.func, f.blocks, entryStart, run, boundary)
    requires run[|run| - 1].block in f.blocks && boundary <= run[|run| - 1].block.endEa
    requires LastDef(f, run[|run| - 1].block.startEa, boundary) == Some(ea)
    ensures OriginOf(f, entryStart, o, run, boundary)
  {
    hide IsRun, Executes, ExecutesAll, Code, InRange, LayoutContract;
    LastHopIsExecuted(f, entryStart, run, boundary);
    var block, trace := run[|run| - 1].block, run[|run| - 1].trace;
    var j := LastDefWasExecuted(f, block.startEa, boundary, ea, trace);
    CutIsARun(f, entryStart, run, boundary, ea, j);
    o := Origin([block], Def(ea), CutBefore(run, trace[..j + 1]), trace[j + 1]);
  }

  lemma LongerPath(f: Flow, entryStart: int, boundary: int, block: Block, path: seq<Block>, leaf: Leaf)
    requires |path| > 0 && block in f.blocks && path[0] in Predecessors(f.blocks, block)
    requires LastDef(f, block.startEa, boundary).None?
    ensures Bare(f, entryStart, path[0].endEa, path) ==> Bare(f, entryStart, boundary, [block] + path)
    ensures Reaches(f, path[0].endEa, path, leaf) ==> Reaches(f, boundary, [block] + path, leaf)
    ensures PathIsQuiet(f, boundary, [block] + path, leaf) ==>
      Quiet(f, block.startEa, boundary) && PathIsQuiet(f, path[0].endEa, path, leaf)
    ensures ([block] + path)[|path|] == path[|path| - 1]
  {
    assert ([block] + path)[1..] == path;
  }

  lemma LastBlockKeepsTheValue(f: Flow, lo: int, hi: int, trace: seq<MState>)
    requires Asks(f) && LastDef(f, lo, hi) == None && ExecutesAll(f.port, f.func, Code(f.port, lo, hi), trace)
    ensures |trace| > 0 && trace[0].rets <= trace[|trace| - 1].rets
    ensures Quiet(f, lo, hi) ==> ValueOf(f.target, trace[|trace| - 1]) == ValueOf(f.target, trace[0])
  {
    hide Executes, LayoutContract, Code, Quiet, IsDef;
    ReturnsAreRemembered(f.port, f.func, Code(f.port, lo, hi), trace, 0, |trace| - 1);
    if Quiet(f, lo, hi) { UnwrittenKeepsTheValue(f, lo, hi, trace); }
  }

  lemma OriginBeforeTheLastBlock(f: Flow, entryStart: int, run: seq<Hop>, boundary: int, earlier: Origin)
    requires Asks(f) && GraphContract(f.blocks) && |run| > 1
    requires IsRun(f.port, f.func, f.blocks, entryStart, run, boundary)
    requires run[|run| - 1].block in f.blocks && boundary <= run[|run| - 1].block.endEa
    requires LastDef(f, run[|run| - 1].block.startEa, boundary) == None
    requires |run[|run| - 2].trace| > 0 && OriginOf(f, entryStart, earlier, run[..|run| - 1], run[|run| - 2].block.endEa)
    ensures |run[|run| - 1].trace| > 0
    ensures OriginOf(f, entryStart, earlier.(path := [run[|run| - 1].block] + earlier.path), run, boundary)
  {
    hide IsRun, Executes, ExecutesAll, Code, GraphContract, Successors, Predecessors, InRange, LayoutContract, Bare,
         Reaches, PathIsQuiet, Quiet, LastDef, Asks, ValueOf;
    LastHopIsExecuted(f, entryStart, run, boundary);
    FrontIsARun(f, entryStart, run, boundary);
    PreviousBlockIsListed(f, entryStart, run, boundary);
    var n := |run| - 1;
    var block := run[n].block;
    LongerPath(f, entryStart, boundary, block, earlier.path, earlier.leaf);
    LastBlockKeepsTheValue(f, block.startEa, boundary, run[n].trace);
  }

  lemma {:induction false} EveryRunHasAnOrigin(f: Flow, entryStart: int, run: seq<Hop>, boundary: int) returns (o: Origin)
    requires Asks(f) && GraphContract(f.blocks)
    requires IsRun(f.port, f.func, f.blocks, entryStart, run, boundary)
    requires run[|run| - 1].block in f.blocks && boundary <= run[|run| - 1].block.endEa
    ensures |run[|run| - 1].trace| > 0 && OriginOf(f, entryStart, o, run, boundary)
  {
    LastHopIsExecuted(f, entryStart, run, boundary);
    var n, block := |run| - 1, run[|run| - 1].block;
    if LastDef(f, block.startEa, boundary).Some? {
      o := OriginInTheLastBlock(f, entryStart, run, boundary, LastDef(f, block.startEa, boundary).value);
    } else if n == 0 {
      o := Origin([block], Entry, run, LastState(run));
    } else {
      FrontIsARun(f, entryStart, run, boundary);
      PreviousBlockIsListed(f, entryStart, run, boundary);
      hide GraphContract, LayoutContract, ExecutesAll, InRange, OriginOf, Predecessors;
      var earlier := EveryRunHasAnOrigin(f, entryStart, run[..n], run[n - 1].block.endEa);
      OriginBeforeTheLastBlock(f, entryStart, run, boundary, earlier);
      o := earlier.(path := [block] + earlier.path);
    }
  }

  lemma PreviousBlockIsListed(f: Flow, entryStart: int, run: seq<Hop>, boundary: int)
    requires GraphContract(f.blocks)
    requires IsRun(f.port, f.func, f.blocks, entryStart, run, boundary) && |run| > 1
    ensures run[|run| - 2].block in f.blocks
    ensures run[|run| - 2].block in Predecessors(f.blocks, run[|run| - 1].block)
  {
    assert run[|run| - 1].block in Successors(f.blocks, run[|run| - 2].block);
    if |run| > 2 { assert run[|run| - 2].block in Successors(f.blocks, run[|run| - 3].block); }
  }

  // -- what a definition is interpreted to ---------------------------------------------------

  /** The operand a register definition was matched by: its write defines the register. */
  lemma DefinedOperand(port: IdaPort, instr: Instruction, reg: int, operand: int) returns (op: Operand)
    requires LayoutContract(port) && Whole(port, reg)
    requires DecideOperands(port, instr, instr.operands, reg) == Define(operand)
    ensures op in instr.operands && op.kind == REG && op.reg == Some(reg) && op.number == operand
    ensures instr.IsWritten(operand) && Defines(port, op)
  {
    op :| op in instr.operands && DecideOperand(port, instr, op, reg) == Define(operand);
    var query, write := ViewOf(port, reg, 0), ViewOf(port, op.reg.value, op.dtypeSize);
    assert query.parent == reg && query.bitOffset == 0;
    assert write.parent == Parent(port, op.reg.value) && write.parentBitSize == Bits(port, write.parent);
    assert query.bitSize == query.parentBitSize;
  }

  lemma DefinedCell(port: IdaPort, instr: Instruction, func: int, cell: Cell, operand: int) returns (op: Operand)
    requires DecideStores(port, instr, instr.operands, func, cell) == Define(operand)
    ensures op in instr.operands && NamesOneCell(op) && op.number == operand && instr.IsWritten(operand)
    ensures OperandCell(port, op, instr.ea, func) == cell
  {
    op :| op in instr.operands && DecideStore(port, instr, op, func, cell) == Define(operand);
  }

  /** The word a plan will find where it looks. */
  ghost predicate PlanHolds(port: IdaPort, func: int, plan: Plan, instr: Instruction, m: MState, word: int, rets: set<(int, int)>) {
    match plan
    case Done(v) => Tells(v, word, rets)
    case NotApplicable => true
    case FromRegister(reg, fold) =>
      && Whole(port, reg)
      && forall k: ValueKind :: Folded(fold, Concrete(m.Reg(reg), k)).value == word
    case FromMemory(base, disp, _) => m.Mem(MemoryLocation(port, base, disp, instr.ea, func)) == word
  }

  lemma PlanFindsTheWord(port: IdaPort, func: int, loc: Locator, instr: Instruction, operand: int, m: MState, rets: set<(int, int)>)
    requires Matches(loc, instr) && SetsOneWord(loc) && WidthsFit(port, loc, instr)
    requires Defines(port, Dst(instr)) && Whole(port, Dst(instr).reg.value)
    ensures PlanHolds(port, func, Extract(loc, instr, operand, port.pointerSize), instr, m, LocatorWord(port, func, loc, instr, m), rets)
  {}

  lemma RejectedLoadHolds(port: IdaPort, func: int, instr: Instruction, operand: int, m: MState, word: int, rets: set<(int, int)>)
    requires Matches(MovRegMem, instr) && !Extract(MovRegMem, instr, operand, port.pointerSize).FromMemory?
    ensures PlanHolds(port, func, Extract(MovRegMem, instr, operand, port.pointerSize), instr, m, word, rets)
  {}

  lemma OneWordPlanHolds(port: IdaPort, func: int, loc: Locator, instr: Instruction, operand: int, m: MState, m': MState)
    requires Ran(port, func, instr, m, m') && Matches(loc, instr) && SetsOneWord(loc) && Defines(port, Dst(instr))
    requires MemoryWidthsFit(port, loc, instr)
    ensures PlanHolds(port, func, Extract(loc, instr, operand, port.pointerSize), instr, m, m'.Reg(Dst(instr).reg.value), m'.rets)
  {
    hide LocatorWord, PlanHolds, Executes;
    var src, plan := Src(instr), Extract(loc, instr, operand, port.pointerSize);
    assert OpView(port, Dst(instr)).parent == Parent(port, Dst(instr).reg.value);
    PlanFindsTheWord(port, func, loc, instr, operand, m, m'.rets);
    if loc == MovRegMem && !plan.FromMemory? {
      RejectedLoadHolds(port, func, instr, operand, m, m'.Reg(Dst(instr).reg.value), m'.rets);
    } else {
      LocatorWordIsLeft(port, func, loc, instr, m, m');
    }
  }

  lemma XchgPlanHolds(port: IdaPort, func: int, instr: Instruction, op: Operand, m: MState, m': MState)
    requires Ran(port, func, instr, m, m') && Matches(XchgRegReg, instr)
    requires (op == Dst(instr) || op == Src(instr)) && Defines(port, op)
    ensures PlanHolds(port, func, Extract(XchgRegReg, instr, op.number, port.pointerSize), instr, m, m'.Reg(op.reg.value), m'.rets)
  {
    assert WidthsFit(port, XchgRegReg, instr);
    XchgSwaps(port, func, instr, m, m');
  }

  lemma RegisterPlanHolds(port: IdaPort, func: int, reg: int, loc: Locator, instr: Instruction, operand: int, m: MState, m': MState)
    requires Ran(port, func, instr, m, m') && Whole(port, reg) && Matches(loc, instr) && MemoryWidthsFit(port, loc, instr)
    requires Decide(port, Register(reg), instr, func) == Define(operand)
    ensures PlanHolds(port, func, Extract(loc, instr, operand, port.pointerSize), instr, m, m'.Reg(reg), m'.rets)
  {
    if instr.IsCall() {
      CallPlanHolds(port, func, reg, loc, instr, operand, m, m');
    } else {
      var op := DefiningOperand(port, reg, loc, instr, operand);
      hide Ran, Matches, Decide, PlanHolds, MemoryWidthsFit, Defines, Whole, Extract;
      if SetsOneWord(loc) {
        OneWordPlanHolds(port, func, loc, instr, operand, m, m');
      } else if loc == XchgRegReg {
        XchgPlanHolds(port, func, instr, op, m, m');
      } else {
        OtherPlansSayNothing(port, func, loc, instr, operand, m, m'.Reg(reg), m'.rets);
      }
    }
  }

  lemma CallPlanHolds(port: IdaPort, func: int, reg: int, loc: Locator, instr: Instruction, operand: int, m: MState, m': MState)
    requires Ran(port, func, instr, m, m') && Matches(loc, instr) && instr.IsCall()
    requires Decide(port, Register(reg), instr, func) == Define(operand)
    ensures PlanHolds(port, func, Extract(loc, instr, operand, port.pointerSize), instr, m, m'.Reg(reg), m'.rets)
  {
    assert Matches(CallReturn, instr);
    BuiltinsAreDisjoint(CallReturn, loc, instr);
    CallsDefineTheirReturn(port, func, reg, instr, operand);
    hide Matches, Computes, ComputesPush, InRange, OpenlyWrites, HiddenlyWrites, Supported, LayoutContract;
  }

  lemma CallsDefineTheirReturn(port: IdaPort, func: int, reg: int, instr: Instruction, operand: int)
    requires Supported(port, instr) && instr.IsCall() && Decide(port, Register(reg), instr, func) == Define(operand)
    ensures port.returnValueReg == Some(reg)
  {
    assert Matches(CallReturn, instr) && FlagsFit(CallReturn, instr);
    hide Supported;
    assert forall op :: op in instr.operands ==> DecideOperand(port, instr, op, reg) == Skip;
  }

  lemma OtherPlansSayNothing(port: IdaPort, func: int, loc: Locator, instr: Instruction, operand: int, m: MState, word: int,
                             rets: set<(int, int)>)
    requires Matches(loc, instr) && loc == CmovRegReg
    ensures PlanHolds(port, func, Extract(loc, instr, operand, port.pointerSize), instr, m, word, rets)
  {}

  /** The operand that decides is the one the locator takes for its destination. */
  lemma DefiningOperand(port: IdaPort, reg: int, loc: Locator, instr: Instruction, operand: int) returns (op: Operand)
    requires LayoutContract(port) && Supported(port, instr) && Whole(port, reg) && Matches(loc, instr) && !instr.IsCall()
    requires DecideOperands(port, instr, instr.operands, reg) == Define(operand)
    ensures loc != Push && loc != CallReturn && loc != MovMemImm && loc != MovMemReg
    ensures op.reg == Some(reg) && op.number == operand && Defines(port, op)
    ensures op == Dst(instr) || (loc == XchgRegReg && op == Src(instr))
  {
    op := DefinedOperand(port, instr, reg, operand);
    assert FlagsFit(loc, instr) && WellDecoded(port, instr);
    hide LayoutContract, Supported, WellDecoded, FlagsFit, Defines;
    MatchedOperands(loc, instr, op);
    SupportedOperand(port, instr, op, if operand == 0 then Dst(instr) else Src(instr));
  }

  lemma MatchedOperands(loc: Locator, instr: Instruction, op: Operand)
    requires Matches(loc, instr) && FlagsFit(loc, instr) && op in instr.operands && instr.IsWritten(op.number)
    ensures loc != Push && loc != CallReturn && instr.OperandAt(0).Some? && instr.OperandAt(1).Some?
    ensures op.number == 0 || (loc == XchgRegReg && op.number == 1)
    ensures loc == MovMemImm || loc == MovMemReg ==> Dst(instr).IsMemory()
    ensures loc != MovMemImm && loc != MovMemReg ==> Dst(instr).kind == REG
    ensures loc == XchgRegReg ==> Src(instr).kind == REG
  {}

  lemma SupportedOperand(port: IdaPort, instr: Instruction, a: Operand, b: Operand)
    requires WellDecoded(port, instr) && a in instr.operands && b in instr.operands && a.number == b.number
    ensures a == b
  {}

  lemma CellPlanHolds(port: IdaPort, func: int, cell: Cell, loc: Locator, instr: Instruction, operand: int, m: MState, m': MState)
    requires Ran(port, func, instr, m, m') && Matches(loc, instr) && MemoryWidthsFit(port, loc, instr)
    requires Decide(port, Memory(cell), instr, func) == Define(operand)
    ensures PlanHolds(port, func, Extract(loc, instr, operand, port.pointerSize), instr, m, m'.Mem(cell), m'.rets)
  {
    var op := DefinedCell(port, instr, func, cell, operand);
    assert FlagsFit(loc, instr);
    MatchedOperands(loc, instr, op);
    SupportedOperand(port, instr, op, if operand == 0 then Dst(instr) else Src(instr));
    assert loc == MovMemImm || loc == MovMemReg;
    MovLeavesTheWord(port, func, instr, m, m');
  }

  // -- resolution ----------------------------------------------------------------------------

  /** A run of the function to `before`, which lies in the run's last block. */
  ghost predicate RunsTo(port: IdaPort, func: int, entryStart: int, run: seq<Hop>, before: int) {
    && IsRun(port, func, port.flowchart(func), entryStart, run, before)
    && run[|run| - 1].block in port.flowchart(func)
    && run[|run| - 1].block.startEa <= before < run[|run| - 1].block.endEa
  }

  /** The queries of one resolution, closed under what they ask. */
  ghost predicate Asked(r: Resolver, func: int, entryStart: int, queries: Queries, run: seq<Hop>, t: Target, before: int) {
    && BackwardHypotheses(r.port, func) && RunsTo(r.port, func, entryStart, run, before)
    && Closed(r, func, entryStart, queries) && (t, before) in queries
  }

  lemma RunEnds(r: Resolver, func: int, entryStart: int, run: seq<Hop>, before: int)
    requires RunsTo(r.port, func, entryStart, run, before)
    ensures |run| > 0 && |run[|run| - 1].trace| > 0
    ensures BackwardHypotheses(r.port, func) ==>
      r.port.funcStart(before) == Some(func) && BlockContaining(r.port.flowchart(func), before) == Some(run[|run| - 1].block)
  {}

  lemma {:induction false} RegisterHolds(r: Resolver, func: int, entryStart: int, queries: Queries, reg: int, run: seq<Hop>, before: int, b: Budget)
    requires Asked(r, func, entryStart, queries, run, Register(reg), before)
    requires Reliable(r, func, queries, ResolveRegister(r, reg, before, b).0)
    ensures |run| > 0 && |run[|run| - 1].trace| > 0
    ensures Tells(ResolveRegister(r, reg, before, b).0, LastState(run).Reg(reg), LastState(run).rets)
    decreases b.Left(), 1
  {
    RunEnds(r, func, entryStart, run, before);
    hide Asked, Search, NoSums;
    SearchHolds(r, func, entryStart, queries, Register(reg), run, before, b.Step());
  }

  lemma {:induction false} MemoryHolds(r: Resolver, func: int, entryStart: int, queries: Queries, base: Option<int>, disp: int, size: int,
                                       run: seq<Hop>, before: int, b: Budget)
    requires Asked(r, func, entryStart, queries, run, Memory(MemoryLocation(r.port, base, disp, before, func)), before)
    requires Reliable(r, func, queries, ResolveMemory(r, base, disp, before, size, b).0)
    ensures |run| > 0 && |run[|run| - 1].trace| > 0
    ensures Tells(ResolveMemory(r, base, disp, before, size, b).0,
                  LastState(run).Mem(MemoryLocation(r.port, base, disp, before, func)), LastState(run).rets)
    decreases b.Left(), 1
  {
    RunEnds(r, func, entryStart, run, before);
    hide Asked, Search, MemoryLocation, NoSums;
    SearchHolds(r, func, entryStart, queries, Memory(MemoryLocation(r.port, base, disp, before, func)), run, before, b.Step());
  }

  lemma PlanOfDefinition(r: Resolver, func: int, t: Target, loc: Locator, instr: Instruction, operand: int, m: MState, m': MState)
    requires Askable(r.port, t) && Decide(r.port, t, instr, func) == Define(operand) && Dispatch(r.locators, instr) == Some(loc)
    requires Ran(r.port, func, instr, m, m') && MemorySupported(r.port, instr)
    ensures PlanHolds(r.port, func, Extract(loc, instr, operand, r.port.pointerSize), instr, m, ValueOf(t, m'), m'.rets)
  {
    hide Ran, Matches, Decide, PlanHolds;
    assert Matches(loc, instr) && MemoryWidthsFit(r.port, loc, instr);
    match t {
      case Register(reg) => RegisterPlanHolds(r.port, func, reg, loc, instr, operand, m, m');
      case Memory(cell) => CellPlanHolds(r.port, func, cell, loc, instr, operand, m, m');
    }
  }

  lemma {:induction false} InterpretationHolds(r: Resolver, func: int, entryStart: int, queries: Queries, t: Target, run: seq<Hop>,
                                               instr: Instruction, operand: int, m': MState, b: Budget)
    requires BackwardHypotheses(r.port, func) && RunsTo(r.port, func, entryStart, run, instr.ea) && Closed(r, func, entryStart, queries)
    requires r.port.decodeAt(instr.ea) == Some(instr) && DefinitionFits(r, func, t, instr.ea, queries)
    requires Askable(r.port, t) && Decide(r.port, t, instr, func) == Define(operand)
    requires |run| > 0 && |run[|run| - 1].trace| > 0 && InRange(r.port, LastState(run))
    requires Executes(r.port, func, instr, LastState(run), m')
    requires var v := Interpret(r, instr, operand, b).0; Reliable(r, func, queries, v) && (v.Symbolic? ==> !IsSum(r, func, t, instr.ea))
    ensures Tells(Interpret(r, instr, operand, b).0, ValueOf(t, m'), m'.rets)
    decreases b.Left(), 2
  {
    hide BackwardHypotheses, RunsTo, Decide, Matches, Closed, Supported, MemorySupported, Executes, InRange,
         ResolveRegister, ResolveMemory, LayoutContract, PlanHolds, WellDecoded, NoSums;
    ExecutionIsInRange(r.port, func, instr, LastState(run), m');
    var loc, m := Dispatch(r.locators, instr).value, LastState(run);
    assert LayoutContract(r.port) by { HypothesesLayOut(r.port, func); }
    SupportedIsWellDecoded(r.port, instr);
    PlanOfDefinition(r, func, t, loc, instr, operand, m, m');
    match Extract(loc, instr, operand, r.port.pointerSize) {
      case Done(v) => DonePlanHolds(r.port, func, v, instr, m, ValueOf(t, m'), m'.rets);
      case NotApplicable =>
      case FromRegister(reg, fold) =>
        RegisterHolds(r, func, entryStart, queries, reg, run, instr.ea, b);
        FoldedPlanHolds(r.port, func, reg, fold, instr, m, m', ValueOf(t, m'), ResolveRegister(r, reg, instr.ea, b).0);
      case FromMemory(base, disp, size) =>
        MemoryHolds(r, func, entryStart, queries, base, disp, size, run, instr.ea, b);
        MemoryPlanHolds(r.port, func, base, disp, size, instr, m, ValueOf(t, m'), m'.rets);
    }
  }

  lemma SupportedIsWellDecoded(port: IdaPort, instr: Instruction)
    requires Supported(port, instr)
    ensures WellDecoded(port, instr)
  {
    hide WellDecoded;
  }

  lemma HypothesesLayOut(port: IdaPort, func: int)
    requires BackwardHypotheses(port, func)
    ensures LayoutContract(port)
  {
    hide LayoutContract;
  }

  lemma DonePlanHolds(port: IdaPort, func: int, v: Value, instr: Instruction, m: MState, word: int, rets: set<(int, int)>)
    requires PlanHolds(port, func, Done(v), instr, m, word, rets)
    ensures Tells(v, word, rets)
  {}

  lemma FoldedPlanHolds(port: IdaPort, func: int, reg: int, fold: Fold, instr: Instruction, m: MState, m': MState, word: int, v: Value)
    requires PlanHolds(port, func, FromRegister(reg, fold), instr, m, word, m'.rets) && Tells(v, m.Reg(reg), m.rets)
    requires m.rets <= m'.rets && Definite(v) && (v.Symbolic? ==> !fold.Adjust?)
    ensures Tells(Folded(fold, v), word, m'.rets)
  {
    assert v.Concrete? ==> v == Concrete(m.Reg(reg), v.kind);
    assert Folded(fold, Concrete(m.Reg(reg), IntKind)).value == word;
  }

  lemma MemoryPlanHolds(port: IdaPort, func: int, base: Option<int>, disp: int, size: int, instr: Instruction, m: MState, word: int,
                        rets: set<(int, int)>)
    requires PlanHolds(port, func, FromMemory(base, disp, size), instr, m, word, rets)
    ensures m.Mem(MemoryLocation(port, base, disp, instr.ea, func)) == word
  {}

  lemma StartsAreUnique(blocks: seq<Block>)
    requires GraphContract(blocks)
    ensures UniqueStarts(blocks)
  {}

  lemma SettledIsUnknown(f: Flow, instr: Instruction)
    ensures var d := Decide(f.port, f.target, instr, f.func); d.Settle? ==> d.value.Unknown?
  {
    var d := Decide(f.port, f.target, instr, f.func);
    if d.Settle? {
      match f.target
      case Register(reg) =>
        if !(instr.IsCall() && IsCallClobbered(f.port, reg)) {
          var op :| op in instr.operands && DecideOperand(f.port, instr, op, reg) == d;
        }
      case Memory(cell) =>
        var op :| op in instr.operands && DecideStore(f.port, instr, op, f.func, cell) == d;
    }
  }

  lemma {:induction false} BarePathReachesTheEntry(f: Flow, entryStart: int, boundary: int, path: seq<Block>)
    requires Bare(f, entryStart, boundary, path) && Predecessors(f.blocks, path[|path| - 1]) == []
    ensures Reaches(f, boundary, path, Entry)
    decreases |path|
  {
    if |path| > 1 {
      assert path[1..][|path| - 2] == path[|path| - 1];
      BarePathReachesTheEntry(f, entryStart, path[1].endEa, path[1..]);
    }
  }

  /** The walk took the origin of the run into account, so a constant came from a
    definition: this one, interpreted with what budget was left. */
  lemma OriginIsAccounted(r: Resolver, func: int, entryStart: int, queries: Queries, t: Target, run: seq<Hop>, before: int, b: Budget, o: Origin)
    returns (at: Budget)
    requires Asked(r, func, entryStart, queries, run, t, before)
    requires |run| > 0 && |run[|run| - 1].trace| > 0 && OriginOf(FlowOf(r, func, t), entryStart, o, run, before)
    requires var found := Search(r, t, before, func, b).0; found.Found? && Definite(found.value)
    ensures o.leaf.Def? && IsDef(FlowOf(r, func, t), o.leaf.ea)
    ensures at.Left() < b.Left() && DefValue(r, FlowOf(r, func, t), o.leaf.ea, at).0 == Search(r, t, before, func, b).0.value
  {
    var f := FlowOf(r, func, t);
    RunEnds(r, func, entryStart, run, before);
    StartsAreUnique(f.blocks);
    assert Answerable(r, func, entryStart, t, before, queries);
    if o.leaf.Entry? { BarePathReachesTheEntry(f, entryStart, before, o.path); }
    hide OriginOf, Asked, Answerable, IsRun, GraphContract, BackwardHypotheses, LayoutContract, Walk, DefValue;
    WalkAccountsForEveryPath(r, f, before, o.path, o.leaf, b);
    assert o.leaf.Def?;
    at :| at.Left() < b.Left() && Below(DefValue(r, f, o.leaf.ea, at).0, Search(r, t, before, func, b).0.value);
  }

  lemma RunBeforeTheDefinition(f: Flow, entryStart: int, o: Origin, run: seq<Hop>, before: int)
    requires BackwardHypotheses(f.port, f.func) && f.blocks == f.port.flowchart(f.func)
    requires |run| > 0 && |run[|run| - 1].trace| > 0 && OriginOf(f, entryStart, o, run, before) && o.leaf.Def?
    ensures |o.run| > 0 && |o.run[|o.run| - 1].trace| > 0 && f.port.decodeAt(o.leaf.ea).Some?
    ensures var instr := f.port.decodeAt(o.leaf.ea).value;
      && instr.ea == o.leaf.ea && RunsTo(f.port, f.func, entryStart, o.run, instr.ea)
      && InRange(f.port, LastState(o.run)) && Executes(f.port, f.func, instr, LastState(o.run), o.after)
  {
    RunStaysInRange(f, entryStart, o.run, o.leaf.ea);
  }

  /** The definition a run got the value from fits, and its value is the one at the use. */
  lemma OriginFits(r: Resolver, func: int, entryStart: int, queries: Queries, t: Target, run: seq<Hop>, before: int, o: Origin)
    requires Asked(r, func, entryStart, queries, run, t, before)
    requires |run| > 0 && |run[|run| - 1].trace| > 0 && OriginOf(FlowOf(r, func, t), entryStart, o, run, before) && o.leaf.Def?
    ensures Askable(r.port, t) && r.port.decodeAt(o.leaf.ea).Some? && DefinitionFits(r, func, t, o.leaf.ea, queries)
    ensures NoSums(r, func, queries) ==> !IsSum(r, func, t, o.leaf.ea)
    ensures o.after.rets <= LastState(run).rets
    ensures ValueOf(t, LastState(run)) == ValueOf(t, o.after)
  {
    RunEnds(r, func, entryStart, run, before);
    assert PathsFit(r, func, t, before, queries) by { assert Answerable(r, func, entryStart, t, before, queries); }
    hide Asked, Reaches, PathIsQuiet, DefinitionFits, IsRun, Executes, BlockContaining;
  }

  lemma AskedIsSearched(r: Resolver, func: int, entryStart: int, queries: Queries, t: Target, run: seq<Hop>, before: int) returns (o: Origin)
    requires Asked(r, func, entryStart, queries, run, t, before)
    ensures |run| > 0 && |run[|run| - 1].trace| > 0 && OriginOf(FlowOf(r, func, t), entryStart, o, run, before)
  {
    assert Answerable(r, func, entryStart, t, before, queries);
    hide Closed, IsRun, EntryIsFirst, DecodesInPlace, LayoutContract, GraphContract, OriginOf;
    o := EveryRunHasAnOrigin(FlowOf(r, func, t), entryStart, run, before);
  }

  /** The search finds the value of the definition that the run executed last. */
  lemma {:induction false} SearchHolds(r: Resolver, func: int, entryStart: int, queries: Queries, t: Target, run: seq<Hop>, before: int, b: Budget)
    requires Asked(r, func, entryStart, queries, run, t, before)
    requires |run| > 0 && |run[|run| - 1].trace| > 0
    requires var found := Search(r, t, before, func, b).0; found.Found? && Reliable(r, func, queries, found.value)
    ensures Tells(Search(r, t, before, func, b).0.value, ValueOf(t, LastState(run)), LastState(run).rets)
    decreases b.Left(), 0
  {
    hide RunsTo, Closed, BackwardHypotheses, Executes, InRange, Search, Decide, DefinitionFits, Interpret, OriginOf, NoSums, IsSum;
    var f := FlowOf(r, func, t);
    var o := AskedIsSearched(r, func, entryStart, queries, t, run, before);
    var at := OriginIsAccounted(r, func, entryStart, queries, t, run, before, b, o);
    OriginFits(r, func, entryStart, queries, t, run, before, o);
    RunBeforeTheDefinition(f, entryStart, o, run, before);
    var instr := r.port.decodeAt(o.leaf.ea).value;
    SettledIsUnknown(f, instr);
    InterpretationHolds(r, func, entryStart, queries, t, o.run, instr, Decide(r.port, t, instr, func).operand, o.after, at);
  }

  /** A constant that the resolver answers for a clear query of a whole register is what
    the register holds in every run to the queried point. */
  lemma RegisterIsSound(r: Resolver, func: int, entryStart: int, reg: int, run: seq<Hop>, before: int, b: Budget)
    requires BackwardHypotheses(r.port, func) && RunsTo(r.port, func, entryStart, run, before)
    requires Clear(r, func, entryStart, Register(reg), before) && ResolveRegister(r, reg, before, b).0.Concrete?
    ensures |run| > 0 && |run[|run| - 1].trace| > 0
    ensures LastState(run).Reg(reg) == ResolveRegister(r, reg, before, b).0.value
  {
    var queries: Queries :| Closed(r, func, entryStart, queries) && (Register(reg), before) in queries;
    hide Closed, BackwardHypotheses, RunsTo, ResolveRegister;
    RegisterHolds(r, func, entryStart, queries, reg, run, before, b);
  }

  /** And one it answers for a clear query of a cell is what the cell holds. */
  lemma MemoryIsSound(r: Resolver, func: int, entryStart: int, base: Option<int>, disp: int, size: int, run: seq<Hop>, before: int, b: Budget)
    requires BackwardHypotheses(r.port, func) && RunsTo(r.port, func, entryStart, run, before)
    requires Clear(r, func, entryStart, Memory(MemoryLocation(r.port, base, disp, before, func)), before)
    requires ResolveMemory(r, base, disp, before, size, b).0.Concrete?
    ensures |run| > 0 && |run[|run| - 1].trace| > 0
    ensures LastState(run).Mem(MemoryLocation(r.port, base, disp, before, func)) == ResolveMemory(r, base, disp, before, size, b).0.value
  {
    var t := Memory(MemoryLocation(r.port, base, disp, before, func));
    var queries: Queries :| Closed(r, func, entryStart, queries) && (t, before) in queries;
    hide Closed, BackwardHypotheses, RunsTo, ResolveMemory;
    MemoryHolds(r, func, entryStart, queries, base, disp, size, run, before, b);
  }

  /** A symbol `ret(ea)` that the resolver answers for a query that comes back to no sum is
    what the call there returned: in every run to the queried point, the register holds a
    word that this call left behind. */
  lemma ReturnValueIsSound(r: Resolver, func: int, entryStart: int, reg: int, run: seq<Hop>, before: int, b: Budget, ea: int)
    requires BackwardHypotheses(r.port, func) && RunsTo(r.port, func, entryStart, run, before)
    requires ClearOfSums(r, func, entryStart, Register(reg), before) && ResolveRegister(r, reg, before, b).0 == Symbolic(Ret(ea))
    ensures |run| > 0 && |run[|run| - 1].trace| > 0
    ensures (ea, LastState(run).Reg(reg)) in LastState(run).rets
  {
    var queries: Queries :| Closed(r, func, entryStart, queries) && NoSums(r, func, queries) && (Register(reg), before) in queries;
    hide Closed, BackwardHypotheses, RunsTo, ResolveRegister, NoSums;
    RegisterHolds(r, func, entryStart, queries, reg, run, before, b);
  }

  /** The call itself is answered with its own symbol, for the register it returns in. */
  lemma CallIsAnsweredByItsSymbol(r: Resolver, func: int, instr: Instruction, reg: int, operand: int, b: Budget)
    requires instr.IsCall() && r.port.returnValueReg == Some(reg) && CallReturn in r.locators
    ensures Decide(r.port, Register(reg), instr, func).Define?
    ensures Interpret(r, instr, operand, b) == (Symbolic(Ret(instr.ea)), b)
  {
    assert Matches(CallReturn, instr);
    DispatchFindsTheMatch(r.locators, CallReturn, instr);
    hide Matches, Dispatch;
  }
}
