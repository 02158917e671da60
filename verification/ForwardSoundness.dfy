/** Every run agrees with what the forward engine answers. */
module ForwardSoundness {
  import opened Values
  import opened InsnModel
  import opened Port
  import opened State
  import opened Merge
  import opened Machine
  import opened ForwardSpec
  import opened ForwardStep
  import opened ForwardFixpoint

  // -- what the engine may be trusted about --------------------------------------------------

  predicate Knows(s: State, t: Target) {
    match t
    case Register(reg) => s.Register(reg).IsKnown()
    case Memory(cell) => s.Slot(cell).IsKnown()
  }

  predicate SameAt(x: State, y: State, t: Target) {
    match t
    case Register(reg) => x.Register(reg) == y.Register(reg)
    case Memory(cell) => x.Slot(cell) == y.Slot(cell)
  }

  /** The state cut down to the trusted locations. */
  ghost function Restrict(s: State, trusted: iset<Target>): State {
    State(map r | r in s.registers && Register(r) in trusted :: s.registers[r],
          map c | c in s.stack && Memory(c) in trusted :: s.stack[c])
  }

  /** If the state is right about the locations trusted before the instruction, the step is
    right about those trusted after it.  An instruction the rules fit must not write them
    unseen, and what the step says of them must come from what was trusted; any other
    instruction must leave them alone. */
  ghost predicate StepTrusts(e: Engine, func: int, instr: Instruction, before: iset<Target>, after: iset<Target>) {
    && (forall t :: t in after ==> !HiddenlyWrites(e.port, func, instr, t))
    && if Supported(e.port, instr) && ForwardSupported(e, instr, func)
       then forall s, t :: t in after && Knows(Step(e, instr, func, s), t) ==>
              SameAt(Step(e, instr, func, Restrict(s, before)), Step(e, instr, func, s), t)
       else
         && (forall t :: t in after ==> t in before && !OpenlyWrites(e.port, func, instr, t))
         && (forall s, t :: t in after && Knows(Step(e, instr, func, s), t) ==> SameAt(Step(e, instr, func, s), s, t))
  }

  /** Where a simulation from `ea` that is to stop at `hi` stops: past `hi` if an
    instruction begins before it and ends after it. */
  function StopsAt(port: IdaPort, ea: int, hi: int): int
    decreases hi - ea
  {
    if ea >= hi then ea
    else
      match port.decodeAt(ea)
      case None => StopsAt(port, ea + 1, hi)
      case Some(instr) => if instr.NextEa() <= ea then ea else StopsAt(port, instr.NextEa(), hi)
  }

  /** The locations trusted in a block, by its start, before an address. */
  type Trust = (int, int) -> iset<Target>

  ghost predicate BlockTrusts(e: Engine, func: int, block: Block, trust: Trust) {
    && (forall ea :: block.startEa <= ea < block.endEa && e.port.decodeAt(ea).None? ==>
          trust(block.startEa, ea + 1) <= trust(block.startEa, ea))
    && (forall ea :: block.startEa <= ea < block.endEa && e.port.decodeAt(ea).Some? ==>
          var instr := e.port.decodeAt(ea).value;
          StepTrusts(e, func, instr, trust(block.startEa, ea), trust(block.startEa, instr.NextEa())))
  }

  ghost predicate IsPath(blocks: seq<Block>, path: seq<Block>) {
    && (forall i :: 0 <= i < |path| ==> path[i] in blocks)
    && (forall i :: 0 <= i < |path| - 1 ==> path[i + 1] in Successors(blocks, path[i]))
  }

  /** The block lies on a cycle of the graph through the entry. */
  ghost predicate OnACycle(blocks: seq<Block>, entryStart: int, block: Block) {
    exists path: seq<Block> ::
      IsPath(blocks, path) && |path| > 1 && path[0].startEa == entryStart && path[|path| - 1].startEa == entryStart && block in path
  }

  ghost predicate Writes(port: IdaPort, func: int, instr: Instruction, t: Target) {
    OpenlyWrites(port, func, instr, t) || HiddenlyWrites(port, func, instr, t)
  }

  /** No instruction on a cycle through the entry writes the location. */
  ghost predicate UnwrittenOnCycles(port: IdaPort, func: int, blocks: seq<Block>, entryStart: int, t: Target) {
    forall b, ea :: b in blocks && OnACycle(blocks, entryStart, b) && b.startEa <= ea < b.endEa && port.decodeAt(ea).Some? ==>
      !Writes(port, func, port.decodeAt(ea).value, t)
  }

  /** Trust follows the instructions and the edges, and begins with the seed: which only
    holds at the entry as long as nothing that leads back there has written it. */
  ghost predicate Trusts(e: Engine, q: Query, trust: Trust) {
    && (forall b :: b in q.blocks ==> BlockTrusts(e, q.func, b, trust))
    && (forall b, c :: b in q.blocks && c in Successors(q.blocks, b) && c.startEa != q.entryStart ==>
          trust(c.startEa, c.startEa) <= trust(b.startEa, StopsAt(e.port, b.startEa, b.endEa)))
    && (forall t :: t in trust(q.entryStart, q.entryStart) && Knows(q.initial, t) ==>
          UnwrittenOnCycles(e.port, q.func, q.blocks, q.entryStart, t))
  }

  /** The location can be trusted in the block before the address: no instruction that the
    rules do not fit, or that writes unseen, has a part in what is said of it. */
  ghost predicate Trusted(e: Engine, q: Query, block: Block, ea: int, t: Target) {
    exists trust: Trust :: Trusts(e, q, trust) && t in trust(block.startEa, StopsAt(e.port, block.startEa, ea))
  }

  /** The conditions on the port and the graph under which a forward answer is meant to hold. */
  ghost predicate ForwardHypotheses(e: Engine, q: Query) {
    DecodesInPlace(e.port) && LayoutContract(e.port) && GraphContract(q.blocks)
  }

  function Boundary(end: int, stop: Option<int>): int { if stop.Some? && stop.value < end then stop.value else end }

  /** Executing code is executing its first instruction and then the rest. */
  lemma ExecutionSplits(port: IdaPort, func: int, ea: int, hi: int, instr: Instruction, trace: seq<MState>)
    requires DecodesInPlace(port) && ea < hi && port.decodeAt(ea) == Some(instr)
    requires ExecutesAll(port, func, Code(port, ea, hi), trace)
    ensures instr.NextEa() > ea && |trace| > 1 && Executes(port, func, instr, trace[0], trace[1])
    ensures ExecutesAll(port, func, Code(port, instr.NextEa(), hi), trace[1..])
  {
    var code := Code(port, ea, hi);
    CodeFromTheFront(port, ea, hi);
    CodeSkipsGaps(port, ea + 1, instr.NextEa(), hi);
    assert code[0] == instr && code[1..] == Code(port, instr.NextEa(), hi);
    forall i | 0 <= i < |code| - 1 ensures Executes(port, func, code[1..][i], trace[1..][i], trace[1..][i + 1]) {
      assert Executes(port, func, code[i + 1], trace[i + 1], trace[i + 2]);
    }
  }

  // -- one block -----------------------------------------------------------------------------

  lemma RestrictedSays(s: State, trusted: iset<Target>)
    ensures forall r :: Restrict(s, trusted).Register(r) == (if Register(r) in trusted then s.Register(r) else Unk(NO_DEFINITION_FOUND))
    ensures forall c :: Restrict(s, trusted).Slot(c) == (if Memory(c) in trusted then s.Slot(c) else Unk(NO_DEFINITION_FOUND))
  {}

  /** What holds of a state at the trusted locations holds of the state cut down to them. */
  lemma DescribesWhereTrusted(port: IdaPort, s: State, trusted: iset<Target>, m: MState, arg: int)
    requires forall r :: Register(r) in trusted && s.Register(r).IsKnown() ==> DescribesRegister(port, s, m, arg, r)
    requires forall c :: Memory(c) in trusted && s.Slot(c).IsKnown() ==> Framed(c) && Means(s.Slot(c), m.Mem(c), m.rets, arg)
    ensures Describes(port, Restrict(s, trusted), m, arg)
  {
    RestrictedSays(s, trusted);
    hide Restrict;
    var cut := Restrict(s, trusted);
    forall r ensures DescribesRegister(port, cut, m, arg, r) {
      if Register(r) in trusted && s.Register(r).IsKnown() { assert DescribesRegister(port, s, m, arg, r); }
    }
    forall c ensures cut.Slot(c).IsKnown() ==> Framed(c)
             ensures Means(cut.Slot(c), m.Mem(c), m.rets, arg) {
      assert Memory(c) in trusted && s.Slot(c).IsKnown() ==> Means(s.Slot(c), m.Mem(c), m.rets, arg);
    }
  }

  lemma SupportedStepIsSound(e: Engine, func: int, instr: Instruction, before: iset<Target>, after: iset<Target>,
                             s: State, m: MState, m': MState, arg: int)
    requires StepTrusts(e, func, instr, before, after) && Supported(e.port, instr) && ForwardSupported(e, instr, func)
    requires LayoutContract(e.port) && InRange(e.port, m) && Executes(e.port, func, instr, m, m')
    requires Describes(e.port, Restrict(s, before), m, arg)
    ensures Describes(e.port, Restrict(Step(e, instr, func, s), after), m', arg)
  {
    var cut, next := Restrict(s, before), Step(e, instr, func, s);
    assert WellDecoded(e.port, instr);
    hide Supported, WellDecoded, ForwardSupported, LayoutContract, InRange, Executes, Restrict, Step, HiddenlyWrites, Describes;
    StepIsSound(e, func, instr, cut, m, m', arg);
    var stepped := Step(e, instr, func, cut);
    forall r | Register(r) in after && next.Register(r).IsKnown() ensures DescribesRegister(e.port, next, m', arg, r) {
      assert Knows(next, Register(r)) && SameAt(stepped, next, Register(r));
      assert DescribesRegister(e.port, stepped, m', arg, r);
    }
    forall c | Memory(c) in after && next.Slot(c).IsKnown()
      ensures Framed(c) && Means(next.Slot(c), m'.Mem(c), m'.rets, arg)
    {
      assert Knows(next, Memory(c)) && SameAt(stepped, next, Memory(c));
    }
    DescribesWhereTrusted(e.port, next, after, m', arg);
  }

  lemma ForeignStepIsSound(e: Engine, func: int, instr: Instruction, before: iset<Target>, after: iset<Target>,
                           s: State, m: MState, m': MState, arg: int)
    requires StepTrusts(e, func, instr, before, after) && !(Supported(e.port, instr) && ForwardSupported(e, instr, func))
    requires Executes(e.port, func, instr, m, m') && Describes(e.port, Restrict(s, before), m, arg)
    ensures Describes(e.port, Restrict(Step(e, instr, func, s), after), m', arg)
  {
    var cut, next := Restrict(s, before), Step(e, instr, func, s);
    RestrictedSays(s, before);
    hide Supported, ForwardSupported, InRange, Computes, ComputesPush, Restrict, Step, HiddenlyWrites, OpenlyWrites;
    assert m.rets <= m'.rets;
    forall r | Register(r) in after && next.Register(r).IsKnown() ensures DescribesRegister(e.port, next, m', arg, r) {
      assert Knows(next, Register(r)) && SameAt(next, s, Register(r));
      assert ValueOf(Register(r), m') == ValueOf(Register(r), m);
      assert DescribesRegister(e.port, cut, m, arg, r);
    }
    forall c | Memory(c) in after && next.Slot(c).IsKnown()
      ensures Framed(c) && Means(next.Slot(c), m'.Mem(c), m'.rets, arg)
    {
      assert Knows(next, Memory(c)) && SameAt(next, s, Memory(c));
      assert ValueOf(Memory(c), m') == ValueOf(Memory(c), m);
      assert Means(cut.Slot(c), m.Mem(c), m.rets, arg);
    }
    DescribesWhereTrusted(e.port, next, after, m', arg);
  }

  lemma TrustedStepIsSound(e: Engine, func: int, instr: Instruction, before: iset<Target>, after: iset<Target>,
                           s: State, m: MState, m': MState, arg: int)
    requires StepTrusts(e, func, instr, before, after)
    requires LayoutContract(e.port) && InRange(e.port, m) && Executes(e.port, func, instr, m, m')
    requires Describes(e.port, Restrict(s, before), m, arg)
    ensures Describes(e.port, Restrict(Step(e, instr, func, s), after), m', arg)
  {
    hide StepTrusts, Describes, Executes, Step, LayoutContract, Supported, ForwardSupported, Restrict, InRange;
    if Supported(e.port, instr) && ForwardSupported(e, instr, func) {
      SupportedStepIsSound(e, func, instr, before, after, s, m, m', arg);
    } else {
      ForeignStepIsSound(e, func, instr, before, after, s, m, m', arg);
    }
  }

  lemma DescribesLess(port: IdaPort, s: State, more: iset<Target>, less: iset<Target>, m: MState, arg: int)
    requires Describes(port, Restrict(s, more), m, arg) && less <= more
    ensures Describes(port, Restrict(s, less), m, arg)
  {
    RestrictedSays(s, more);
    RestrictedSays(s, less);
    hide Restrict;
    forall r ensures DescribesRegister(port, Restrict(s, less), m, arg, r) {
      assert DescribesRegister(port, Restrict(s, more), m, arg, r);
    }
    forall c
      ensures Restrict(s, less).Slot(c).IsKnown() ==> Framed(c)
      ensures Means(Restrict(s, less).Slot(c), m.Mem(c), m.rets, arg)
    {
      assert Means(Restrict(s, more).Slot(c), m.Mem(c), m.rets, arg);
    }
  }

  /** Simulating a block describes every execution of the same addresses, as far as it is
    trusted. */
  lemma {:induction false} SimulationIsSound(e: Engine, func: int, block: Block, trust: Trust, ea: int, stop: Option<int>,
                                             s: State, used: int, trace: seq<MState>, arg: int)
    requires DecodesInPlace(e.port) && LayoutContract(e.port) && BlockTrusts(e, func, block, trust) && block.startEa <= ea
    requires ExecutesAll(e.port, func, Code(e.port, ea, Boundary(block.endEa, stop)), trace)
    requires Describes(e.port, Restrict(s, trust(block.startEa, ea)), trace[0], arg) && InRange(e.port, trace[0])
    requires !Simulate(e, ea, block.endEa, stop, func, s, used).exceeded
    ensures Describes(e.port, Restrict(Simulate(e, ea, block.endEa, stop, func, s, used).state,
                                       trust(block.startEa, StopsAt(e.port, ea, Boundary(block.endEa, stop)))),
                      trace[|trace| - 1], arg)
    decreases e.maxInstructions - used, block.endEa - ea
  {
    hide Describes, LayoutContract, DecodesInPlace, BlockTrusts, StepTrusts, Step, Executes, Restrict, InRange, Code;
    var hi := Boundary(block.endEa, stop);
    if ea >= hi {
      NothingIsRun(e.port, ea, hi);
    } else {
      match e.port.decodeAt(ea)
      case None =>
        GapIsPassed(e, func, block, trust, ea, hi);
        DescribesLess(e.port, s, trust(block.startEa, ea), trust(block.startEa, ea + 1), trace[0], arg);
        SimulationIsSound(e, func, block, trust, ea + 1, stop, s, used, trace, arg);
      case Some(instr) =>
        ExecutionSplits(e.port, func, ea, hi, instr, trace);
        ExecutionIsInRange(e.port, func, instr, trace[0], trace[1]);
        TrustAt(e, func, block, trust, ea, instr);
        TrustedStepIsSound(e, func, instr, trust(block.startEa, ea), trust(block.startEa, instr.NextEa()), s, trace[0], trace[1], arg);
        SimulationIsSound(e, func, block, trust, instr.NextEa(), stop, Step(e, instr, func, s), used + 1, trace[1..], arg);
    }
  }

  lemma NothingIsRun(port: IdaPort, lo: int, hi: int)
    requires hi <= lo
    ensures Code(port, lo, hi) == []
  {}

  lemma GapIsPassed(e: Engine, func: int, block: Block, trust: Trust, ea: int, hi: int)
    requires BlockTrusts(e, func, block, trust) && block.startEa <= ea < hi <= block.endEa && e.port.decodeAt(ea).None?
    ensures trust(block.startEa, ea + 1) <= trust(block.startEa, ea) && Code(e.port, ea, hi) == Code(e.port, ea + 1, hi)
  {
    hide StepTrusts;
    CodeFromTheFront(e.port, ea, hi);
  }

  lemma TrustAt(e: Engine, func: int, block: Block, trust: Trust, ea: int, instr: Instruction)
    requires BlockTrusts(e, func, block, trust) && block.startEa <= ea < block.endEa && e.port.decodeAt(ea) == Some(instr)
    ensures StepTrusts(e, func, instr, trust(block.startEa, ea), trust(block.startEa, instr.NextEa()))
  {
    hide StepTrusts;
  }

  lemma DescribesAbove(port: IdaPort, s: State, above: State, m: MState, arg: int)
    requires Describes(port, s, m, arg) && AtOrAbove(s, above)
    ensures Describes(port, above, m, arg)
  {
    forall r ensures DescribesRegister(port, above, m, arg, r) {
      assert DescribesRegister(port, s, m, arg, r) && Below(s.Register(r), above.Register(r));
    }
    forall c ensures Means(above.Slot(c), m.Mem(c), m.rets, arg) {
      assert Below(s.Slot(c), above.Slot(c)) && Means(s.Slot(c), m.Mem(c), m.rets, arg);
    }
  }

  lemma ExecutionStaysInRange(port: IdaPort, func: int, code: seq<Instruction>, trace: seq<MState>)
    requires ExecutesAll(port, func, code, trace) && InRange(port, trace[0])
    ensures InRange(port, trace[|trace| - 1])
  {
    if |code| > 0 { assert Executes(port, func, code[|code| - 1], trace[|code| - 1], trace[|code|]); }
  }

  lemma RestrictionAbove(s: State, above: State, trusted: iset<Target>)
    requires AtOrAbove(s, above)
    ensures AtOrAbove(Restrict(s, trusted), Restrict(above, trusted))
  {
    RestrictedSays(s, trusted);
    RestrictedSays(above, trusted);
    hide Restrict;
    forall r ensures Below(Restrict(s, trusted).Register(r), Restrict(above, trusted).Register(r)) {
      assert Below(s.Register(r), above.Register(r));
      BelowReflexive(Restrict(s, trusted).Register(r));
    }
    forall c ensures Below(Restrict(s, trusted).Slot(c), Restrict(above, trusted).Slot(c)) {
      assert Below(s.Slot(c), above.Slot(c));
      BelowReflexive(Restrict(s, trusted).Slot(c));
    }
  }

  lemma TrustedAbove(port: IdaPort, s: State, above: State, before: iset<Target>, after: iset<Target>, m: MState, arg: int)
    requires Describes(port, Restrict(s, before), m, arg) && AtOrAbove(s, above) && after <= before
    ensures Describes(port, Restrict(above, after), m, arg)
  {
    hide Describes, Restrict, AtOrAbove;
    DescribesLess(port, s, before, after, m, arg);
    RestrictionAbove(s, above, after);
    DescribesAbove(port, Restrict(s, after), Restrict(above, after), m, arg);
  }

  // -- back at the entry -----------------------------------------------------------------------

  /** What is written may come out as anything; the rest stays. */
  ghost predicate MayLeave(port: IdaPort, func: int, instr: Instruction, m: MState, m': MState) {
    InRange(port, m') && KeepsTheRest(port, func, instr, m, m')
  }

  ghost predicate MayLeaveAll(port: IdaPort, func: int, code: seq<Instruction>, trace: seq<MState>) {
    |trace| == |code| + 1 && forall i :: 0 <= i < |code| ==> MayLeave(port, func, code[i], trace[i], trace[i + 1])
  }

  /** A run in which each instruction may leave anything in what it writes. */
  ghost predicate IsLooseRun(port: IdaPort, func: int, blocks: seq<Block>, entryStart: int, run: seq<Hop>, boundary: int) {
    && |run| > 0 && run[0].block.startEa == entryStart && BlockAt(blocks, entryStart) == Some(run[0].block)
    && (forall i :: 0 <= i < |run| ==>
          MayLeaveAll(port, func,
            Code(port, run[i].block.startEa, if i == |run| - 1 then boundary else run[i].block.endEa), run[i].trace))
    && InRange(port, run[0].trace[0]) && run[0].trace[0].rets == {}
    && (forall i :: 0 <= i < |run| - 1 ==>
          && run[i + 1].block in Successors(blocks, run[i].block)
          && run[i + 1].trace[0] == run[i].trace[|run[i].trace| - 1])
  }

  lemma RunsAreLoose(port: IdaPort, func: int, blocks: seq<Block>, entryStart: int, run: seq<Hop>, boundary: int)
    requires IsRun(port, func, blocks, entryStart, run, boundary)
    ensures IsLooseRun(port, func, blocks, entryStart, run, boundary)
  {
    hide InRange, Computes, ComputesPush, KeepsTheRest, Code, Successors, BlockAt;
  }

  lemma {:induction false} UnwrittenStays(port: IdaPort, func: int, code: seq<Instruction>, trace: seq<MState>, t: Target)
    requires MayLeaveAll(port, func, code, trace) && forall instr :: instr in code ==> !Writes(port, func, instr, t)
    ensures ValueOf(t, trace[|trace| - 1]) == ValueOf(t, trace[0]) && trace[0].rets <= trace[|trace| - 1].rets
  {
    if code != [] {
      var n := |code| - 1;
      forall i | 0 <= i < n ensures MayLeave(port, func, code[..n][i], trace[..n + 1][i], trace[..n + 1][i + 1]) {
        assert MayLeave(port, func, code[i], trace[i], trace[i + 1]);
      }
      assert forall instr :: instr in code[..n] ==> instr in code;
      hide HiddenlyWrites, OpenlyWrites, InRange;
      UnwrittenStays(port, func, code[..n], trace[..n + 1], t);
      assert code[n] in code && MayLeave(port, func, code[n], trace[n], trace[n + 1]);
    }
  }

  lemma {:induction false} CodeIsDecoded(port: IdaPort, lo: int, hi: int)
    ensures forall instr :: instr in Code(port, lo, hi) ==> exists ea :: lo <= ea < hi && port.decodeAt(ea) == Some(instr)
    decreases hi - lo
  {
    if lo < hi { CodeIsDecoded(port, lo, hi - 1); }
  }

  /** A run that has come back to the entry has only been through blocks on its cycles. */
  lemma PrefixIsACycle(port: IdaPort, func: int, blocks: seq<Block>, entryStart: int, run: seq<Hop>, boundary: int, i: nat, j: nat)
    requires IsLooseRun(port, func, blocks, entryStart, run, boundary) && j <= i < |run| && i > 0
    requires run[i].block.startEa == entryStart && forall k :: 0 <= k <= i ==> run[k].block in blocks
    ensures OnACycle(blocks, entryStart, run[j].block)
  {
    hide MayLeaveAll, Successors, Code, BlockAt, InRange;
    var path := seq(i + 1, k requires 0 <= k < i + 1 => run[k].block);
    assert path[j] in path && path[0].startEa == entryStart && path[i].startEa == entryStart;
    assert IsPath(blocks, path) by {
      forall k | 0 <= k < |path| - 1 ensures path[k + 1] in Successors(blocks, path[k]) {
        assert run[k + 1].block in Successors(blocks, run[k].block);
      }
    }
  }

  lemma RunListsItsBlocks(port: IdaPort, func: int, blocks: seq<Block>, entryStart: int, run: seq<Hop>, boundary: int)
    requires IsLooseRun(port, func, blocks, entryStart, run, boundary)
    ensures forall k :: 0 <= k < |run| ==> run[k].block in blocks
  {
    hide MayLeaveAll, Code, InRange;
    forall k | 0 <= k < |run| ensures run[k].block in blocks {
      if k > 0 { assert run[k - 1 + 1].block in Successors(blocks, run[k - 1].block); }
    }
  }

  lemma {:induction false} CyclesKeepTheSeed(port: IdaPort, func: int, blocks: seq<Block>, entryStart: int, run: seq<Hop>, boundary: int,
                                             t: Target, i: nat, j: nat)
    requires IsLooseRun(port, func, blocks, entryStart, run, boundary) && j <= i < |run|
    requires run[i].block.startEa == entryStart && UnwrittenOnCycles(port, func, blocks, entryStart, t)
    ensures |run[j].trace| > 0 && ValueOf(t, run[j].trace[0]) == ValueOf(t, run[0].trace[0])
    ensures run[0].trace[0].rets <= run[j].trace[0].rets
  {
    if j > 0 {
      CyclesKeepTheSeed(port, func, blocks, entryStart, run, boundary, t, i, j - 1);
      RunListsItsBlocks(port, func, blocks, entryStart, run, boundary);
      var b, trace := run[j - 1].block, run[j - 1].trace;
      PrefixIsACycle(port, func, blocks, entryStart, run, boundary, i, j - 1);
      CodeIsDecoded(port, b.startEa, b.endEa);
      hide Writes, MayLeaveAll, OnACycle, Successors;
      UnwrittenStays(port, func, Code(port, b.startEa, b.endEa), trace, t);
      assert run[j].trace[0] == trace[|trace| - 1];
    }
  }

  lemma SeedDescribesReturn(e: Engine, q: Query, trust: Trust, run: seq<Hop>, boundary: int, arg: int, i: nat)
    requires IsRun(e.port, q.func, q.blocks, q.entryStart, run, boundary) && i < |run| && run[i].block.startEa == q.entryStart
    requires Trusts(e, q, trust) && Describes(e.port, q.initial, run[0].trace[0], arg)
    ensures |run[i].trace| > 0
    ensures Describes(e.port, Restrict(q.initial, trust(q.entryStart, q.entryStart)), run[i].trace[0], arg)
  {
    var m0, m, trusted := run[0].trace[0], run[i].trace[0], trust(q.entryStart, q.entryStart);
    RestrictedSays(q.initial, trusted);
    RunsAreLoose(e.port, q.func, q.blocks, q.entryStart, run, boundary);
    hide Restrict, IsRun, IsLooseRun, BlockTrusts, UnwrittenOnCycles;
    forall r ensures DescribesRegister(e.port, Restrict(q.initial, trusted), m, arg, r) {
      assert DescribesRegister(e.port, q.initial, m0, arg, r);
      if Register(r) in trusted && Knows(q.initial, Register(r)) {
        CyclesKeepTheSeed(e.port, q.func, q.blocks, q.entryStart, run, boundary, Register(r), i, i);
      }
    }
    forall c
      ensures Restrict(q.initial, trusted).Slot(c).IsKnown() ==> Framed(c)
      ensures Means(Restrict(q.initial, trusted).Slot(c), m.Mem(c), m.rets, arg)
    {
      assert Means(q.initial.Slot(c), m0.Mem(c), m0.rets, arg);
      if Memory(c) in trusted && Knows(q.initial, Memory(c)) {
        CyclesKeepTheSeed(e.port, q.func, q.blocks, q.entryStart, run, boundary, Memory(c), i, i);
      }
    }
  }

  // -- every run -------------------------------------------------------------------------------

  lemma {:induction false} RunIsInRange(port: IdaPort, func: int, blocks: seq<Block>, entryStart: int, run: seq<Hop>, boundary: int, i: nat)
    requires IsRun(port, func, blocks, entryStart, run, boundary) && i < |run|
    ensures |run[i].trace| > 0 && InRange(port, run[i].trace[0])
  {
    hide InRange, Code, Successors;
    if i > 0 {
      RunIsInRange(port, func, blocks, entryStart, run, boundary, i - 1);
      ExecutionStaysInRange(port, func, Code(port, run[i - 1].block.startEa, run[i - 1].block.endEa), run[i - 1].trace);
    }
  }

  /** Wherever a run enters a block, the block's stored in-state describes the machine, as
    far as it is trusted. */
  lemma {:induction false} InStateDescribesEntry(e: Engine, q: Query, w: Work, trust: Trust, run: seq<Hop>, boundary: int, arg: int, i: nat)
    requires ForwardHypotheses(e, q) && PostFixpoint(e, q, w) && Trusts(e, q, trust)
    requires IsRun(e.port, q.func, q.blocks, q.entryStart, run, boundary) && i < |run|
    requires Describes(e.port, q.initial, run[0].trace[0], arg)
    ensures run[i].block in q.blocks && run[i].block.startEa in w.ins && |run[i].trace| > 0
    ensures Describes(e.port, Restrict(w.ins[run[i].block.startEa], trust(run[i].block.startEa, run[i].block.startEa)),
                      run[i].trace[0], arg)
  {
    hide Describes, LayoutContract, AtOrAbove, BlockTrusts, DecodesInPlace, InRange, Simulate, Restrict, UnwrittenOnCycles;
    if i > 0 {
      InStateDescribesEntry(e, q, w, trust, run, boundary, arg, i - 1);
      StartIsListed(q, w, run, e, boundary, i);
    }
    var c := run[i].block;
    if c.startEa == q.entryStart {
      var trusted := trust(q.entryStart, q.entryStart);
      SeedDescribesReturn(e, q, trust, run, boundary, arg, i);
      TrustedAbove(e.port, q.initial, w.ins[q.entryStart], trusted, trusted, run[i].trace[0], arg);
    } else {
      EdgeIsDescribed(e, q, w, trust, run, boundary, arg, i);
    }
  }

  lemma StartIsListed(q: Query, w: Work, run: seq<Hop>, e: Engine, boundary: int, i: nat)
    requires PostFixpoint(e, q, w) && IsRun(e.port, q.func, q.blocks, q.entryStart, run, boundary) && 0 < i < |run|
    requires run[i - 1].block in q.blocks && run[i - 1].block.startEa in w.ins
    ensures run[i].block in q.blocks && run[i].block.startEa in w.ins
  {
    assert run[i - 1 + 1].block in Successors(q.blocks, run[i - 1].block);
  }

  /** From the in-state of one block of a run over the edge to the next. */
  lemma EdgeIsDescribed(e: Engine, q: Query, w: Work, trust: Trust, run: seq<Hop>, boundary: int, arg: int, i: nat)
    requires ForwardHypotheses(e, q) && PostFixpoint(e, q, w) && Trusts(e, q, trust)
    requires IsRun(e.port, q.func, q.blocks, q.entryStart, run, boundary) && 0 < i < |run|
    requires var b := run[i - 1].block;
      && b in q.blocks && b.startEa in w.ins && |run[i - 1].trace| > 0
      && Describes(e.port, Restrict(w.ins[b.startEa], trust(b.startEa, b.startEa)), run[i - 1].trace[0], arg)
    requires run[i].block in q.blocks && run[i].block.startEa in w.ins && run[i].block.startEa != q.entryStart
    ensures |run[i].trace| > 0
    ensures Describes(e.port, Restrict(w.ins[run[i].block.startEa], trust(run[i].block.startEa, run[i].block.startEa)),
                      run[i].trace[0], arg)
  {
    hide Describes, LayoutContract, AtOrAbove, BlockTrusts, DecodesInPlace, InRange, Simulate, Restrict, UnwrittenOnCycles;
    var b, c, trace := run[i - 1].block, run[i].block, run[i - 1].trace;
    assert run[i - 1 + 1].block in Successors(q.blocks, b);
    assert Settled(e, q, w, b.startEa);
    BlockIsFoundByItsStart(q.blocks, b);
    RunIsInRange(e.port, q.func, q.blocks, q.entryStart, run, boundary, i - 1);
    SimulationIsSound(e, q.func, b, trust, b.startEa, None, w.ins[b.startEa], 0, trace, arg);
    EdgeIsAbove(e, q, w, b, c);
    TrustedAbove(e.port, w.outs[b.startEa], w.ins[c.startEa], trust(b.startEa, StopsAt(e.port, b.startEa, b.endEa)),
                 trust(c.startEa, c.startEa), run[i].trace[0], arg);
  }

  lemma EdgeIsAbove(e: Engine, q: Query, w: Work, b: Block, c: Block)
    requires GraphContract(q.blocks) && PostFixpoint(e, q, w) && b in q.blocks && c in q.blocks && c in Successors(q.blocks, b)
    requires b.startEa in w.ins && b.startEa in w.outs && c.startEa in w.ins && c.startEa != q.entryStart
    ensures AtOrAbove(w.outs[b.startEa], w.ins[c.startEa])
  {
    var available := Available(Predecessors(q.blocks, c), w.outs);
    assert w.outs[b.startEa] in available;
    JoinIsAbove(available, w.outs[b.startEa]);
    hide AtOrAbove, Settled;
    AtOrAboveTransitive(w.outs[b.startEa], JoinStates(available), w.ins[c.startEa]);
  }

  lemma EntryIsDescribed(e: Engine, q: Query, argIndex: int, reg: int, m: MState)
    requires Whole(e.port, reg) && q.initial == EMPTY.With(Some(reg), Symbolic(Arg(argIndex)))
    ensures Describes(e.port, q.initial, m, m.Reg(reg))
  {
    forall r ensures DescribesRegister(e.port, q.initial, m, m.Reg(reg), r) {}
  }

  /** The run up to the queried address, within the target's block. */
  lemma LastHopIsDescribed(e: Engine, q: Query, w: Work, trust: Trust, target: Block, targetEa: int, run: seq<Hop>, arg: int)
    requires ForwardHypotheses(e, q) && PostFixpoint(e, q, w) && Trusts(e, q, trust)
    requires IsRun(e.port, q.func, q.blocks, q.entryStart, run, targetEa) && run[|run| - 1].block == target
    requires target.startEa <= targetEa < target.endEa && Describes(e.port, q.initial, run[0].trace[0], arg)
    ensures target in q.blocks && target.startEa in w.ins && BlockTrusts(e, q.func, target, trust)
    ensures |run| > 0 && |run[|run| - 1].trace| > 0 && InRange(e.port, run[|run| - 1].trace[0])
    ensures ExecutesAll(e.port, q.func, Code(e.port, target.startEa, Boundary(target.endEa, Some(targetEa))), run[|run| - 1].trace)
    ensures Describes(e.port, Restrict(w.ins[target.startEa], trust(target.startEa, target.startEa)), run[|run| - 1].trace[0], arg)
  {
    hide LayoutContract, GraphContract, AtOrAbove, BlockTrusts, DecodesInPlace, InRange, PostFixpoint, UnwrittenOnCycles,
         Restrict, Describes, Executes, Code, Successors, BlockAt;
    InStateDescribesEntry(e, q, w, trust, run, targetEa, arg, |run| - 1);
    RunIsInRange(e.port, q.func, q.blocks, q.entryStart, run, targetEa, |run| - 1);
  }

  lemma AnswerIsSound(e: Engine, q: Query, w: Work, target: Block, targetEa: int, reg: int, run: seq<Hop>, arg: int)
    requires ForwardHypotheses(e, q) && PostFixpoint(e, q, w) && Trusted(e, q, target, targetEa, Register(reg))
    requires IsRun(e.port, q.func, q.blocks, q.entryStart, run, targetEa) && run[|run| - 1].block == target
    requires target.startEa <= targetEa < target.endEa
    requires Describes(e.port, q.initial, run[0].trace[0], arg)
    ensures |run[|run| - 1].trace| > 0
    ensures Means(Answer(e, q, w, target, targetEa, reg), LastState(run).Reg(reg), LastState(run).rets, arg)
  {
    hide ForwardHypotheses, Trusts, BlockTrusts, IsRun, InRange, Simulate, PostFixpoint, Restrict, ExecutesAll, StopsAt,
         Code, Describes, LayoutContract;
    var trust: Trust :| Trusts(e, q, trust) && Register(reg) in trust(target.startEa, StopsAt(e.port, target.startEa, targetEa));
    LastHopIsDescribed(e, q, w, trust, target, targetEa, run, arg);
    LastHopIsMeant(e, q, target, targetEa, trust, w.ins[target.startEa], run[|run| - 1].trace, arg, reg);
  }

  lemma LastHopIsMeant(e: Engine, q: Query, target: Block, targetEa: int, trust: Trust, input: State, trace: seq<MState>, arg: int, reg: int)
    requires ForwardHypotheses(e, q) && BlockTrusts(e, q.func, target, trust) && target.startEa <= targetEa < target.endEa
    requires Register(reg) in trust(target.startEa, StopsAt(e.port, target.startEa, targetEa))
    requires ExecutesAll(e.port, q.func, Code(e.port, target.startEa, Boundary(target.endEa, Some(targetEa))), trace)
    requires InRange(e.port, trace[0]) && Describes(e.port, Restrict(input, trust(target.startEa, target.startEa)), trace[0], arg)
    ensures var sim := Simulate(e, target.startEa, target.endEa, Some(targetEa), q.func, input, 0);
      !sim.exceeded ==> Means(sim.state.Register(reg), trace[|trace| - 1].Reg(reg), trace[|trace| - 1].rets, arg)
  {
    hide LayoutContract, GraphContract, BlockTrusts, DecodesInPlace, InRange, Simulate, Restrict, Executes, StopsAt,
         Code, Describes;
    var sim := Simulate(e, target.startEa, target.endEa, Some(targetEa), q.func, input, 0);
    if !sim.exceeded {
      SimulationIsSound(e, q.func, target, trust, target.startEa, Some(targetEa), input, 0, trace, arg);
      TrustedIsMeant(e.port, sim.state, trust(target.startEa, StopsAt(e.port, target.startEa, targetEa)), trace[|trace| - 1], arg, reg);
    }
  }

  lemma TrustedIsMeant(port: IdaPort, s: State, trusted: iset<Target>, m: MState, arg: int, reg: int)
    requires Describes(port, Restrict(s, trusted), m, arg) && Register(reg) in trusted
    ensures Means(s.Register(reg), m.Reg(reg), m.rets, arg)
  {
    RestrictedSays(s, trusted);
    assert DescribesRegister(port, Restrict(s, trusted), m, arg, reg);
  }

  /** The forward engine never guesses: on every run from the function's entry to the
    queried address, around loops any number of times, a constant answer is what the
    register holds, `arg i` is what it held on entry, and `ret(ea)` is a value that the
    call at `ea` has returned. */
  lemma ForwardAnswersAreSound(e: Engine, func: int, argIndex: int, targetEa: int, reg: int, run: seq<Hop>)
    requires BlockContaining(e.port.flowchart(func), func).Some?
    requires BlockContaining(e.port.flowchart(func), targetEa).Some?
    requires var entry, target := BlockContaining(e.port.flowchart(func), func).value, BlockContaining(e.port.flowchart(func), targetEa).value;
      var q := QueryFor(e, func, argIndex, reg, entry);
      && ForwardHypotheses(e, q) && Whole(e.port, reg)
      && Trusted(e, q, target, targetEa, Register(reg))
      && !Fixpoint(e, q).capped
      && IsRun(e.port, func, q.blocks, q.entryStart, run, targetEa)
      && run[|run| - 1].block == target
    ensures |run| > 0 && |run[0].trace| > 0 && |run[|run| - 1].trace| > 0
    ensures var last := LastState(run);
      Means(ResolveAt(e, func, argIndex, targetEa, Some(reg)), last.Reg(reg), last.rets, run[0].trace[0].Reg(reg))
  {
    var entry := BlockContaining(e.port.flowchart(func), func).value;
    var target := BlockContaining(e.port.flowchart(func), targetEa).value;
    var q := QueryFor(e, func, argIndex, reg, entry);
    var w, arg := Fixpoint(e, q), run[0].trace[0].Reg(reg);
    EntryIsDescribed(e, q, argIndex, reg, run[0].trace[0]);
    RunIsInRange(e.port, func, q.blocks, q.entryStart, run, targetEa, |run| - 1);
    hide LayoutContract, GraphContract, AtOrAbove, Trusted, DecodesInPlace, InRange, Simulate, Iterate, PostFixpoint, Describes;
    if !w.exceeded {
      WorklistEndsInPostFixpoint(e, q);
      AnswerIsSound(e, q, w, target, targetEa, reg, run, arg);
    }
  }
}
