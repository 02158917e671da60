/** Edges that lead back to the entry block.

  Forward, the entry always starts from the seed, however it is reached.  Backward, what was
  there on entry is not joined with what comes back over such an edge. */
module EntryEdges {
  import opened Values
  import opened InsnModel
  import opened Port
  import opened State
  import opened Locators
  import opened Registry
  import opened Arithmetic
  import opened Machine
  import opened Progress
  import opened ForwardSpec
  import opened ForwardStep
  import opened ForwardFixpoint
  import opened ForwardSoundness
  import opened Widening
  import opened BackwardSpec
  import opened ReachingDefs
  import opened BackwardSoundness
  import opened Skips
  import opened Programs
  import opened Unseen

  // -- forward: the entry keeps the seed ---------------------------------------------------------

  lemma WideningTheSameIsTheSame(s: State)
    ensures Widen(s, s) == s
  {
    assert Widen(s, s).registers == s.registers && Widen(s, s).stack == s.stack;
  }

  lemma EntryIsGivenTheSeed(e: Engine, q: Query, w: Work, block: Block, visit: int)
    requires block.startEa == q.entryStart && (q.entryStart in w.ins ==> w.ins[q.entryStart] == q.initial)
    ensures ComputedIn(e, q, w, block, visit) == Some(q.initial)
  {
    WideningTheSameIsTheSame(q.initial);
    hide Widen, Available, JoinStates, Predecessors;
  }

  lemma TurnKeepsTheSeed(e: Engine, q: Query, w: Work)
    requires q.entryStart in w.ins ==> w.ins[q.entryStart] == q.initial
    requires w.worklist != [] && !w.exceeded
    ensures var w' := Turn(e, q, w); q.entryStart in w'.ins ==> w'.ins[q.entryStart] == q.initial
  {
    var start := w.worklist[0];
    var block := BlockAt(q.blocks, start);
    if start == q.entryStart && block.Some? { EntryIsGivenTheSeed(e, q, w, block.value, w.Visits(start) + 1); }
    hide Simulate, Successors, BlockAt, ComputedIn;
  }

  lemma {:induction false} EntryKeepsTheSeed(e: Engine, q: Query, w: Work)
    requires q.entryStart in w.ins ==> w.ins[q.entryStart] == q.initial
    ensures var end := Iterate(e, q, w); q.entryStart in end.ins ==> end.ins[q.entryStart] == q.initial
    decreases VisitsLeft(e, q.blocks, w), |w.worklist|
  {
    hide Turn, Iterate;
    IterateTurns(e, q, w);
    if w.worklist != [] && !w.exceeded {
      TurnDecreases(e, q, w);
      TurnKeepsTheSeed(e, q, w);
      EntryKeepsTheSeed(e, q, Turn(e, q, w));
    }
  }

  /** At the start of the entry the engine answers the seed, whatever leads back there. */
  lemma EntryIsAnsweredWithTheSeed(e: Engine, func: int, argIndex: int, targetEa: int, reg: int)
    requires BlockContaining(e.port.flowchart(func), func).Some?
    requires var entry := BlockContaining(e.port.flowchart(func), func).value;
      var q := QueryFor(e, func, argIndex, reg, entry);
      && entry.startEa == targetEa && BlockContaining(e.port.flowchart(func), targetEa) == Some(entry)
      && DecodesInPlace(e.port) && GraphContract(q.blocks) && BlockAt(q.blocks, entry.startEa) == Some(entry)
      && Enough(e, q) <= e.maxBlockVisits && Enough(e, q) * Longest(q.blocks) <= e.maxInstructions
    ensures ResolveAt(e, func, argIndex, targetEa, Some(reg)) == Symbolic(Arg(argIndex))
  {
    var entry := BlockContaining(e.port.flowchart(func), func).value;
    var q := QueryFor(e, func, argIndex, reg, entry);
    hide Enough, DecodesInPlace, GraphContract, Fixpoint, BlockContaining, BlockAt, Longest;
    LargeLimitsSuffice(e, q);
    SeedIsStored(e, q);
    EntryKeepsTheSeed(e, q, Begin(q)) by { assert q.entryStart !in Begin(q).ins; }
    assert Fixpoint(e, q) == Iterate(e, q, Begin(q)) by { FixpointIterates(e, q); }
    assert Simulate(e, entry.startEa, entry.endEa, Some(targetEa), func, q.initial, 0) == Simulated(q.initial, false, 0);
  }

  lemma FixpointIterates(e: Engine, q: Query)
    ensures Fixpoint(e, q) == Iterate(e, q, Begin(q))
  {
    hide Iterate;
  }

  lemma SeedIsStored(e: Engine, q: Query)
    requires GraphContract(q.blocks) && BlockAt(q.blocks, q.entryStart).Some? && !Fixpoint(e, q).exceeded && !Fixpoint(e, q).capped
    ensures q.entryStart in Fixpoint(e, q).ins
  {
    hide GraphContract, Fixpoint, BlockAt, Settled, AtOrAbove;
    WorklistEndsInPostFixpoint(e, q);
  }

  // -- forward: when the seed is right ----------------------------------------------------------------

  /** However often a run comes back to the entry, and whatever the instructions leave in what
    they write, the location still holds there what it held at first. */
  ghost predicate SeedSurvives(port: IdaPort, func: int, blocks: seq<Block>, entryStart: int, t: Target) {
    forall run: seq<Hop>, boundary ::
      IsLooseRun(port, func, blocks, entryStart, run, boundary) && run[|run| - 1].block.startEa == entryStart ==>
        |run[|run| - 1].trace| > 0 && ValueOf(t, run[|run| - 1].trace[0]) == ValueOf(t, run[0].trace[0])
  }

  /** Nothing changes but the record of what calls have returned. */
  function After(port: IdaPort, instr: Instruction, m: MState): MState { if instr.IsCall() then Returned(port, instr, m) else m }

  function Idle(port: IdaPort, code: seq<Instruction>, m: MState): (trace: seq<MState>)
    ensures |trace| == |code| + 1 && trace[0] == m
  {
    if code == [] then [m]
    else
      var front := Idle(port, code[..|code| - 1], m);
      front + [After(port, code[|code| - 1], front[|front| - 1])]
  }

  lemma AfterMayBeLeft(port: IdaPort, func: int, instr: Instruction, m: MState, m': MState)
    requires InRange(port, m') && m'.rets == m.rets
    requires forall u :: ValueOf(u, m') == ValueOf(u, m) || Writes(port, func, instr, u)
    ensures MayLeave(port, func, instr, m, After(port, instr, m'))
    ensures InRange(port, After(port, instr, m')) && forall u :: ValueOf(u, After(port, instr, m')) == ValueOf(u, m')
  {
    var left := After(port, instr, m');
    hide Writes, Pow2, Bits;
    forall u ensures ValueOf(u, left) == ValueOf(u, m') {}
    StaysInRange(port, m', left, 0, Cell(Absolute, 0));
    forall u ensures ValueOf(u, left) == ValueOf(u, m) || OpenlyWrites(port, func, instr, u) || HiddenlyWrites(port, func, instr, u) {
      assert ValueOf(u, left) == ValueOf(u, m');
      if Writes(port, func, instr, u) { WritesEitherWay(port, func, instr, u); }
    }
  }

  lemma WritesEitherWay(port: IdaPort, func: int, instr: Instruction, t: Target)
    requires Writes(port, func, instr, t)
    ensures OpenlyWrites(port, func, instr, t) || HiddenlyWrites(port, func, instr, t)
  {
    hide OpenlyWrites, HiddenlyWrites;
  }

  lemma {:induction false} IdleLeaves(port: IdaPort, func: int, code: seq<Instruction>, m: MState)
    requires InRange(port, m)
    ensures var trace := Idle(port, code, m);
      && MayLeaveAll(port, func, code, trace) && InRange(port, trace[|code|])
      && forall u :: ValueOf(u, trace[|code|]) == ValueOf(u, m)
  {
    hide MayLeave, InRange, After;
    if code != [] {
      var n := |code| - 1;
      IdleLeaves(port, func, code[..n], m);
      AfterMayBeLeft(port, func, code[n], Idle(port, code[..n], m)[n], Idle(port, code[..n], m)[n]);
      TracesJoin(port, func, code[..n], [code[n]], Idle(port, code[..n], m),
                 [Idle(port, code[..n], m)[n], After(port, code[n], Idle(port, code[..n], m)[n])]);
      assert code[..n] + [code[n]] == code;
    }
  }

  lemma TracesJoin(port: IdaPort, func: int, a: seq<Instruction>, b: seq<Instruction>, ta: seq<MState>, tb: seq<MState>)
    requires MayLeaveAll(port, func, a, ta) && MayLeaveAll(port, func, b, tb) && tb[0] == ta[|a|]
    ensures MayLeaveAll(port, func, a + b, ta + tb[1..]) && (ta + tb[1..])[0] == ta[0] && (ta + tb[1..])[|a + b|] == tb[|b|]
  {
    hide MayLeave;
    var code, trace := a + b, ta + tb[1..];
    forall i | 0 <= i < |code| ensures MayLeave(port, func, code[i], trace[i], trace[i + 1]) {
      if i < |a| {
        assert MayLeave(port, func, a[i], ta[i], ta[i + 1]);
      } else {
        assert MayLeave(port, func, b[i - |a|], tb[i - |a|], tb[i - |a| + 1]);
      }
    }
  }

  /** Through code with an instruction that writes the location. */
  lemma Crossing(port: IdaPort, func: int, lo: int, hi: int, ea: int, t: Target, m: MState) returns (trace: seq<MState>)
    requires lo <= ea < hi && port.decodeAt(ea).Some? && Writes(port, func, port.decodeAt(ea).value, t)
    requires InRange(port, m) && Roomy(port, t)
    ensures MayLeaveAll(port, func, Code(port, lo, hi), trace) && trace[0] == m && InRange(port, trace[|trace| - 1])
    ensures ValueOf(t, trace[|trace| - 1]) != ValueOf(t, m)
  {
    var instr := port.decodeAt(ea).value;
    var front, rest := Code(port, lo, ea), Code(port, ea + 1, hi);
    CodeSplits(port, lo, ea, hi);
    CodeFromTheFront(port, ea, hi);
    assert Code(port, lo, hi) == (front + [instr]) + rest;
    hide Code, InRange, Writes, MayLeave, Roomy, After;
    IdleLeaves(port, func, front, m);
    var before := Idle(port, front, m)[|front|];
    var written := Changed(t, Other(ValueOf(t, before)), before);
    ChangedIsInRange(port, t, Other(ValueOf(t, before)), before);
    AfterMayBeLeft(port, func, instr, before, written);
    var after := After(port, instr, written);
    TracesJoin(port, func, front, [instr], Idle(port, front, m), [before, after]);
    IdleLeaves(port, func, rest, after);
    trace := Idle(port, front, m) + [before, after][1..];
    TracesJoin(port, func, front + [instr], rest, trace, Idle(port, rest, after));
    trace := trace + Idle(port, rest, after)[1..];
  }

  /** Along the first `n` blocks of a path, writing the location in block `k` on the way. */
  lemma {:induction false} Wandering(port: IdaPort, func: int, blocks: seq<Block>, entryStart: int, path: seq<Block>, n: nat,
                                     k: nat, ea: int, t: Target, m: MState) returns (run: seq<Hop>)
    requires IsPath(blocks, path) && n < |path| && k < |path| && path[0].startEa == entryStart && BlockAt(blocks, entryStart) == Some(path[0])
    requires path[k].startEa <= ea < path[k].endEa && port.decodeAt(ea).Some? && Writes(port, func, port.decodeAt(ea).value, t)
    requires InRange(port, m) && m.rets == {} && Roomy(port, t)
    ensures IsLooseRun(port, func, blocks, entryStart, run, path[n].startEa) && |run| == n + 1
    ensures run[n].block == path[n] && |run[n].trace| == 1 && InRange(port, run[n].trace[0]) && run[0].trace[0] == m
    ensures n <= k ==> ValueOf(t, run[n].trace[0]) == ValueOf(t, m)
    ensures n > k ==> ValueOf(t, run[n].trace[0]) != ValueOf(t, m)
  {
    hide Writes, InRange, Roomy, Successors, BlockAt, MayLeave;
    if n == 0 {
      run := [Hop(path[0], [m])];
      assert Code(port, path[0].startEa, path[0].startEa) == [];
    } else {
      var earlier := Wandering(port, func, blocks, entryStart, path, n - 1, k, ea, t, m);
      var b, at := path[n - 1], earlier[n - 1].trace[0];
      var trace: seq<MState>;
      if n - 1 == k {
        trace := Crossing(port, func, b.startEa, b.endEa, ea, t, at);
      } else {
        trace := Idle(port, Code(port, b.startEa, b.endEa), at);
        IdleLeaves(port, func, Code(port, b.startEa, b.endEa), at);
      }
      run := OneBlockFurther(port, func, blocks, entryStart, earlier, b, path[n], trace);
    }
  }

  lemma OneBlockFurther(port: IdaPort, func: int, blocks: seq<Block>, entryStart: int, earlier: seq<Hop>, b: Block, next: Block,
                        trace: seq<MState>) returns (run: seq<Hop>)
    requires IsLooseRun(port, func, blocks, entryStart, earlier, b.startEa) && earlier[|earlier| - 1].block == b
    requires |earlier[|earlier| - 1].trace| == 1 && next in Successors(blocks, b)
    requires MayLeaveAll(port, func, Code(port, b.startEa, b.endEa), trace) && trace[0] == earlier[|earlier| - 1].trace[0]
    ensures IsLooseRun(port, func, blocks, entryStart, run, next.startEa) && |run| == |earlier| + 1
    ensures run[|earlier|] == Hop(next, [trace[|trace| - 1]]) && run[0].trace[0] == earlier[0].trace[0]
  {
    hide InRange, Successors, BlockAt, MayLeave;
    var n := |earlier| - 1;
    run := earlier[..n] + [Hop(b, trace), Hop(next, [trace[|trace| - 1]])];
    assert Code(port, next.startEa, next.startEa) == [];
    hide Code;
    assert forall i :: 0 <= i < n ==> run[i] == earlier[i];
    forall i | 0 <= i < |run| - 1
      ensures run[i + 1].block in Successors(blocks, run[i].block) && run[i + 1].trace[0] == run[i].trace[|run[i].trace| - 1]
    {
      if i < n { assert earlier[i + 1].block in Successors(blocks, earlier[i].block); }
    }
  }

  lemma WriterIsPassed(blocks: seq<Block>, path: seq<Block>, b: Block, entryStart: int) returns (k: nat)
    requires GraphContract(blocks) && IsPath(blocks, path) && |path| > 1 && b in path
    requires path[0].startEa == entryStart && path[|path| - 1].startEa == entryStart
    ensures k < |path| - 1 && path[k] == b
  {
    k :| k < |path| && path[k] == b;
    if k == |path| - 1 { k := 0; }
  }

  lemma WrittenSeedIsLost(port: IdaPort, func: int, blocks: seq<Block>, entryStart: int, t: Target, b: Block, ea: int)
    requires GraphContract(blocks) && Roomy(port, t) && OnACycle(blocks, entryStart, b)
    requires b.startEa <= ea < b.endEa && port.decodeAt(ea).Some? && Writes(port, func, port.decodeAt(ea).value, t)
    ensures !SeedSurvives(port, func, blocks, entryStart, t)
  {
    var path: seq<Block> :| IsPath(blocks, path) && |path| > 1 && path[0].startEa == entryStart
      && path[|path| - 1].startEa == entryStart && b in path;
    hide Writes, Roomy, Successors, InRange, Changed;
    var k := WriterIsPassed(blocks, path, b, entryStart);
    ZeroIsInRange(port);
    BlockIsFoundByItsStart(blocks, path[0]);
    var run := Wandering(port, func, blocks, entryStart, path, |path| - 1, k, ea, t, ZERO);
    assert run[|run| - 1].block.startEa == entryStart;
  }

  /** The seed is right wherever a run comes back to the entry, whatever the instructions leave
    in what they write, exactly when none on a cycle through the entry writes the location. */
  lemma SeedSurvivesExactly(port: IdaPort, func: int, blocks: seq<Block>, entryStart: int, t: Target)
    requires GraphContract(blocks) && Roomy(port, t)
    ensures SeedSurvives(port, func, blocks, entryStart, t) <==> UnwrittenOnCycles(port, func, blocks, entryStart, t)
  {
    hide Roomy, GraphContract, IsLooseRun, OnACycle, Writes, SeedSurvives;
    if UnwrittenOnCycles(port, func, blocks, entryStart, t) {
      UnwrittenSeedSurvives(port, func, blocks, entryStart, t);
    } else {
      var b, ea :| b in blocks && OnACycle(blocks, entryStart, b) && b.startEa <= ea < b.endEa && port.decodeAt(ea).Some?
        && Writes(port, func, port.decodeAt(ea).value, t);
      WrittenSeedIsLost(port, func, blocks, entryStart, t, b, ea);
    }
  }

  lemma UnwrittenSeedSurvives(port: IdaPort, func: int, blocks: seq<Block>, entryStart: int, t: Target)
    requires UnwrittenOnCycles(port, func, blocks, entryStart, t)
    ensures SeedSurvives(port, func, blocks, entryStart, t)
  {
    hide UnwrittenOnCycles, MayLeave, InRange, Successors, BlockAt, Code;
    forall run: seq<Hop>, boundary | IsLooseRun(port, func, blocks, entryStart, run, boundary) && run[|run| - 1].block.startEa == entryStart
      ensures |run[|run| - 1].trace| > 0 && ValueOf(t, run[|run| - 1].trace[0]) == ValueOf(t, run[0].trace[0])
    {
      CyclesKeepTheSeed(port, func, blocks, entryStart, run, boundary, t, |run| - 1, |run| - 1);
    }
  }

  // -- forward: a program whose seed is lost --------------------------------------------------------

  /** 0: add rax, 1, and round again. */
  const AGAIN := AddTo(0, 0, 1)
  const SELF := Block(0, 1, [0], [0])
  const CODE: Program := map[0 := AGAIN]

  lemma SelfIsListed()
    ensures GraphContract([SELF]) && BlockAt([SELF], 0) == Some(SELF) && Successors([SELF], SELF) == [SELF]
    ensures BlockContaining([SELF], 0) == Some(SELF)
  {
    assert BlocksAt([SELF], [0]) == [SELF] by { assert [0][1..] == []; }
  }

  lemma SelfIsHosted(port: IdaPort)
    requires port == PortOf(CODE, [SELF], map[])
    ensures Hosts(port, CODE, [SELF], map[]) && Code(port, 0, 1) == [AGAIN] && Whole(port, 0)
  {
    Hosted(CODE, [SELF], map[]);
    hide PortOf, LayoutContract, DecodesInPlace;
  }

  lemma SelfRuns(port: IdaPort) returns (run: seq<Hop>)
    requires Hosts(port, CODE, [SELF], map[]) && Code(port, 0, 1) == [AGAIN]
    ensures IsRun(port, 0, [SELF], 0, run, 0) && |run| == 2 && |run[0].trace| > 0 && |run[1].trace| > 0 && run[1].block == SELF
    ensures run[0].trace[0].Reg(0) == 0 && LastState(run).Reg(0) == 1
  {
    SelfIsListed();
    hide HasWords, LayoutContract, DecodesInPlace, Executes, InRange, Successors, BlockAt;
    ZeroIsInRange(port);
    SmallWordsDoNotWrap(1);
    var m1 := AddRuns(port, 0, 0, 0, 1, ZERO);
    run := [Hop(SELF, [ZERO, m1]), Hop(SELF, [m1])];
  }

  lemma SelfIsOneFunction(port: IdaPort)
    requires Hosts(port, CODE, [SELF], map[])
    ensures port.flowchart(0) == [SELF] && DecodesInPlace(port) && LayoutContract(port)
  {
    hide DecodesInPlace, LayoutContract, HasWords;
  }

  lemma OneIsNotTheArgument()
    ensures forall rets :: !Means(Symbolic(Arg(0)), 1, rets, 0)
  {}

  /** The engine answers `arg 0` at the head of the loop, where a run that has been round once
    holds one more: nothing else is amiss, whatever the limits. */
  lemma SeedIsAnsweredOnReturn(e: Engine) returns (run: seq<Hop>)
    requires e.port == PortOf(CODE, [SELF], map[])
    requires var q := QueryFor(e, 0, 0, 0, SELF);
      Enough(e, q) <= e.maxBlockVisits && Enough(e, q) * Longest(q.blocks) <= e.maxInstructions
    ensures ForwardHypotheses(e, QueryFor(e, 0, 0, 0, SELF)) && Whole(e.port, 0) && !Fixpoint(e, QueryFor(e, 0, 0, 0, SELF)).capped
    ensures ResolveAt(e, 0, 0, 0, Some(0)) == Symbolic(Arg(0))
    ensures IsRun(e.port, 0, [SELF], 0, run, 0) && |run| == 2 && |run[0].trace| > 0 && |run[1].trace| > 0 && run[1].block == SELF
    ensures !Means(Symbolic(Arg(0)), LastState(run).Reg(0), LastState(run).rets, run[0].trace[0].Reg(0))
  {
    hide Hosts, PortOf, Enough, DecodesInPlace, LayoutContract, GraphContract, Fixpoint, ResolveAt, IsRun,
         BlockContaining, BlockAt, Longest, Means;
    SelfIsHosted(e.port);
    SelfIsListed();
    SelfIsOneFunction(e.port);
    OneIsNotTheArgument();
    LargeLimitsSuffice(e, QueryFor(e, 0, 0, 0, SELF));
    EntryIsAnsweredWithTheSeed(e, 0, 0, 0, 0);
    run := SelfRuns(e.port);
  }

  // -- backward: a definition-free path from the entry can be run --------------------------------------

  ghost predicate AllSupported(port: IdaPort, blocks: seq<Block>) {
    forall b, ea :: b in blocks && b.startEa <= ea < b.endEa && port.decodeAt(ea).Some? ==> Supported(port, port.decodeAt(ea).value)
  }

  lemma {:induction false} CodeCanRun(port: IdaPort, func: int, code: seq<Instruction>, m: MState) returns (trace: seq<MState>)
    requires LayoutContract(port) && InRange(port, m) && forall instr :: instr in code ==> Supported(port, instr)
    ensures ExecutesAll(port, func, code, trace) && trace[0] == m && InRange(port, trace[|trace| - 1])
  {
    hide Executes, InRange, Supported, LayoutContract;
    trace := [m];
    if code != [] {
      var n := |code| - 1;
      assert forall instr :: instr in code[..n] ==> instr in code;
      var front := CodeCanRun(port, func, code[..n], m);
      assert code[n] in code;
      var next := CanExecute(port, func, code[n], front[n]);
      ExecutionIsInRange(port, func, code[n], front[n], next);
      trace := front + [next];
      forall i | 0 <= i < |code| ensures Executes(port, func, code[i], trace[i], trace[i + 1]) {
        if i < n { assert Executes(port, func, code[..n][i], front[i], front[i + 1]); }
      }
    }
  }

  lemma ListedCodeIsSupported(port: IdaPort, blocks: seq<Block>, b: Block, hi: int)
    requires AllSupported(port, blocks) && b in blocks && hi <= b.endEa
    ensures forall instr :: instr in Code(port, b.startEa, hi) ==> Supported(port, instr)
  {
    hide Supported;
    CodeIsDecoded(port, b.startEa, hi);
  }

  /** The machine can take the path, and finds at its end what it held on entry. */
  lemma {:induction false} BarePathRuns(f: Flow, entryStart: int, boundary: int, path: seq<Block>, m: MState) returns (run: seq<Hop>)
    requires Asks(f) && GraphContract(f.blocks) && AllSupported(f.port, f.blocks) && InRange(f.port, m) && m.rets == {}
    requires Bare(f, entryStart, boundary, path) && PathIsQuiet(f, boundary, path, Entry) && boundary <= path[0].endEa
    ensures IsRun(f.port, f.func, f.blocks, entryStart, run, boundary)
    ensures run[|run| - 1].block == path[0] && |run[|run| - 1].trace| > 0 && ValueOf(f.target, LastState(run)) == ValueOf(f.target, m)
    decreases |path|
  {
    hide AllSupported, InRange, Executes, LayoutContract, Quiet, Successors, BlockAt, LastDef, Predecessors, GraphContract;
    var b := path[0];
    ListedCodeIsSupported(f.port, f.blocks, b, boundary);
    if |path| == 1 {
      var trace := CodeCanRun(f.port, f.func, Code(f.port, b.startEa, boundary), m);
      UnwrittenKeepsTheValue(f, b.startEa, boundary, trace);
      ListedBlockIsFound(f.blocks, b);
      run := [Hop(b, trace)];
    } else {
      var earlier := BarePathRuns(f, entryStart, path[1].endEa, path[1..], m);
      RunStaysInRange(f, entryStart, earlier, path[1].endEa);
      var trace := CodeCanRun(f.port, f.func, Code(f.port, b.startEa, boundary), LastState(earlier));
      UnwrittenKeepsTheValue(f, b.startEa, boundary, trace);
      PredecessorLeadsOn(f.blocks, path[1], b);
      run := RunGoesOn(f, entryStart, earlier, b, boundary, trace);
    }
  }

  lemma ListedBlockIsFound(blocks: seq<Block>, b: Block)
    requires GraphContract(blocks) && b in blocks
    ensures BlockAt(blocks, b.startEa) == Some(b)
  {
    BlockIsFoundByItsStart(blocks, b);
  }

  lemma PredecessorLeadsOn(blocks: seq<Block>, p: Block, b: Block)
    requires GraphContract(blocks) && b in blocks && p in Predecessors(blocks, b)
    ensures b in Successors(blocks, p)
  {
    assert p in blocks;
  }

  lemma RunGoesOn(f: Flow, entryStart: int, earlier: seq<Hop>, b: Block, boundary: int, trace: seq<MState>) returns (run: seq<Hop>)
    requires |earlier| > 0 && |earlier[|earlier| - 1].trace| > 0
    requires IsRun(f.port, f.func, f.blocks, entryStart, earlier, earlier[|earlier| - 1].block.endEa)
    requires b in Successors(f.blocks, earlier[|earlier| - 1].block)
    requires ExecutesAll(f.port, f.func, Code(f.port, b.startEa, boundary), trace) && trace[0] == LastState(earlier)
    ensures IsRun(f.port, f.func, f.blocks, entryStart, run, boundary) && run == earlier + [Hop(b, trace)]
  {
    hide InRange, Successors, BlockAt, Executes, Code;
    run := earlier + [Hop(b, trace)];
    var n := |earlier|;
    forall i | 0 <= i < |run|
      ensures ExecutesAll(f.port, f.func, Code(f.port, run[i].block.startEa, if i == |run| - 1 then boundary else run[i].block.endEa), run[i].trace)
    {
      if i < n { assert run[i] == earlier[i]; }
    }
    forall i | 0 <= i < |run| - 1
      ensures run[i + 1].block in Successors(f.blocks, run[i].block) && run[i + 1].trace[0] == run[i].trace[|run[i].trace| - 1]
    {
      if i < n - 1 { assert run[i] == earlier[i] && run[i + 1] == earlier[i + 1]; }
    }
  }

  // -- backward: when a constant is right ----------------------------------------------------------------

  ghost predicate HoldsInEveryRun(port: IdaPort, func: int, entryStart: int, t: Target, before: int, word: int) {
    forall run: seq<Hop> :: RunsTo(port, func, entryStart, run, before) ==>
      |run| > 0 && |run[|run| - 1].trace| > 0 && ValueOf(t, LastState(run)) == word
  }

  /** Some path leads from the entry to the use without a definition. */
  ghost predicate ReachedBare(r: Resolver, func: int, entryStart: int, t: Target, before: int) {
    exists path :: Bare(FlowOf(r, func, t), entryStart, before, path) && BlockContaining(r.port.flowchart(func), before) == Some(path[0])
  }

  /** Nothing disturbs the target along such a path, and every instruction can be executed. */
  ghost predicate BarePathsCanRun(r: Resolver, func: int, entryStart: int, t: Target, before: int) {
    && AllSupported(r.port, r.port.flowchart(func)) && Roomy(r.port, t)
    && forall path :: Bare(FlowOf(r, func, t), entryStart, before, path)
                      && BlockContaining(r.port.flowchart(func), before) == Some(path[0]) ==>
         PathIsQuiet(FlowOf(r, func, t), before, path, Entry)
  }

  lemma MoreQueriesFit(r: Resolver, func: int, t: Target, before: int, queries: Queries, more: Queries)
    requires PathsFit(r, func, t, before, queries) && queries <= more
    ensures PathsFit(r, func, t, before, more)
  {
    var f, block := FlowOf(r, func, t), BlockContaining(r.port.flowchart(func), before);
    hide Reaches, PathIsQuiet, Supported, MemorySupported, Decide, Dispatch, Extract;
    forall path, ea | Reaches(f, before, path, Def(ea)) && |path| > 0 && path[0] == block.value
      ensures r.port.decodeAt(ea).Some? && DefinitionFits(r, func, t, ea, more)
    {
      assert DefinitionFits(r, func, t, ea, queries);
    }
  }

  lemma QueryIsAdded(r: Resolver, func: int, entryStart: int, t: Target, before: int, queries: Queries) returns (more: Queries)
    requires Closed(r, func, entryStart, queries) && PathsFit(r, func, t, before, queries) && !ReachedBare(r, func, entryStart, t, before)
    ensures Closed(r, func, entryStart, more) && (t, before) in more
  {
    hide PathsFit, Bare;
    more := queries + iset{(t, before)};
    forall u, ea | (u, ea) in more ensures Answerable(r, func, entryStart, u, ea, more) {
      if (u, ea) in queries { assert Answerable(r, func, entryStart, u, ea, queries); }
      MoreQueriesFit(r, func, u, ea, queries, more);
    }
  }

  lemma UnreachedConstantHolds(r: Resolver, func: int, entryStart: int, t: Target, before: int, queries: Queries, b: Budget)
    requires BackwardHypotheses(r.port, func) && Closed(r, func, entryStart, queries) && PathsFit(r, func, t, before, queries)
    requires !ReachedBare(r, func, entryStart, t, before)
    requires var found := Search(r, t, before, func, b).0; found.Found? && found.value.Concrete?
    ensures HoldsInEveryRun(r.port, func, entryStart, t, before, Search(r, t, before, func, b).0.value.value)
  {
    hide Closed, PathsFit, ReachedBare, BackwardHypotheses, Search, RunsTo;
    var more := QueryIsAdded(r, func, entryStart, t, before, queries);
    forall run: seq<Hop> | RunsTo(r.port, func, entryStart, run, before)
      ensures |run| > 0 && |run[|run| - 1].trace| > 0 && ValueOf(t, LastState(run)) == Search(r, t, before, func, b).0.value.value
    {
      RunEnds(r, func, entryStart, run, before);
      SearchHolds(r, func, entryStart, more, t, run, before, b);
    }
  }

  lemma BareEntryIsLost(r: Resolver, func: int, entryStart: int, t: Target, before: int, word: int)
    requires BackwardHypotheses(r.port, func) && Askable(r.port, t) && BarePathsCanRun(r, func, entryStart, t, before)
    requires ReachedBare(r, func, entryStart, t, before)
    ensures !HoldsInEveryRun(r.port, func, entryStart, t, before, word)
  {
    var f := FlowOf(r, func, t);
    var path :| Bare(f, entryStart, before, path) && BlockContaining(r.port.flowchart(func), before) == Some(path[0]);
    assert PathIsQuiet(f, before, path, Entry) && |path| > 0;
    hide Bare, PathIsQuiet, LayoutContract, GraphContract, DecodesInPlace, IsRun, InRange, AllSupported, Askable;
    ZeroIsInRange(r.port);
    var m := Changed(t, Other(word), ZERO);
    ChangedIsInRange(r.port, t, Other(word), ZERO);
    var run := BarePathRuns(f, entryStart, before, path, m);
    assert RunsTo(r.port, func, entryStart, run, before);
  }

  /** Given that the definitions fit, a constant that the walk answers is what every run holds
    exactly when no path leads from the entry to the use without a definition.  The walk says
    nothing of such a path when the entry has predecessors. */
  lemma ConstantsHoldExactly(r: Resolver, func: int, entryStart: int, t: Target, before: int, queries: Queries, b: Budget)
    requires BackwardHypotheses(r.port, func) && Closed(r, func, entryStart, queries) && PathsFit(r, func, t, before, queries)
    requires BarePathsCanRun(r, func, entryStart, t, before)
    requires var found := Search(r, t, before, func, b).0; found.Found? && found.value.Concrete?
    ensures HoldsInEveryRun(r.port, func, entryStart, t, before, Search(r, t, before, func, b).0.value.value) <==>
      !ReachedBare(r, func, entryStart, t, before)
  {
    assert Askable(r.port, t);
    hide Closed, PathsFit, ReachedBare, BackwardHypotheses, Search, HoldsInEveryRun, BarePathsCanRun, Askable;
    if ReachedBare(r, func, entryStart, t, before) {
      BareEntryIsLost(r, func, entryStart, t, before, Search(r, t, before, func, b).0.value.value);
    } else {
      UnreachedConstantHolds(r, func, entryStart, t, before, queries, b);
    }
  }

  // -- backward: a program whose entry is not joined ---------------------------------------------------

  /** 0: mov rax, 5, and round again. */
  const FIVE := SetTo(0, 0, 5)
  const ROUND := Block(0, 2, [0], [0])
  const FIVES: Program := map[0 := FIVE]

  lemma RoundIsListed()
    ensures GraphContract([ROUND]) && BlockAt([ROUND], 0) == Some(ROUND) && Predecessors([ROUND], ROUND) == [ROUND]
    ensures forall ea :: 0 <= ea < 2 ==> BlockContaining([ROUND], ea) == Some(ROUND)
    ensures forall ea :: BlockContaining([ROUND], ea).Some? ==> 0 <= ea < 2
  {
    assert BlocksAt([ROUND], [0]) == [ROUND] by { assert [0][1..] == []; }
  }

  lemma FivesAreHosted(port: IdaPort)
    requires port == PortOf(FIVES, [ROUND], map[])
    ensures Hosts(port, FIVES, [ROUND], map[]) && BackwardHypotheses(port, 0)
    ensures port.PrevHead(0, 0) == None && port.PrevHead(2, 0) == Some(0) && port.decodeAt(0) == Some(FIVE)
    ensures port.flowchart(0) == [ROUND] && port.funcStart(0) == Some(0) && HasWords(port)
  {
    RoundIsListed();
    Hosted(FIVES, [ROUND], map[]);
    hide PortOf, LayoutContract, DecodesInPlace, HasWords, GraphContract, BlockContaining;
    assert port.isHead(0) && !port.isHead(1);
    assert port.PrevHead(1, 0) == Some(0);
  }

  lemma FiveDecides(port: IdaPort)
    requires HasWords(port)
    ensures Decide(port, Register(0), FIVE, 0) == Define(0)
  {
    TwoReads(0, "mov", Reg(0, 0), Imm(1, 5), false);
    MnemonicsDiffer("mov");
    hide FindOperand, Flag, StartsWith;
  }

  lemma FiveDefines(port: IdaPort)
    requires HasWords(port)
    ensures Decide(port, Register(0), FIVE, 0) == Define(0) && Dispatch(BUILTINS, FIVE) == Some(MovRegImm)
    ensures Extract(MovRegImm, FIVE, 0, port.pointerSize) == Done(Concrete(5, IntKind))
  {
    FiveDecides(port);
    TwoReads(0, "mov", Reg(0, 0), Imm(1, 5), false);
    hide HasWords, Decide, FindOperand, Flag, StartsWith, Dispatch;
    assert BUILTINS[2] == MovRegImm;
    DispatchFindsTheMatch(BUILTINS, MovRegImm, FIVE);
  }

  lemma ScanFindsFive(r: Resolver, b: Budget)
    requires r.port == PortOf(FIVES, [ROUND], map[]) && r.locators == BUILTINS && b.Step().StepsLast()
    ensures Scan(r, Register(0), Some(0), 0, 0, b).0 == Some(Concrete(5, IntKind))
  {
    hide PortOf, Hosts, HasWords, Decide, Dispatch, Extract, BackwardHypotheses, Scan;
    FivesAreHosted(r.port);
    FiveDefines(r.port);
    ScanDefines(r, Register(0), 0, 0, 0, b, FIVE, 0);
  }

  /** Over the back edge the walk comes to the `mov`. */
  lemma BackEdgeFindsFive(r: Resolver, b: Budget)
    requires r.port == PortOf(FIVES, [ROUND], map[]) && r.locators == BUILTINS && b.Step().StepsLast()
    ensures WalkAll(r, Register(0), [ROUND], 0, [ROUND], {0}, b).0 == [Found(Concrete(5, IntKind))]
  {
    hide PortOf, Hosts, HasWords, BackwardHypotheses, Scan, Predecessors;
    FivesAreHosted(r.port);
    ScanFindsFive(r, b);
    OnePredecessor(r, b);
    assert Walk(r, Register(0), 2, ROUND, 0, [ROUND], {0}, b).0 == Found(Concrete(5, IntKind));
  }

  lemma WalkFindsFive(r: Resolver, b: Budget)
    requires r.port == PortOf(FIVES, [ROUND], map[]) && r.locators == BUILTINS && b.Step().StepsLast() && b.StepBlock().BlocksLast()
    ensures Walk(r, Register(0), 0, ROUND, 0, [ROUND], {}, b).0 == Found(Concrete(5, IntKind))
  {
    hide PortOf, Hosts, HasWords, BackwardHypotheses, Scan, Predecessors, GraphContract, WalkAll, Combine;
    FivesAreHosted(r.port);
    RoundIsListed();
    ScansNothing(r, b);
    BackEdgeFindsFive(r, b.StepBlock().Expand());
    assert {} + {ROUND.startEa} == {0};
    OneIsCombined(Concrete(5, IntKind));
  }

  lemma ScansNothing(r: Resolver, b: Budget)
    ensures Scan(r, Register(0), None, 0, 0, b) == (None, b)
  {}

  lemma OnePredecessor(r: Resolver, b: Budget)
    ensures WalkAll(r, Register(0), [ROUND], 0, [ROUND], {0}, b).0 == [Walk(r, Register(0), 2, ROUND, 0, [ROUND], {0}, b).0]
  {
    hide Walk;
    assert [ROUND][..0] == [] && WalkAll(r, Register(0), [], 0, [ROUND], {0}, b) == ([], b);
  }

  lemma OneIsCombined(v: Value)
    ensures Combine([Found(v)]) == Found(v)
  {
    assert [Found(v)][..0] == [] && [v][..0] == [];
    assert Informative([]) == [] && FoundValues([]) == [];
    assert Informative([Found(v)]) == [] + [Found(v)] == [Found(v)];
    assert FoundValues([Found(v)]) == [] + [v] == [v];
  }

  lemma SearchFindsFive(r: Resolver, b: Budget)
    requires r.port == PortOf(FIVES, [ROUND], map[]) && r.locators == BUILTINS && b.Step().StepsLast() && b.StepBlock().BlocksLast()
    ensures Search(r, Register(0), 0, 0, b).0 == Found(Concrete(5, IntKind))
  {
    hide PortOf, Hosts, HasWords, BackwardHypotheses, Walk, Predecessors, GraphContract, BlockContaining, BlockAt;
    FivesAreHosted(r.port);
    RoundIsListed();
    WalkFindsFive(r, b);
  }

  lemma EntryRuns(port: IdaPort) returns (run: seq<Hop>)
    requires port == PortOf(FIVES, [ROUND], map[])
    ensures RunsTo(port, 0, 0, run, 0) && |run| == 1 && |run[0].trace| > 0 && LastState(run).Reg(0) == 0
  {
    hide PortOf, Hosts, HasWords, BackwardHypotheses, Predecessors, GraphContract, InRange, BlockContaining, BlockAt;
    FivesAreHosted(port);
    RoundIsListed();
    ZeroIsInRange(port);
    run := [Hop(ROUND, [ZERO])];
    assert Code(port, 0, 0) == [];
  }

  /** On entry `rax` holds whatever it held; asked for it there, the walk answers the 5 that
    comes back over the loop's edge, and nothing else is amiss. */
  lemma EntryIsAnsweredFromTheBackEdge(b: Budget) returns (run: seq<Hop>)
    requires b.Step().Step().StepsLast() && b.StepBlock().BlocksLast()
    ensures var r := Resolver(PortOf(FIVES, [ROUND], map[]), BUILTINS);
      && ResolveRegister(r, 0, 0, b).0 == Concrete(5, IntKind)
      && BackwardHypotheses(r.port, 0) && RunsTo(r.port, 0, 0, run, 0)
      && |run| == 1 && |run[0].trace| > 0 && LastState(run).Reg(0) == 0
  {
    hide PortOf, Hosts, HasWords, BackwardHypotheses, Search, RunsTo;
    var r := Resolver(PortOf(FIVES, [ROUND], map[]), BUILTINS);
    FivesAreHosted(r.port);
    SearchFindsFive(r, b.Step());
    ResolvesBySearch(r, 0, 0, b);
    run := EntryRuns(r.port);
  }
}
