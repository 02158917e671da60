/** A visit cap that is too small makes the forward engine guess: the visit that would have
  joined the loop's second value is skipped in silence.  The program that shows it meets
  every other hypothesis of the engine, and all of them once the cap is large enough. */
module VisitCap {
  import opened Values
  import opened InsnModel
  import opened Port
  import opened State
  import opened Locators
  import opened Arithmetic
  import opened Machine
  import opened ForwardSpec
  import opened ForwardStep
  import opened ForwardSoundness
  import opened Widening
  import opened Progress
  import opened Programs

  /** 0: mov rax, 1;  1: add rax, 1, and round again. */
  const MOV := SetTo(0, 0, 1)
  const ADD := AddTo(1, 0, 1)
  const ENTRY := Block(0, 1, [1], [])
  const LOOP := Block(1, 2, [1], [0, 1])
  const CODE: Program := map[0 := MOV, 1 := ADD]
  const QUERY := Query([ENTRY, LOOP], 0, EMPTY.With(Some(0), Symbolic(Arg(0))), 0)

  /** The engine over the specification port that allows that many visits. */
  function Counter(cap: int): Engine { Engine(PortOf(CODE, QUERY.blocks, map[]), BUILTINS, 100, cap, 3) }

  function Rax(v: Value): State { State(map[0 := v], map[]) }

  function Int(n: int): Value { Concrete(n, IntKind) }

  ghost predicate Setting(e: Engine) {
    Hosts(e.port, CODE, QUERY.blocks, map[]) && e.locators == BUILTINS && e.maxInstructions == 100 && e.loopWidenAfter == 3
  }

  lemma CounterIsInTheSetting(cap: int)
    ensures Setting(Counter(cap))
  {
    Hosted(CODE, QUERY.blocks, map[]);
    hide Hosts;
  }

  lemma Operands()
    ensures MOV.OperandAt(0) == Some(Reg(0, 0)) && MOV.OperandAt(1) == Some(Imm(1, 1)) && Matches(MovRegImm, MOV)
    ensures ADD.OperandAt(0) == Some(Reg(0, 0)) && ADD.OperandAt(1) == Some(Imm(1, 1)) && Matches(AddSubRegImm, ADD)
  {
    TwoReads(0, "mov", Reg(0, 0), Imm(1, 1), false);
    TwoReads(1, "add", Reg(0, 0), Imm(1, 1), true);
    hide FindOperand;
  }

  lemma MovSteps(e: Engine, s: State)
    requires Setting(e)
    ensures Step(e, MOV, 0, s) == s.With(Some(0), Int(1))
  {
    Operands();
    hide FindOperand, HasWords, Step, LayoutContract, DecodesInPlace;
    assert BUILTINS[2] == MovRegImm;
    LocatorSteps(e, MovRegImm, MOV, 0, s);
  }

  lemma AddSteps(e: Engine, s: State)
    requires Setting(e)
    ensures Step(e, ADD, 0, s) == s.With(Some(0), ForwardAdjust(1, 8, s.Register(0)))
  {
    Operands();
    hide FindOperand, HasWords, Step, LayoutContract, DecodesInPlace, ForwardAdjust;
    assert BUILTINS[12] == AddSubRegImm;
    LocatorSteps(e, AddSubRegImm, ADD, 0, s);
  }

  lemma AdjustsByOne(n: int)
    requires 0 <= n < 9
    ensures ForwardAdjust(1, 8, Int(n)) == Int(n + 1)
  {
    SmallWordsDoNotWrap(n + 1);
  }

  // -- the engine's three turns ------------------------------------------------------------

  const SEED := Rax(Symbolic(Arg(0)))
  const AFTER_ENTRY := Work([1], map[0 := SEED], map[0 := Rax(Int(1))], map[0 := 1, 1 := 0], 1, false, false)
  const AFTER_LOOP := Work([1], map[0 := SEED, 1 := Rax(Int(1))], map[0 := Rax(Int(1)), 1 := Rax(Int(2))], map[0 := 1, 1 := 1], 2, false, false)
  const AT_THE_END := AFTER_LOOP.(worklist := [], visits := map[0 := 1, 1 := 2], capped := true)

  lemma Graph()
    ensures BlockAt(QUERY.blocks, 0) == Some(ENTRY) && BlockAt(QUERY.blocks, 1) == Some(LOOP)
    ensures Predecessors(QUERY.blocks, LOOP) == [ENTRY, LOOP] && Predecessors(QUERY.blocks, ENTRY) == []
    ensures Successors(QUERY.blocks, ENTRY) == [LOOP] && Successors(QUERY.blocks, LOOP) == [LOOP]
  {
    assert QUERY.blocks[..1] == [ENTRY];
    assert BlockAt([ENTRY], 0) == Some(ENTRY);
    assert [0, 1][1..] == [1];
    assert BlocksAt(QUERY.blocks, [1]) == [LOOP];
  }

  /** The first visit of a block. */
  lemma FirstVisit(e: Engine, w: Work, block: Block, input: State, out: State, used: int)
    requires w.worklist == [block.startEa] && !w.exceeded && block.startEa !in w.ins
    requires BlockAt(QUERY.blocks, block.startEa) == Some(block) && w.Visits(block.startEa) == 0 && e.maxBlockVisits == 1
    requires ComputedIn(e, QUERY, w, block, 1) == Some(input)
    requires Simulate(e, block.startEa, block.endEa, None, 0, input, w.used) == Simulated(out, false, used)
    requires Starts(Successors(QUERY.blocks, block)) == [1]
    ensures Turn(e, QUERY, w) == Work([1], w.ins[block.startEa := input], w.outs[block.startEa := out],
                                      w.visits[block.startEa := 1], used, false, w.capped)
  {
    hide BlockAt, ComputedIn, Simulate, Successors;
    assert QUERY.func == 0 && w.worklist[1..] + [1] == [1];
  }

  lemma EntrySimulates(e: Engine)
    requires Setting(e)
    ensures Simulate(e, 0, 1, None, 0, SEED, 0) == Simulated(Rax(Int(1)), false, 1)
  {
    MovSteps(e, SEED);
    hide Step;
    assert SEED.With(Some(0), Int(1)) == Rax(Int(1));
    assert e.port.decodeAt(0) == Some(MOV);
  }

  lemma EntryStartsFromTheSeed(e: Engine)
    ensures ComputedIn(e, QUERY, Begin(QUERY), ENTRY, 1) == Some(SEED)
  {
    assert QUERY.initial == SEED;
  }

  lemma EntryTurn(e: Engine)
    requires Setting(e) && e.maxBlockVisits == 1
    ensures Turn(e, QUERY, Begin(QUERY)) == AFTER_ENTRY
  {
    hide Turn, Simulate, BlockAt, Successors, ComputedIn, Setting, Begin, JoinPredecessors, Hosts, Predecessors;
    Graph();
    EntrySimulates(e);
    EntryStartsFromTheSeed(e);
    BeginsUnvisited();
    assert Starts([LOOP]) == [1];
    FirstVisit(e, Begin(QUERY), ENTRY, SEED, Rax(Int(1)), 1);
  }

  lemma BeginsUnvisited()
    ensures Begin(QUERY) == Work([0], map[], map[], map[0 := 0, 1 := 0], 0, false, false)
  {
    assert Starts(QUERY.blocks) == [0, 1];
  }

  lemma OnlyTheEntryIsJoined()
    ensures JoinPredecessors(QUERY, LOOP, AFTER_ENTRY.outs) == Some(Rax(Int(1)))
  {
    Graph();
    hide Successors, Predecessors, BlockAt;
    var one := Rax(Int(1));
    assert [ENTRY, LOOP][..1] == [ENTRY] && [ENTRY][..0] == [];
    assert Available([ENTRY], AFTER_ENTRY.outs) == [one];
    assert Available([ENTRY, LOOP], AFTER_ENTRY.outs) == [one];
    assert RegisterKeys([one]) == {0} && SlotKeys([one]) == {} && RegistersOf([one], 0) == [Int(1)];
    assert JoinStates([one]) == one;
  }

  lemma LoopSimulates(e: Engine)
    requires Setting(e)
    ensures Simulate(e, 1, 2, None, 0, Rax(Int(1)), 1) == Simulated(Rax(Int(2)), false, 2)
  {
    AddSteps(e, Rax(Int(1)));
    AdjustsByOne(1);
    hide Step, ForwardAdjust;
    assert Rax(Int(1)).With(Some(0), Int(2)) == Rax(Int(2));
    assert e.port.decodeAt(1) == Some(ADD);
  }

  lemma LoopTurn(e: Engine)
    requires Setting(e) && e.maxBlockVisits == 1
    ensures Turn(e, QUERY, AFTER_ENTRY) == AFTER_LOOP
  {
    hide Turn, Simulate, BlockAt, Successors, JoinPredecessors, Setting, Begin, Hosts, Predecessors;
    Graph();
    OnlyTheEntryIsJoined();
    LoopSimulates(e);
    assert Starts([LOOP]) == [1];
    FirstVisit(e, AFTER_ENTRY, LOOP, Rax(Int(1)), Rax(Int(2)), 2);
  }

  lemma CappedTurn(e: Engine)
    requires Setting(e) && e.maxBlockVisits == 1
    ensures Turn(e, QUERY, AFTER_LOOP) == AT_THE_END
  {
    Graph();
    hide BlockAt;
  }

  lemma EndsCapped(e: Engine)
    requires Setting(e) && e.maxBlockVisits == 1
    ensures Fixpoint(e, QUERY) == AT_THE_END
  {
    hide Turn, Iterate;
    EntryTurn(e);
    LoopTurn(e);
    CappedTurn(e);
    IterateTurns(e, QUERY, Begin(QUERY));
    IterateTurns(e, QUERY, AFTER_ENTRY);
    IterateTurns(e, QUERY, AFTER_LOOP);
    IterateTurns(e, QUERY, AT_THE_END);
  }

  lemma AnswersOne(e: Engine)
    requires Setting(e) && e.maxBlockVisits == 1
    ensures ResolveAt(e, 0, 0, 1, Some(0)) == Int(1)
  {
    EndsCapped(e);
    assert e.port.flowchart(0) == [ENTRY, LOOP];
    assert BlockContaining([ENTRY, LOOP], 0) == Some(ENTRY);
    assert [ENTRY, LOOP][1..] == [LOOP] && BlockContaining([LOOP], 1) == Some(LOOP) && BlockContaining([ENTRY, LOOP], 1) == Some(LOOP);
    assert QueryFor(e, 0, 0, 0, ENTRY) == QUERY;
    hide Fixpoint, BlockContaining;
  }

  // -- its instructions ---------------------------------------------------------------------

  lemma OwnLocatorIsForward(e: Engine)
    requires Setting(e)
    ensures ForwardSupported(e, MOV, 0) && ForwardSupported(e, ADD, 0)
  {
    Operands();
    hide FindOperand, Hosts, Matches, ForwardSupported;
    assert BUILTINS[2] == MovRegImm && BUILTINS[12] == AddSubRegImm;
    LocatorIsForward(e, MovRegImm, MOV, 0);
    LocatorIsForward(e, AddSubRegImm, ADD, 0);
  }

  lemma Fits(e: Engine)
    requires Setting(e)
    ensures Supported(e.port, MOV) && ForwardSupported(e, MOV, 0)
    ensures Supported(e.port, ADD) && ForwardSupported(e, ADD, 0)
  {
    hide Supported, ForwardSupported, LayoutContract, DecodesInPlace, HasWords;
    SmallWordsDoNotWrap(1);
    SetFits(e.port, 0, 0, 1);
    AddFits(e.port, 1, 0, 1);
    OwnLocatorIsForward(e);
  }

  lemma GraphIsListed()
    ensures GraphContract(QUERY.blocks)
  {
    Graph();
    hide Predecessors, Successors;
  }

  lemma HypothesesHold(cap: int)
    ensures ForwardHypotheses(Counter(cap), QUERY) && Whole(Counter(cap).port, 0)
  {
    hide LayoutContract, DecodesInPlace, GraphContract, Counter;
    CounterIsInTheSetting(cap);
    GraphIsListed();
  }

  // -- what can be trusted of it ----------------------------------------------------------------

  /** `rax` can be trusted everywhere but on entry. */
  function TrustedRax(start: int, ea: int): iset<Target> { if ea == 0 then iset{} else iset{Register(0)} }

  lemma NothingIsHidden(port: IdaPort, instr: Instruction)
    requires instr == MOV || instr == ADD
    ensures !HiddenlyWrites(port, 0, instr, Register(0))
  {
    assert instr.mnem[0] == 'm' || instr.mnem[0] == 'a';
    assert ImplicitNames(instr) == {};
  }

  lemma MovIsTrusted(e: Engine)
    requires Setting(e)
    ensures StepTrusts(e, 0, MOV, iset{}, iset{Register(0)})
  {
    Fits(e);
    NothingIsHidden(e.port, MOV);
    forall s: State { MovSteps(e, s); }
    hide Supported, ForwardSupported, HiddenlyWrites, Step, Setting, Restrict;
  }

  lemma AddReadsOnlyRax(e: Engine, s: State)
    requires Setting(e)
    ensures SameAt(Step(e, ADD, 0, Restrict(s, iset{Register(0)})), Step(e, ADD, 0, s), Register(0))
  {
    var rax := iset{Register(0)};
    hide Setting, Step, Restrict, ForwardAdjust;
    AddSteps(e, s);
    AddSteps(e, Restrict(s, rax));
    RestrictedSays(s, rax);
  }

  lemma AddIsTrusted(e: Engine)
    requires Setting(e)
    ensures StepTrusts(e, 0, ADD, iset{Register(0)}, iset{Register(0)})
  {
    hide Supported, ForwardSupported, HiddenlyWrites, Step, Setting, Restrict, SameAt, Knows;
    Fits(e);
    NothingIsHidden(e.port, ADD);
    forall s: State ensures SameAt(Step(e, ADD, 0, Restrict(s, iset{Register(0)})), Step(e, ADD, 0, s), Register(0)) {
      AddReadsOnlyRax(e, s);
    }
  }

  lemma RaxIsTrusted(e: Engine)
    requires Setting(e)
    ensures Trusted(e, QUERY, LOOP, 1, Register(0))
  {
    hide StepTrusts, Successors, BlockTrusts, Setting, StopsAt;
    Graph();
    var trust: Trust := TrustedRax;
    BlocksAreTrusted(e, trust);
    assert Trusts(e, QUERY, trust);
  }

  lemma BlocksAreTrusted(e: Engine, trust: Trust)
    requires Setting(e) && trust == TrustedRax
    ensures BlockTrusts(e, 0, ENTRY, trust) && BlockTrusts(e, 0, LOOP, trust)
    ensures StopsAt(e.port, 0, 1) == 1 && StopsAt(e.port, 1, 2) == 2 && StopsAt(e.port, 1, 1) == 1
  {
    MovIsTrusted(e);
    AddIsTrusted(e);
    hide StepTrusts, LayoutContract, DecodesInPlace, HasWords;
    assert e.port.decodeAt(0) == Some(MOV) && e.port.decodeAt(1) == Some(ADD);
    assert StopsAt(e.port, 1, 1) == 1 && StopsAt(e.port, 2, 2) == 2;
  }

  // -- runs of it -------------------------------------------------------------------------------

  /** Once round the loop. */
  lemma LoopRuns(e: Engine) returns (run: seq<Hop>)
    requires Setting(e)
    ensures IsRun(e.port, 0, QUERY.blocks, 0, run, 1) && run[|run| - 1].block == LOOP && LastState(run).Reg(0) == 2
  {
    hide Executes, InRange, Successors, BlockAt, LayoutContract, DecodesInPlace, HasWords, Pow2, Code;
    Graph();
    ZeroIsInRange(e.port);
    SmallWordsDoNotWrap(1);
    SmallWordsDoNotWrap(2);
    var m1 := SetRuns(e.port, 0, 0, 0, 1, ZERO);
    var m2 := AddRuns(e.port, 0, 1, 0, 1, m1);
    run := [Hop(ENTRY, [ZERO, m1]), Hop(LOOP, [m1, m2]), Hop(LOOP, [m2])];
    CodeIsLaidOut(e);
  }

  lemma CodeIsLaidOut(e: Engine)
    requires Setting(e)
    ensures Code(e.port, 0, 1) == [MOV] && Code(e.port, 1, 2) == [ADD] && Code(e.port, 1, 1) == []
  {
    hide LayoutContract, DecodesInPlace, HasWords;
    assert Code(e.port, 0, 0) == [] && Code(e.port, 1, 1) == [];
  }

  /** With one visit allowed per block, the engine answers that `rax` is 1 at the head of
    the loop, where a run that has been round once holds 2: nothing else is amiss. */
  lemma CappedAnswersCanBeWrong() returns (run: seq<Hop>)
    ensures var e := Counter(1);
      && ForwardHypotheses(e, QUERY) && Whole(e.port, 0) && Trusted(e, QUERY, LOOP, 1, Register(0))
      && ResolveAt(e, 0, 0, 1, Some(0)) == Int(1)
      && IsRun(e.port, 0, QUERY.blocks, 0, run, 1) && run[|run| - 1].block == LOOP && LastState(run).Reg(0) == 2
  {
    hide ForwardHypotheses, Whole, Trusted, ForwardSpec.ResolveAt, IsRun;
    HypothesesHold(1);
    CounterIsInTheSetting(1);
    RaxIsTrusted(Counter(1));
    AnswersOne(Counter(1));
    run := LoopRuns(Counter(1));
  }

  /** The same program with as many visits as widening can come to need meets every
    hypothesis under which a forward answer holds. */
  lemma ForwardHypothesesCanBeMet() returns (e: Engine, run: seq<Hop>)
    ensures e == Counter(Enough(Counter(1), QUERY))
    ensures BlockContaining(e.port.flowchart(0), 0) == Some(ENTRY) && BlockContaining(e.port.flowchart(0), 1) == Some(LOOP)
    ensures QueryFor(e, 0, 0, 0, ENTRY) == QUERY
    ensures ForwardHypotheses(e, QUERY) && Whole(e.port, 0) && Trusted(e, QUERY, LOOP, 1, Register(0))
    ensures Enough(e, QUERY) <= e.maxBlockVisits && !Fixpoint(e, QUERY).capped
    ensures IsRun(e.port, 0, QUERY.blocks, 0, run, 1) && run[|run| - 1].block == LOOP
  {
    hide Setting, Trusted, IsRun, Fixpoint, UniverseOf, Bound, Covers, ForwardHypotheses, Whole, BlockContaining;
    var cap := Enough(Counter(1), QUERY);
    e := Counter(cap);
    HypothesesHold(cap);
    CounterIsInTheSetting(cap);
    RaxIsTrusted(e);
    run := LoopRuns(e);
    CounterIsOneFunction();
    CapsShareTheBound(cap);
    HypothesesDecode(e);
    UniverseCovers(e, QUERY);
    LargeCapNeverFires(e, QUERY, UniverseOf(e, QUERY));
  }

  lemma HypothesesDecode(e: Engine)
    requires ForwardHypotheses(e, QUERY)
    ensures DecodesInPlace(e.port)
  {
    hide DecodesInPlace;
  }

  lemma CapsShareTheBound(cap: int)
    ensures Enough(Counter(cap), QUERY) == Enough(Counter(1), QUERY)
  {
    CounterIsInTheSetting(1);
    hide Enough;
    EnoughForAnyCap(Counter(1), QUERY, cap);
  }

  lemma CounterIsOneFunction()
    ensures forall cap :: Counter(cap).port.flowchart(0) == QUERY.blocks
    ensures forall cap, ea :: 0 <= ea < 2 ==> Counter(cap).port.funcStart(ea) == Some(0)
    ensures forall ea :: BlockContaining(QUERY.blocks, ea) == (if ea == 0 then Some(ENTRY) else if ea == 1 then Some(LOOP) else None)
  {
    assert QUERY.blocks[1..] == [LOOP];
    forall ea ensures BlockContaining([LOOP], ea) == (if ea == 1 then Some(LOOP) else None) {}
  }
}
