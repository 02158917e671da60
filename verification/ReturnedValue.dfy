/** A call whose result is moved to another register: backward, that register is answered with
  the symbol of the call. */
module ReturnedValue {
  import opened Values
  import opened InsnModel
  import opened Port
  import opened State
  import opened Locators
  import opened Registry
  import opened Machine
  import opened Progress
  import opened BackwardSpec
  import opened ReachingDefs
  import opened BackwardSoundness
  import opened Programs
  import opened Unseen

  /** 0: call;  1: mov rcx, rax. */
  const CALL := Instruction(0, "call", 1, [], [], [], true)
  const COPY := CopyTo(1, 1, 0)
  const CODE: Program := map[0 := CALL, 1 := COPY]

  ghost predicate Setting(r: Resolver) { Hosts(r.port, CODE, [BLOCK], map[]) && r.locators == BUILTINS }

  lemma Listed(r: Resolver)
    requires Setting(r)
    ensures r.port.decodeAt(0) == Some(CALL) && r.port.decodeAt(1) == Some(COPY) && r.port.returnValueReg == Some(0)
    ensures r.port.PrevHead(2, 0) == Some(1) && r.port.PrevHead(1, 0) == Some(0)
    ensures r.port.flowchart(0) == [BLOCK] && r.port.funcStart(1) == Some(0) && r.port.funcStart(2) == Some(0)
    ensures LayoutContract(r.port) && HasWords(r.port)
  {
    hide LayoutContract, DecodesInPlace, HasWords;
    assert r.port.isHead(0) && r.port.isHead(1);
    assert r.port.returnValueReg == Some(0) by { HasReturn(r); }
  }

  lemma HasReturn(r: Resolver)
    requires Setting(r)
    ensures r.port.returnValueReg == Some(0)
  {
    hide LayoutContract, DecodesInPlace;
  }

  lemma CopyReads()
    ensures COPY.OperandAt(0) == Some(Reg(0, 1)) && COPY.OperandAt(1) == Some(Reg(1, 0)) && COPY.IsWritten(0) && !COPY.IsCall()
    ensures Matches(MovRegReg, COPY)
  {
    TwoReads(1, "mov", Reg(0, 1), Reg(1, 0), false);
    MnemonicsDiffer("mov");
    hide FindOperand, Flag;
  }

  lemma CopyDecides(port: IdaPort)
    requires HasWords(port)
    ensures Decide(port, Register(1), COPY, 0) == Define(0)
  {
    CopyReads();
    hide FindOperand, Flag;
    assert DecideOperand(port, COPY, Reg(0, 1), 1) == Define(0);
    assert COPY.operands[0] == Reg(0, 1);
  }

  lemma CopyIsADefinition(r: Resolver)
    requires Setting(r)
    ensures Decide(r.port, Register(1), COPY, 0) == Define(0) && Dispatch(r.locators, COPY) == Some(MovRegReg)
    ensures Extract(MovRegReg, COPY, 0, r.port.pointerSize) == FromRegister(0, Same)
    ensures Supported(r.port, COPY) && MemorySupported(r.port, COPY)
  {
    CopyReads();
    Listed(r);
    hide Supported, FindOperand, Dispatch, LayoutContract, HasWords, Hosts, Matches, Decide;
    CopyFits(r.port, 1, 1, 0);
    CopyDecides(r.port);
    assert BUILTINS[1] == MovRegReg;
    DispatchFindsTheMatch(r.locators, MovRegReg, COPY);
    forall loc | Matches(loc, COPY) ensures loc == MovRegReg { BuiltinsAreDisjoint(loc, MovRegReg, COPY); }
  }

  lemma CallIsSupported(port: IdaPort)
    ensures Supported(port, CALL) && MemorySupported(port, CALL) && Matches(CallReturn, CALL)
  {
    assert Matches(CallReturn, CALL);
    hide FindOperand, StartsWith, Matches;
    forall loc | Matches(loc, CALL) ensures loc == CallReturn { BuiltinsAreDisjoint(loc, CallReturn, CALL); }
  }

  lemma CallIsADefinition(r: Resolver)
    requires Setting(r)
    ensures Decide(r.port, Register(0), CALL, 0) == Define(0) && Dispatch(r.locators, CALL) == Some(CallReturn)
    ensures Extract(CallReturn, CALL, 0, r.port.pointerSize) == Done(Symbolic(Ret(0)))
    ensures Supported(r.port, CALL) && MemorySupported(r.port, CALL)
  {
    Listed(r);
    CallIsSupported(r.port);
    assert CALL.IsCall();
    hide FindOperand, Dispatch, LayoutContract, HasWords, Hosts, Matches, Supported, MemorySupported;
    assert BUILTINS[10] == CallReturn;
    DispatchFindsTheMatch(r.locators, CallReturn, CALL);
  }

  // -- the answer ------------------------------------------------------------------------------------

  lemma CallIsFound(r: Resolver, b: Budget)
    requires Setting(r) && b.maxSteps - b.steps >= 2
    ensures ResolveRegister(r, 0, 1, b).0 == Symbolic(Ret(0))
  {
    Listed(r);
    CallIsADefinition(r);
    hide Setting, Decide, Dispatch, Extract, Scan, Search, LayoutContract, HasWords;
    ScanDefines(r, Register(0), 0, 0, 0, b.Step(), CALL, 0);
    SearchScans(r, Register(0), 1, 0, b.Step());
    ResolvesBySearch(r, 0, 1, b);
  }

  lemma CopyIsFound(r: Resolver, b: Budget)
    requires Setting(r) && b.maxSteps - b.steps >= 4
    ensures ResolveRegister(r, 1, 2, b).0 == Symbolic(Ret(0))
  {
    Listed(r);
    CopyIsADefinition(r);
    CallIsFound(r, b.Step().Step().Touch());
    hide Setting, Decide, Dispatch, Extract, Scan, Search, LayoutContract, HasWords, Supported, MemorySupported;
    CopyIsInterpreted(r, b.Step().Step().Touch());
    ScanDefines(r, Register(1), 1, 0, 0, b.Step(), COPY, 0);
    SearchScans(r, Register(1), 2, 1, b.Step());
    ResolvesBySearch(r, 1, 2, b);
  }

  lemma CopyIsInterpreted(r: Resolver, b: Budget)
    requires Dispatch(r.locators, COPY) == Some(MovRegReg) && Extract(MovRegReg, COPY, 0, r.port.pointerSize) == FromRegister(0, Same)
    ensures Interpret(r, COPY, 0, b).0 == ResolveRegister(r, 0, 1, b).0
  {
    hide Dispatch, Extract, ResolveRegister;
  }

  // -- the hypotheses ---------------------------------------------------------------------------------

  lemma DefinitionsAreLast(r: Resolver)
    requires Setting(r)
    ensures LastDef(FlowOf(r, 0, Register(1)), 0, 2) == Some(1) && LastDef(FlowOf(r, 0, Register(0)), 0, 1) == Some(0)
  {
    Listed(r);
    CopyIsADefinition(r);
    CallIsADefinition(r);
    hide Setting, Decide, LayoutContract, HasWords, Supported, MemorySupported, Dispatch, Extract;
    assert IsDef(FlowOf(r, 0, Register(1)), 1) && IsDef(FlowOf(r, 0, Register(0)), 0);
  }

  lemma DefinitionsFit(r: Resolver, queries: Queries)
    requires Setting(r) && (Register(0), 1) in queries
    ensures r.port.decodeAt(0).Some? && r.port.decodeAt(1).Some?
    ensures DefinitionFits(r, 0, Register(1), 1, queries) && DefinitionFits(r, 0, Register(0), 0, queries)
    ensures !IsSum(r, 0, Register(1), 1) && !IsSum(r, 0, Register(0), 0)
  {
    Listed(r);
    CopyIsADefinition(r);
    CallIsADefinition(r);
    hide Setting, Decide, LayoutContract, HasWords, Supported, MemorySupported, Dispatch, Extract;
  }

  lemma QueriesAreClosed(r: Resolver, queries: Queries)
    requires Setting(r) && queries == iset{(Register(1), 2), (Register(0), 1)}
    ensures Closed(r, 0, 0, queries) && NoSums(r, 0, queries)
  {
    Listed(r);
    DefinitionsFit(r, queries);
    DefinitionsAreLast(r);
    hide Setting, LastDef, LayoutContract, HasWords, Answerable, Whole, DefinitionFits, IsSum;
    assert Whole(r.port, 0) && Whole(r.port, 1) by { WordOperand(r.port, 0, 0); WordOperand(r.port, 0, 1); }
    OneDefinitionIsAnswerable(r, Register(1), 2, 1, queries);
    OneDefinitionIsAnswerable(r, Register(0), 1, 0, queries);
    forall t, before, path, ea | (t, before) in queries && Reaches(FlowOf(r, 0, t), before, path, Def(ea))
      && r.port.decodeAt(ea).Some? && BlockContaining([BLOCK], before) == Some(path[0])
      ensures !IsSum(r, 0, t, ea)
    {
      BlockIsFound();
      PathsStay(r, t, before, if t == Register(1) then 1 else 0, path, Def(ea));
    }
  }

  lemma CodeIsListed(r: Resolver)
    requires Setting(r)
    ensures Code(r.port, 0, 2) == [CALL, COPY]
  {
    Listed(r);
    hide Setting, LayoutContract, HasWords;
    assert Code(r.port, 0, 0) == [] && Code(r.port, 0, 1) == [CALL];
  }

  lemma OneHopRuns(port: IdaPort, m1: MState, m2: MState)
    requires port.flowchart(0) == [BLOCK] && Code(port, 0, 2) == [CALL, COPY] && InRange(port, ZERO)
    requires Executes(port, 0, CALL, ZERO, m1) && Executes(port, 0, COPY, m1, m2)
    ensures RunsTo(port, 0, 0, [Hop(BLOCK, [ZERO, m1, m2])], 2)
  {
    OnlyBlock();
    hide Executes, InRange, BlockAt, Successors, Code;
  }

  lemma ProgramRuns(r: Resolver) returns (run: seq<Hop>)
    requires Setting(r)
    ensures RunsTo(r.port, 0, 0, run, 2)
  {
    Listed(r);
    CodeIsListed(r);
    CopyFits(r.port, 1, 1, 0);
    CallIsSupported(r.port);
    hide Setting, LayoutContract, HasWords, Supported, MemorySupported, Matches, Executes, InRange, Code, RunsTo, FindOperand;
    ZeroIsInRange(r.port);
    var m1 := CanExecute(r.port, 0, CALL, ZERO);
    ExecutionIsInRange(r.port, 0, CALL, ZERO, m1);
    var m2 := CanExecute(r.port, 0, COPY, m1);
    OneHopRuns(r.port, m1, m2);
    run := [Hop(BLOCK, [ZERO, m1, m2])];
  }

  lemma OnlyBlock()
    ensures BlockAt([BLOCK], 0) == Some(BLOCK)
  {}

  /** The hypotheses under which a symbol of a call holds are met together with such an answer:
    the call's result is found in the register it was moved to. */
  lemma ReturnedValueIsAnswered(b: Budget) returns (run: seq<Hop>)
    requires b.maxSteps - b.steps >= 4
    ensures var r := Resolver(PortOf(CODE, [BLOCK], map[]), BUILTINS);
      && BackwardHypotheses(r.port, 0) && RunsTo(r.port, 0, 0, run, 2) && ClearOfSums(r, 0, 0, Register(1), 2)
      && ResolveRegister(r, 1, 2, b).0 == Symbolic(Ret(0))
  {
    hide PortOf, Hosts, Closed, NoSums, RunsTo, BackwardHypotheses, ResolveRegister;
    var r := Resolver(PortOf(CODE, [BLOCK], map[]), BUILTINS);
    Hosted(CODE, [BLOCK], map[]);
    BlockIsOneFunction(r.port, CODE, map[]);
    QueriesAreClosed(r, iset{(Register(1), 2), (Register(0), 1)});
    CopyIsFound(r, b);
    run := ProgramRuns(r);
  }
}
