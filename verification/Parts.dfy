/** A program that reads a part of a register: the backward walk answers with the whole. */
module Parts {
  import opened Values
  import opened InsnModel
  import opened Port
  import opened State
  import opened Locators
  import opened Registry
  import opened Arithmetic
  import opened Machine
  import opened Progress
  import opened BackwardSpec
  import opened BackwardSoundness
  import opened Programs
  import opened Unseen

  /** 0: mov rax, 0x1234;  1: movzx ecx, al. */
  const WHOLE := SetTo(0, 0, 0x1234)
  const ECX := Operand(REG, 0, Some(1), None, 0, 0, 0, 4, None)
  const AL := Operand(REG, 1, Some(16), None, 0, 0, 0, 1, None)
  const PART := Two(1, "movzx", ECX, AL, false)
  const CODE: Program := map[0 := WHOLE, 1 := PART]

  function Reader(): Resolver { Resolver(PortOf(CODE, [BLOCK], map[]), BUILTINS) }

  lemma CodeIsHosted(port: IdaPort)
    requires port == Reader().port
    ensures Hosts(port, CODE, [BLOCK], map[])
    ensures port.decodeAt(0) == Some(WHOLE) && port.decodeAt(1) == Some(PART)
    ensures port.PrevHead(1, 0) == Some(0) && port.PrevHead(2, 0) == Some(1)
    ensures port.flowchart(0) == [BLOCK] && port.funcStart(1) == Some(0) && port.funcStart(2) == Some(0) && HasWords(port)
  {
    Hosted(CODE, [BLOCK], map[]);
    hide PortOf, LayoutContract, DecodesInPlace, HasWords;
    assert port.isHead(0) && port.isHead(1);
  }

  lemma BothAreMatched()
    ensures Dispatch(BUILTINS, WHOLE) == Some(MovRegImm) && Dispatch(BUILTINS, PART) == Some(MovRegReg)
    ensures Extract(MovRegImm, WHOLE, 0, 8) == Done(Concrete(0x1234, IntKind))
    ensures Extract(MovRegReg, PART, 0, 8) == FromRegister(16, Same)
  {
    TwoReads(0, "mov", Reg(0, 0), Imm(1, 0x1234), false);
    TwoReads(1, "movzx", ECX, AL, false);
    hide FindOperand, Flag, StartsWith, Dispatch;
    assert BUILTINS[2] == MovRegImm && BUILTINS[1] == MovRegReg;
    DispatchFindsTheMatch(BUILTINS, MovRegImm, WHOLE);
    DispatchFindsTheMatch(BUILTINS, MovRegReg, PART);
  }

  lemma WholeDefinesThePart(port: IdaPort)
    requires HasWords(port)
    ensures Decide(port, Register(16), WHOLE, 0) == Define(0) && Decide(port, Register(1), PART, 0) == Define(0)
  {
    TwoReads(0, "mov", Reg(0, 0), Imm(1, 0x1234), false);
    TwoReads(1, "movzx", ECX, AL, false);
    MnemonicsDiffer("mov");
    MnemonicsDiffer("movzx");
    hide FindOperand, Flag, StartsWith;
  }

  lemma PartIsAnsweredWhole(r: Resolver, b: Budget)
    requires r == Reader() && b.maxSteps - b.steps >= 2
    ensures ResolveRegister(r, 16, 1, b).0 == Concrete(0x1234, IntKind)
  {
    CodeIsHosted(r.port);
    BothAreMatched();
    WholeDefinesThePart(r.port);
    assert r.port.pointerSize == 8;
    hide Reader, Hosts, HasWords, Decide, Dispatch, Extract, Scan, Search;
    ScanDefines(r, Register(16), 0, 0, 0, b.Step(), WHOLE, 0);
    SearchScans(r, Register(16), 1, 0, b.Step());
  }

  lemma PartIsCopiedWhole(r: Resolver, b: Budget)
    requires r == Reader() && b.maxSteps - b.steps >= 4
    ensures ResolveRegister(r, 1, 2, b).0 == Concrete(0x1234, IntKind)
  {
    CodeIsHosted(r.port);
    BothAreMatched();
    WholeDefinesThePart(r.port);
    PartIsAnsweredWhole(r, b.Step().Step().Touch());
    assert r.port.pointerSize == 8;
    hide Reader, Hosts, HasWords, Decide, Dispatch, Extract, Scan, Search, ResolveRegister;
    ScanDefines(r, Register(1), 1, 0, 0, b.Step(), PART, 0);
    assert Interpret(r, PART, 0, b.Step().Step().Touch()).0 == Concrete(0x1234, IntKind);
    SearchScans(r, Register(1), 2, 1, b.Step());
    ResolvesBySearch(r, 1, 2, b);
  }

  // -- a run ---------------------------------------------------------------------------------

  lemma LowByteOfTheWord()
    ensures (0x1234 / Pow2(0)) % Pow2(8) == 0x34 && 0x34 % Pow2(32) == 0x34
  {
    assert Pow2(0) == 1 && Pow2(8) == 256;
    Pow2Grows(8, 32);
    DivisionIsUnique(0x34, Pow2(32), 0, 0x34);
  }

  lemma PartIsWellDecoded(port: IdaPort)
    requires HasWords(port) && LayoutContract(port)
    ensures WellDecoded(port, PART) && OpView(port, ECX) == RegisterView(1, 0, 32, 64, true)
    ensures OpView(port, AL) == RegisterView(0, 0, 8, 64, false)
  {
    hide LayoutContract;
  }

  lemma PartRuns(port: IdaPort, m: MState) returns (m': MState)
    requires HasWords(port) && LayoutContract(port) && InRange(port, m) && m.Reg(0) == 0x1234
    ensures Executes(port, 0, PART, m, m') && m'.Reg(1) == 0x34
  {
    hide LayoutContract, HasWords, InRange, WellDecoded, Pow2, FindOperand, Flag, StartsWith, OpView, Computes, Sets, Put;
    PartIsWellDecoded(port);
    TwoReads(1, "movzx", ECX, AL, false);
    PartIsNoCall();
    m' := Put(port, ECX, 0x34, m);
    assert m'.Reg(1) == 0x34 by { LowByteIsPut(port, m); }
    if Sets(port, ECX, 0x34, m') { LowByteIsComputed(port, m, m'); }
    PuttingLands(port, 0, PART, m, 0x34);
    LandedExecutes(port, 0, PART, m, m');
  }

  lemma PartIsNoCall()
    ensures !PART.IsCall() && PART.mnem != "push"
  {
    MnemonicsDiffer("movzx");
  }

  lemma LowByteIsPut(port: IdaPort, m: MState)
    requires OpView(port, ECX) == RegisterView(1, 0, 32, 64, true)
    ensures Put(port, ECX, 0x34, m).Reg(1) == 0x34
  {
    LowByteOfTheWord();
  }

  lemma LowByteIsComputed(port: IdaPort, m: MState, m': MState)
    requires OpView(port, AL) == RegisterView(0, 0, 8, 64, false) && m.Reg(0) == 0x1234 && Sets(port, ECX, 0x34, m')
    requires PART.OperandAt(0) == Some(ECX) && PART.OperandAt(1) == Some(AL)
    ensures Computes(port, 0, PART, m, m')
  {
    LowByteOfTheWord();
    hide Pow2, OpView, FindOperand, Sets;
    assert Extended(port, PART, m, AL) == 0x34;
    CmovIsNoMove("movzx");
    assert ComputesFromRegister(port, PART, ECX, AL, m, m');
  }

  lemma CodeRuns(port: IdaPort) returns (run: seq<Hop>)
    requires Hosts(port, CODE, [BLOCK], map[]) && port.decodeAt(0) == Some(WHOLE) && port.decodeAt(1) == Some(PART)
    ensures RunsTo(port, 0, 0, run, 2) && |run| == 1 && |run[0].trace| == 3
    ensures run[0].trace[1].Reg(0) == 0x1234 && LastState(run).Reg(1) == 0x34
  {
    hide HasWords, LayoutContract, DecodesInPlace, Executes, InRange;
    ZeroIsInRange(port);
    SmallWordsDoNotWrap(0x1234);
    var m1 := SetRuns(port, 0, 0, 0, 0x1234, ZERO);
    var m2 := PartRuns(port, m1);
    run := [Hop(BLOCK, [ZERO, m1, m2])];
    assert Code(port, 0, 1) == [WHOLE];
    assert Code(port, 0, 2) == [WHOLE, PART];
  }

  lemma LowByteIsRead(port: IdaPort, m: MState)
    requires HasWords(port) && LayoutContract(port) && m.Reg(0) == 0x1234
    ensures ReadView(port, m, AL) == 0x34
  {
    PartIsWellDecoded(port);
    LowByteOfTheWord();
    hide HasWords, LayoutContract, OpView, Pow2;
  }

  /** A query of `al` is answered with all of `rax`, and so is one of what `movzx ecx, al`
    leaves, which is the low byte. */
  lemma PartsAreReadWhole(b: Budget) returns (run: seq<Hop>)
    requires b.maxSteps - b.steps >= 4
    ensures var r := Reader();
      && ResolveRegister(r, 16, 1, b).0 == Concrete(0x1234, IntKind) && ResolveRegister(r, 1, 2, b).0 == Concrete(0x1234, IntKind)
      && BackwardHypotheses(r.port, 0) && RunsTo(r.port, 0, 0, run, 2) && |run| == 1 && |run[0].trace| == 3
      && ReadView(r.port, run[0].trace[1], AL) == 0x34 && LastState(run).Reg(1) == 0x34
  {
    hide Reader, HasWords, LayoutContract, DecodesInPlace, ResolveRegister, RunsTo, ReadView, BackwardHypotheses;
    var r := Reader();
    CodeIsHosted(r.port);
    PartIsAnsweredWhole(r, b);
    PartIsCopiedWhole(r, b);
    BlockIsOneFunction(r.port, CODE, map[]);
    run := CodeRuns(r.port);
    LowByteIsRead(r.port, run[0].trace[1]);
  }
}
