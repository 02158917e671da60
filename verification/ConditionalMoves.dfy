/** A conditional move from memory: the forward rule joins the destination with the base
  register of the address, not with what is loaded. */
module ConditionalMoves {
  import opened Values
  import opened InsnModel
  import opened Port
  import opened State
  import opened Addressing
  import opened Locators
  import opened Registry
  import opened Arithmetic
  import opened Merge
  import opened Machine
  import opened Progress
  import opened ForwardSpec
  import opened ForwardStep
  import opened Agreement
  import opened Skips
  import opened Programs
  import opened Unseen

  /** Whatever was known and whatever the machine does, the rule is right about the
    destination. */
  ghost predicate RuleIsRight(port: IdaPort, func: int, instr: Instruction)
    requires Matches(CmovRegReg, instr) && Dst(instr).reg.Some?
  {
    forall s: State, m, m', arg ::
      Describes(port, s, m, arg) && InRange(port, m) && Executes(port, func, instr, m, m') ==>
        DescribesRegister(port, ApplyForward(CmovRegReg, instr, s), m', arg, Dst(instr).reg.value)
  }

  /** The source is a register, or names no register that anything could be known of. */
  predicate TakesItsSource(port: IdaPort, instr: Instruction)
    requires instr.OperandAt(1).Some?
  {
    Src(instr).kind == REG || Src(instr).reg.None? || !Whole(port, Src(instr).reg.value)
  }

  lemma SourcesAreJoined(port: IdaPort, func: int, instr: Instruction, s: State, m: MState, m': MState, arg: int)
    requires Stepped(port, func, instr, m, m') && Describes(port, s, m, arg) && Matches(CmovRegReg, instr)
    requires Defines(port, Dst(instr)) && TakesItsSource(port, instr) && (Src(instr).kind == REG ==> WholePair(port, instr))
    ensures DescribesRegister(port, ApplyForward(CmovRegReg, instr, s), m', arg, Dst(instr).reg.value)
  {
    var dst, src := Dst(instr), Src(instr);
    assert OpView(port, dst).parent == Parent(port, dst.reg.value);
    assert DescribesRegister(port, s, m, arg, dst.reg.value);
    if src.reg.Some? { assert DescribesRegister(port, s, m, arg, src.reg.value); }
    assert m.rets <= m'.rets;
    if src.kind == REG { CmovMovesOrNot(port, func, instr, m, m'); }
    hide Stepped;
  }

  const KNOWN_ZERO := Concrete(0, IntKind)

  /** The destination and the base register are known to hold zero. */
  function BothZero(dst: int, base: int): State { State(map[dst := KNOWN_ZERO, base := KNOWN_ZERO], map[]) }

  /** Every cell an operand could name holds a one, and so does the destination afterwards. */
  lemma AnotherWordIsLoaded(port: IdaPort, func: int, instr: Instruction) returns (m: MState, m': MState)
    requires LayoutContract(port) && Supported(port, instr) && Matches(CmovRegReg, instr) && !instr.IsCall()
    requires Defines(port, Dst(instr)) && OpView(port, Dst(instr)).bitSize > 0 && port.pointerSize > 0 && Src(instr).kind != REG
    ensures InRange(port, m) && Executes(port, func, instr, m, m') && m.regs == map[] && m'.Reg(Dst(instr).reg.value) == 1
  {
    var dst, src := Dst(instr), Src(instr);
    var cell := OperandCell(port, src, instr.ea, func);
    FlaggedByItsLocator(port, instr, CmovRegReg);
    assert WellDecoded(port, instr) && dst.number == 0;
    assert OpView(port, dst).parent == Parent(port, dst.reg.value) == dst.reg.value;
    MnemonicsDiffer(instr.mnem);
    hide LayoutContract, Supported, WellDecoded, Matches, OpView, OperandCell, InRange, StartsWith;
    ZeroIsInRange(port);
    m := MState(map[], map[cell := 1], {});
    OneIsInRange(port, cell);
    m' := Put(port, dst, 1, m);
    OneDoesNotWrap(OpView(port, dst).bitSize);
    if Sets(port, dst, 1, m') { CmovComputes(port, func, instr, m, m'); }
    PuttingLands(port, func, instr, m, 1);
    LandedExecutes(port, func, instr, m, m');
  }

  lemma OneIsInRange(port: IdaPort, cell: Cell)
    requires port.pointerSize > 0
    ensures InRange(port, MState(map[], map[cell := 1], {}))
  {
    hide Pow2, Bits;
    ZeroIsInRange(port);
    Pow2Grows(1, WordBits(port));
    OneDoesNotWrap(1);
    StaysInRange(port, ZERO, MState(map[], map[cell := 1], {}), 0, cell);
  }

  lemma OneDoesNotWrap(bits: nat)
    requires bits > 0
    ensures 1 < Pow2(bits) && 1 % Pow2(bits) == 1
  {
    assert Pow2(0) == 1 && Pow2(bits) == 2 * Pow2(bits - 1);
    DivisionIsUnique(1, Pow2(bits), 0, 1);
  }

  lemma CmovComputes(port: IdaPort, func: int, instr: Instruction, m: MState, m': MState)
    requires Matches(CmovRegReg, instr) && Src(instr).kind != REG && Sets(port, Dst(instr), 1, m')
    requires m.Mem(OperandCell(port, Src(instr), instr.ea, func)) == 1
    ensures Computes(port, func, instr, m, m')
  {
    MnemonicsDiffer(instr.mnem);
    hide Sets, OperandCell, FindOperand;
  }

  lemma ZerosAreDescribed(port: IdaPort, dst: int, base: int, m: MState)
    requires Whole(port, dst) && Whole(port, base) && m.regs == map[]
    ensures Describes(port, BothZero(dst, base), m, 0)
  {
    forall r ensures DescribesRegister(port, BothZero(dst, base), m, 0, r) {}
  }

  lemma ZerosAreJoined(instr: Instruction, dst: int, base: int)
    requires Matches(CmovRegReg, instr) && Dst(instr).reg == Some(dst) && Src(instr).reg == Some(base)
    ensures ApplyForward(CmovRegReg, instr, BothZero(dst, base)).Register(dst) == KNOWN_ZERO
  {
    hide FindOperand;
  }

  /** The rule is right, whatever was known and whatever is moved, exactly when the source
    is a register, or nothing can be known of the register in its address. */
  lemma CmovsAreRightExactly(port: IdaPort, func: int, instr: Instruction)
    requires LayoutContract(port) && Supported(port, instr) && Matches(CmovRegReg, instr)
    requires Defines(port, Dst(instr)) && OpView(port, Dst(instr)).bitSize > 0 && port.pointerSize > 0
    requires Src(instr).kind == REG ==> WholePair(port, instr)
    ensures RuleIsRight(port, func, instr) <==> TakesItsSource(port, instr)
  {
    assert WellDecoded(port, instr);
    if TakesItsSource(port, instr) {
      hide LayoutContract, Supported, WellDecoded, Matches, Executes, InRange, Describes, DescribesRegister,
           ApplyForward, TakesItsSource, WholePair, FullRead;
      forall s: State, m, m', arg | Describes(port, s, m, arg) && InRange(port, m) && Executes(port, func, instr, m, m')
        ensures DescribesRegister(port, ApplyForward(CmovRegReg, instr, s), m', arg, Dst(instr).reg.value)
      {
        SourcesAreJoined(port, func, instr, s, m, m', arg);
      }
    } else {
      OneIsLoadedForZero(port, func, instr);
    }
  }

  lemma OneIsLoadedForZero(port: IdaPort, func: int, instr: Instruction)
    requires LayoutContract(port) && Supported(port, instr) && Matches(CmovRegReg, instr)
    requires Defines(port, Dst(instr)) && OpView(port, Dst(instr)).bitSize > 0 && port.pointerSize > 0
    requires !TakesItsSource(port, instr)
    ensures !RuleIsRight(port, func, instr)
  {
    var dst, base := Dst(instr).reg.value, Src(instr).reg.value;
    MnemonicsDiffer(instr.mnem);
    assert !instr.IsCall();
    assert OpView(port, Dst(instr)).parent == Parent(port, dst) == dst;
    hide LayoutContract, Supported, Matches, Executes, InRange, Describes, ApplyForward, StartsWith, OpView;
    var m, m' := AnotherWordIsLoaded(port, func, instr);
    ZerosAreDescribed(port, dst, base, m);
    ZerosAreJoined(instr, dst, base);
    assert !DescribesRegister(port, ApplyForward(CmovRegReg, instr, BothZero(dst, base)), m', 0, dst);
  }

  // -- a program ---------------------------------------------------------------------------------

  /** 0: mov rbx, 1;  1: mov rax, 1;  2: cmovz rax, [rbx+8]. */
  const BASE := SetTo(0, 3, 1)
  const OLD := SetTo(1, 0, 1)
  const CMOV := Two(2, "cmovz", Reg(0, 0), At(1, 3, 8), true)
  const CODE: Program := map[0 := BASE, 1 := OLD, 2 := CMOV]
  const SOURCE := Cell(Based(3), 8)

  lemma CodeIsHosted(port: IdaPort)
    requires port == PortOf(CODE, [BLOCK], map[])
    ensures Hosts(port, CODE, [BLOCK], map[])
    ensures Code(port, 0, 3) == [BASE, OLD, CMOV]
  {
    Hosted(CODE, [BLOCK], map[]);
    hide PortOf, LayoutContract, DecodesInPlace, HasWords;
    assert Code(port, 0, 1) == [BASE];
    assert Code(port, 0, 2) == [BASE, OLD];
  }

  lemma CmovReads()
    ensures CMOV.OperandAt(0) == Some(Reg(0, 0)) && CMOV.OperandAt(1) == Some(At(1, 3, 8)) && Matches(CmovRegReg, CMOV)
  {
    TwoReads(2, "cmovz", Reg(0, 0), At(1, 3, 8), true);
    assert StartsWith("cmovz", "cmov");
    hide FindOperand;
  }

  lemma SetsStep(e: Engine, ea: int, reg: int, value: int, s: State)
    requires HasWords(e.port) && e.locators == BUILTINS && 0 <= reg < 6
    ensures Step(e, SetTo(ea, reg, value), 0, s) == s.With(Some(reg), Concrete(value, IntKind))
  {
    TwoReads(ea, "mov", Reg(0, reg), Imm(1, value), false);
    hide HasWords, FindOperand, Step;
    assert BUILTINS[2] == MovRegImm;
    LocatorSteps(e, MovRegImm, SetTo(ea, reg, value), 0, s);
  }

  lemma CmovSteps(e: Engine, s: State)
    requires HasWords(e.port) && e.locators == BUILTINS
    ensures Step(e, CMOV, 0, s) == s.With(Some(0), Join(s.Register(0), s.Register(3)))
  {
    CmovReads();
    hide HasWords, FindOperand, Step;
    assert BUILTINS[5] == CmovRegReg;
    LocatorSteps(e, CmovRegReg, CMOV, 0, s);
  }

  lemma OneIsAnswered(e: Engine, argIndex: int)
    requires Ample(e, PortOf(CODE, [BLOCK], map[]))
    ensures ForwardSpec.ResolveAt(e, 0, argIndex, 3, Some(0)) == Concrete(1, IntKind)
  {
    hide PortOf, Hosts, HasWords, Forward, ForwardSpec.ResolveAt;
    CodeIsHosted(e.port);
    WordsAreHostedHere(e.port);
    BlockPasses(e, CODE, map[], argIndex, 0, 3);
    CodeJoinsOnes(e, EMPTY.With(Some(0), Symbolic(Arg(argIndex))));
  }

  lemma WordsAreHostedHere(port: IdaPort)
    requires Hosts(port, CODE, [BLOCK], map[])
    ensures HasWords(port) && LayoutContract(port)
  {
    hide HasWords, LayoutContract, DecodesInPlace;
  }

  lemma CodeJoinsOnes(e: Engine, seed: State)
    requires HasWords(e.port) && e.locators == BUILTINS
    ensures Forward(e, 0, [BASE, OLD, CMOV], seed).Register(0) == Concrete(1, IntKind)
  {
    hide HasWords, Step;
    var one := Concrete(1, IntKind);
    var s1 := seed.With(Some(3), one);
    var s2 := s1.With(Some(0), one);
    SetsStep(e, 0, 3, 1, seed);
    SetsStep(e, 1, 0, 1, s1);
    CmovSteps(e, s2);
    assert [BASE, OLD, CMOV][..2] == [BASE, OLD] && [BASE, OLD][..1] == [BASE] && [BASE][..0] == [];
    assert Forward(e, 0, [BASE], seed) == s1;
    assert Forward(e, 0, [BASE, OLD], seed) == s2;
  }

  lemma BaseRuns(port: IdaPort) returns (m0: MState, m1: MState)
    requires HasWords(port) && LayoutContract(port)
    ensures InRange(port, m0) && m0.rets == {} && Executes(port, 0, BASE, m0, m1) && InRange(port, m1) && m1.Mem(SOURCE) != 1
  {
    hide HasWords, LayoutContract, InRange, Executes, Supported, Pow2, OpView, WritesRegister, Rebases;
    SmallWordsDoNotWrap(1);
    SetFits(port, 0, 3, 1);
    BaseIsWritten(port);
    m0 := MState(map[], map[SOURCE := 1], {});
    assert port.pointerSize == 8 by { WordsAreEight(port); }
    OneIsInRange(port, SOURCE);
    m1 := HiddenWriteHappens(port, 0, BASE, Memory(SOURCE), m0);
    ExecutionIsInRange(port, 0, BASE, m0, m1);
  }

  lemma BaseIsWritten(port: IdaPort)
    requires HasWords(port)
    ensures Rebases(port, BASE, SOURCE) && !OpenlyWrites(port, 0, BASE, Memory(SOURCE)) && !PushesAnOperand(BASE)
  {
    TwoReads(0, "mov", Reg(0, 3), Imm(1, 1), false);
    WordOperand(port, 0, 3);
    hide HasWords, OpView, FindOperand, Flag;
    assert Reg(0, 3) in BASE.operands && WritesRegister(port, BASE, 3);
  }

  lemma WordsAreEight(port: IdaPort)
    requires HasWords(port)
    ensures port.pointerSize == 8
  {}

  lemma OldRuns(port: IdaPort, m: MState) returns (m': MState)
    requires HasWords(port) && LayoutContract(port) && InRange(port, m)
    ensures Executes(port, 0, OLD, m, m') && InRange(port, m') && m'.Mem(SOURCE) == m.Mem(SOURCE)
  {
    SmallWordsDoNotWrap(1);
    SetFits(port, 1, 0, 1);
    OldKeepsTheSource(port);
    hide HasWords, LayoutContract, InRange, Executes, Supported, Pow2, HiddenlyWrites, OpenlyWrites;
    m' := CanExecute(port, 0, OLD, m);
    ExecutionIsInRange(port, 0, OLD, m, m');
    Unwritten(port, OLD, SOURCE, m, m');
  }

  lemma OldKeepsTheSource(port: IdaPort)
    requires HasWords(port)
    ensures !HiddenlyWrites(port, 0, OLD, Memory(SOURCE)) && !OpenlyWrites(port, 0, OLD, Memory(SOURCE))
  {
    MnemonicsDiffer("mov");
    assert ImplicitNames(OLD) == {};
    WordOperand(port, 0, 0);
    WordOperand(port, 0, 3);
    hide HasWords;
  }

  lemma CmovFitsThePort(port: IdaPort)
    requires HasWords(port)
    ensures WellDecoded(port, CMOV) && OpView(port, Reg(0, 0)) == RegisterView(0, 0, 64, 64, true)
    ensures OperandCell(port, At(1, 3, 8), 2, 0) == SOURCE && CMOV.IsWritten(0)
  {
    TwoReads(2, "cmovz", Reg(0, 0), At(1, 3, 8), true);
    TwoIsWellDecoded(port, 2, "cmovz", Reg(0, 0), At(1, 3, 8), true);
    WordOperand(port, 0, 0);
  }

  lemma CmovRuns(port: IdaPort, m: MState) returns (m': MState)
    requires HasWords(port) && LayoutContract(port) && InRange(port, m)
    ensures Executes(port, 0, CMOV, m, m') && m'.Reg(0) == m.Mem(SOURCE)
  {
    CmovReads();
    CmovFitsThePort(port);
    WordsAreEight(port);
    MnemonicsDiffer("cmovz");
    var word := m.Mem(SOURCE);
    assert 0 <= word < Pow2(64);
    DivisionIsUnique(word, Pow2(64), 0, word);
    hide HasWords, LayoutContract, InRange, WellDecoded, Pow2, FindOperand, Flag, OpView, OperandCell, StartsWith;
    m' := Put(port, Reg(0, 0), word, m);
    assert Sets(port, Reg(0, 0), word, m') ==> Computes(port, 0, CMOV, m, m');
    PuttingLands(port, 0, CMOV, m, word);
    LandedExecutes(port, 0, CMOV, m, m');
  }

  lemma CodeRuns(port: IdaPort) returns (run: seq<Hop>)
    requires Hosts(port, CODE, [BLOCK], map[]) && Code(port, 0, 3) == [BASE, OLD, CMOV]
    ensures IsRun(port, 0, [BLOCK], 0, run, 3) && |run| == 1 && |run[0].trace| > 0 && LastState(run).Reg(0) != 1
  {
    hide HasWords, LayoutContract, DecodesInPlace, Executes, InRange, Code;
    var m0, m1 := BaseRuns(port);
    var m2 := OldRuns(port, m1);
    var m3 := CmovRuns(port, m2);
    run := [Hop(BLOCK, [m0, m1, m2, m3])];
  }

  /** The engine answers the 1 that `rax` and `rbx` are known to hold, and the conditional
    move has loaded another word into `rax`. */
  lemma CmovIsTakenForItsBase(e: Engine, argIndex: int) returns (run: seq<Hop>)
    requires Ample(e, PortOf(CODE, [BLOCK], map[]))
    ensures ForwardSpec.ResolveAt(e, 0, argIndex, 3, Some(0)) == Concrete(1, IntKind)
    ensures IsRun(e.port, 0, [BLOCK], 0, run, 3) && |run| == 1 && |run[0].trace| > 0 && LastState(run).Reg(0) != 1
  {
    hide PortOf, Hosts, IsRun, ForwardSpec.ResolveAt;
    CodeIsHosted(e.port);
    OneIsAnswered(e, argIndex);
    run := CodeRuns(e.port);
  }
}
