/** An argument that goes round both arms of a branch is still the argument where they meet. */
module Diamond {
  import opened Values
  import opened InsnModel
  import opened Port
  import opened Locators
  import opened Machine
  import opened ForwardSpec
  import opened ForwardSoundness
  import opened ForwardCompleteness
  import opened Widening
  import opened NoStaleBits
  import opened Programs

  /** 0: mov rax, 1;  then 1: mov rdx, 2 or 2: mov rdx, 3;  then 3: mov rbx, 4. */
  const CODE: Program := map[0 := SetTo(0, 0, 1), 1 := SetTo(1, 2, 2), 2 := SetTo(2, 2, 3), 3 := SetTo(3, 3, 4)]
  const FORK := Block(0, 1, [1, 2], [])
  const LEFT := Block(1, 2, [3], [0])
  const RIGHT := Block(2, 3, [3], [0])
  const MEET := Block(3, 4, [], [1, 2])
  const BLOCKS := [FORK, LEFT, RIGHT, MEET]

  lemma Starts()
    ensures BlockAt(BLOCKS, 0) == Some(FORK) && BlockAt(BLOCKS, 1) == Some(LEFT)
    ensures BlockAt(BLOCKS, 2) == Some(RIGHT) && BlockAt(BLOCKS, 3) == Some(MEET)
  {
    assert BLOCKS[..3] == [FORK, LEFT, RIGHT] && [FORK, LEFT, RIGHT][..2] == [FORK, LEFT] && [FORK, LEFT][..1] == [FORK];
    assert BlockAt([FORK], 0) == Some(FORK) && BlockAt([FORK, LEFT], 1) == Some(LEFT) && BlockAt([FORK, LEFT], 0) == Some(FORK);
    assert BlockAt([FORK, LEFT, RIGHT], 2) == Some(RIGHT) && BlockAt([FORK, LEFT, RIGHT], 1) == Some(LEFT)
        && BlockAt([FORK, LEFT, RIGHT], 0) == Some(FORK);
  }

  lemma Edges()
    ensures Successors(BLOCKS, FORK) == [LEFT, RIGHT] && Successors(BLOCKS, LEFT) == [MEET]
    ensures Successors(BLOCKS, RIGHT) == [MEET] && Successors(BLOCKS, MEET) == []
    ensures Predecessors(BLOCKS, FORK) == [] && Predecessors(BLOCKS, LEFT) == [FORK]
    ensures Predecessors(BLOCKS, RIGHT) == [FORK] && Predecessors(BLOCKS, MEET) == [LEFT, RIGHT]
  {
    Starts();
    hide BlockAt;
    assert [1, 2][1..] == [2];
    assert BlocksAt(BLOCKS, [2]) == [RIGHT] && BlocksAt(BLOCKS, [3]) == [MEET] && BlocksAt(BLOCKS, [0]) == [FORK];
  }

  lemma DiamondIsListed()
    ensures GraphContract(BLOCKS)
  {
    Edges();
    hide Predecessors, Successors;
  }

  lemma Contained()
    ensures BlockContaining(BLOCKS, 0) == Some(FORK) && BlockContaining(BLOCKS, 3) == Some(MEET)
  {
    assert BLOCKS[1..] == [LEFT, RIGHT, MEET] && [LEFT, RIGHT, MEET][1..] == [RIGHT, MEET] && [RIGHT, MEET][1..] == [MEET];
    assert BlockContaining([MEET], 3) == Some(MEET) && BlockContaining([RIGHT, MEET], 3) == Some(MEET);
    assert BlockContaining([LEFT, RIGHT, MEET], 3) == Some(MEET);
  }

  lemma MeetIsReachable(q: Query)
    requires q.blocks == BLOCKS && q.entryStart == 0
    ensures Reachable(q, 3)
  {
    Edges();
    hide Successors;
    var path := [FORK, LEFT, MEET];
    assert path[1] in Successors(BLOCKS, path[0]) && path[2] in Successors(BLOCKS, path[1]);
    assert IsPath(q.blocks, path) && path[0].startEa == 0 && path[|path| - 1].startEa == 3;
  }

  lemma SettingLeavesAlone(port: IdaPort, ea: int, reg: int, value: int)
    requires HasWords(port) && 0 <= reg < 6 && reg != 1 && FitsWord(value, 64)
    ensures Flagged(SetTo(ea, reg, value)) && !Touches(port, SetTo(ea, reg, value), 1)
  {
    SetFits(port, ea, reg, value);
    TwoReads(ea, "mov", Reg(0, reg), Imm(1, value), false);
    hide FindOperand, Flag, Matches, FitsWord;
  }

  lemma CodeLeavesAlone(port: IdaPort)
    requires Hosts(port, CODE, BLOCKS, map[])
    ensures forall lo, hi :: LeftAlone(port, lo, hi, 1)
  {
    hide DecodesInPlace, LayoutContract, HasWords, Flagged, Touches, FitsWord;
    forall ea | port.decodeAt(ea).Some? ensures Flagged(port.decodeAt(ea).value) && !Touches(port, port.decodeAt(ea).value, 1) {
      var reg, value := if ea == 0 then 0 else if ea == 3 then 3 else 2, ea + 1;
      SmallWordsDoNotWrap(value);
      SettingLeavesAlone(port, ea, reg, value);
      assert CODE[ea] == SetTo(ea, reg, value);
    }
  }

  /** Argument 0, held in `rcx`, is answered for `rcx` where the arms meet, however the limits
    are set above what is needed. */
  lemma ArgumentSurvivesTheMerge(e: Engine)
    requires e.port == PortOf(CODE, BLOCKS, map[])
    requires var q := QueryFor(e, 0, 0, 1, FORK);
      Enough(e, q) <= e.maxBlockVisits && Enough(e, q) * Longest(q.blocks) <= e.maxInstructions
    ensures ResolveAt(e, 0, 0, 3, Some(1)) == Symbolic(Arg(0))
  {
    hide PortOf, Enough, Longest, DecodesInPlace, LayoutContract, HasWords, GraphContract, ResolveAt, LeftAlone, OnTheWay,
         Reachable, BlockContaining;
    var q := QueryFor(e, 0, 0, 1, FORK);
    Hosted(CODE, BLOCKS, map[]);
    DiamondIsListed();
    Contained();
    MeetIsReachable(q);
    CodeLeavesAlone(e.port);
    assert Whole(e.port, 1) by { WordOperand(e.port, 0, 1); }
    ArgumentIsAnswered(e, 0, 0, 1, 3, q, MEET);
  }
}
