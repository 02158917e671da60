/** A value the forward engine keeps for a register was written to the whole of it, by the
  last instruction that wrote any part of it. */
module NoStaleBits {
  import opened Values
  import opened InsnModel
  import opened Port
  import opened State
  import opened Locators
  import opened Machine
  import opened ForwardSpec
  import opened ForwardStep
  import opened Agreement

  /** The instruction writes the register, a part of it, or clobbers it as a call. */
  ghost predicate Touches(port: IdaPort, instr: Instruction, r: int) {
    WritesRegister(port, instr, r) || (instr.IsCall() && CallDestroys(port, r))
  }

  /** It writes the register through an operand that defines all of it, and no part of it
    through any other; or it is a call that returns in it. */
  ghost predicate WritesWholly(port: IdaPort, instr: Instruction, r: int) {
    && !PartiallyWrites(port, instr, instr.operands, r)
    && ((instr.IsCall() && port.returnValueReg == Some(r)) ||
        exists op :: op in instr.operands && op.kind == REG && op.reg == Some(r) && instr.IsWritten(op.number) && Defines(port, op))
  }

  /** Flagged as its locator assumes, whatever its widths. */
  ghost predicate Flagged(instr: Instruction) {
    && (forall loc :: Matches(loc, instr) ==> FlagsFit(loc, instr))
    && (forall op :: op in instr.operands && op.kind == REG ==> op.reg.Some?)
  }

  ghost predicate NamedAsWritten(instr: Instruction, r: int) {
    exists op :: op in instr.operands && op.kind == REG && op.reg == Some(r) && instr.IsWritten(op.number)
  }

  lemma TransferSetsOnlyWritten(e: Engine, func: int, instr: Instruction, s: State, r: int)
    requires Flagged(instr) && !NamedAsWritten(instr, r)
    ensures var after := Transfer(e, instr, func, s).Register(r);
      if instr.IsCall() && CallDestroys(e.port, r) then after.IsKnown() ==> e.port.returnValueReg == Some(r)
      else after == s.Register(r)
  {
    WrittenRegistersAreDropped(instr, instr.operands, s);
    var loc := Dispatch(e.locators, instr);
    hide ApplyForward, InvalidateWritten, MemoryOperand, RegisterDestination, OtherOperand, Dispatch;
    if loc.Some? && DefinesForward(loc.value) {
      ForwardTouchesOnlyWritten(loc.value, instr, s, r);
    }
  }

  lemma TransferKeepsUntouched(e: Engine, func: int, instr: Instruction, s: State, r: int)
    requires Flagged(instr) && Whole(e.port, r) && !Touches(e.port, instr, r)
    ensures Transfer(e, instr, func, s).Register(r) == s.Register(r)
  {
    if op :| op in instr.operands && op.kind == REG && op.reg == Some(r) && instr.IsWritten(op.number) {
      assert WritesRegister(e.port, instr, r);
      assert false;
    }
    TransferSetsOnlyWritten(e, func, instr, s, r);
  }

  lemma StepKeepsUntouched(e: Engine, func: int, instr: Instruction, s: State, r: int)
    requires LayoutContract(e.port) && Flagged(instr) && Whole(e.port, r) && !Touches(e.port, instr, r)
    ensures Step(e, instr, func, s).Register(r) == s.Register(r)
  {
    hide Transfer;
    PartialWritesAreDropped(e.port, instr, instr.operands, Transfer(e, instr, func, s));
    forall op | op in instr.operands && PartialWrite(e.port, instr, op)
      ensures op.reg.value != r && e.port.registerView(op.reg.value, op.dtypeSize).value.parent != r
    {
      assert ViewOf(e.port, op.reg.value, op.dtypeSize).parent == Parent(e.port, op.reg.value);
    }
    TransferKeepsUntouched(e, func, instr, s, r);
  }

  /** Touching a register loses its value unless all of it is written; and a register
    number that names only a part never gains one. */
  lemma TouchedIsWholeOrLost(e: Engine, func: int, instr: Instruction, s: State, r: int)
    requires LayoutContract(e.port) && Flagged(instr) && Step(e, instr, func, s).Register(r).IsKnown()
    requires Whole(e.port, r) ==> Touches(e.port, instr, r)
    ensures if Whole(e.port, r) then WritesWholly(e.port, instr, r) else s.Register(r).IsKnown()
  {
    hide Transfer;
    var moved := Transfer(e, instr, func, s);
    PartialWritesAreDropped(e.port, instr, instr.operands, moved);
    assert !PartiallyWrites(e.port, instr, instr.operands, r);
    if op :| op in instr.operands && op.kind == REG && op.reg == Some(r) && instr.IsWritten(op.number) {
      WriteIsWholeOrPartial(e.port, instr, op);
    } else {
      TransferSetsOnlyWritten(e, func, instr, s, r);
      if Whole(e.port, r) && WritesRegister(e.port, instr, r) {
        var op :| op in instr.operands && op.kind == REG && op.reg.Some? && instr.IsWritten(op.number)
                  && Parent(e.port, op.reg.value) == r;
        WriteIsWholeOrPartial(e.port, instr, op);
      }
    }
  }

  /** After any instructions, a known value under a register number is the one that the
    last instruction to touch that register left there by writing all of it, or the one
    it started with if none touched it; and the number names a whole register. */
  lemma {:induction false} KnownRegistersWereWrittenWhole(e: Engine, func: int, code: seq<Instruction>, s: State, r: int) returns (last: int)
    requires LayoutContract(e.port) && forall instr :: instr in code ==> Flagged(instr)
    requires s.Register(r).IsKnown() ==> Whole(e.port, r)
    requires Forward(e, func, code, s).Register(r).IsKnown()
    ensures Whole(e.port, r) && -1 <= last < |code|
    ensures forall j :: last < j < |code| ==> !Touches(e.port, code[j], r)
    ensures last >= 0 ==> WritesWholly(e.port, code[last], r)
    ensures Forward(e, func, code, s).Register(r) == Forward(e, func, code[..last + 1], s).Register(r)
  {
    hide Step, LayoutContract, Flagged, Touches, WritesWholly;
    if code == [] {
      assert code[..0] == code;
      return -1;
    }
    var n, front, instr := |code| - 1, code[..|code| - 1], code[|code| - 1];
    var before := Forward(e, func, front, s);
    assert instr in code;
    if Whole(e.port, r) && Touches(e.port, instr, r) {
      TouchedIsWholeOrLost(e, func, instr, before, r);
      assert code[..n + 1] == code;
      last := n;
    } else {
      if Whole(e.port, r) {
        StepKeepsUntouched(e, func, instr, before, r);
      } else {
        TouchedIsWholeOrLost(e, func, instr, before, r);
      }
      last := KnownRegistersWereWrittenWhole(e, func, front, s, r);
      assert front[..last + 1] == code[..last + 1];
    }
  }
}
