/** Constant folding through `add`, `sub` and `lea [base+disp]` is exact modular
  arithmetic, over chains of any length and in both engines. */
module Folding {
  import opened Values
  import opened InsnModel
  import opened Port
  import opened State
  import opened Locators
  import opened Arithmetic
  import opened Machine
  import opened ForwardSpec
  import opened ForwardStep
  import opened BackwardSpec
  import opened Agreement

  /** What one instruction adds, as decoded: an immediate, or a displacement. */
  datatype Term = Term(negative: bool, amount: int)

  function Signed(t: Term): int { if t.negative then -t.amount else t.amount }

  function Sum(terms: seq<Term>): int {
    if terms == [] then 0 else Sum(terms[..|terms| - 1]) + Signed(terms[|terms| - 1])
  }

  // -- readings of an immediate ------------------------------------------------------------

  /** The amounts as the unsigned bit patterns of an operand of that size. */
  function AsPatterns(terms: seq<Term>, size: int): (r: seq<Term>)
    ensures |r| == |terms|
  {
    seq(|terms|, i requires 0 <= i < |terms| => terms[i].(amount := UnsignedOfWidth(terms[i].amount, size)))
  }

  /** The amounts as two's-complement integers of that size. */
  function AsSigned(terms: seq<Term>, size: int): (r: seq<Term>)
    ensures |r| == |terms|
  {
    seq(|terms|, i requires 0 <= i < |terms| => terms[i].(amount := SignExtend(terms[i].amount, 8 * WidthOf(size))))
  }

  predicate Congruent(x: int, y: int, size: int) { WrapToWidth(x, size) == WrapToWidth(y, size) }

  lemma CongruenceAdds(x: int, x': int, y: int, y': int, size: int)
    requires Congruent(x, x', size) && Congruent(y, y', size)
    ensures Congruent(x + y, x' + y', size) && Congruent(-x, -x', size)
  {
    var m := Pow2(8 * WidthOf(size));
    ModAdds(x, y, m);
    ModAdds(x', y, m);
    ModAdds(y, x', m);
    ModAdds(y', x', m);
    ModAdds(x, -x - x', m);
    ModAdds(x', -x - x', m);
  }

  lemma ReadingsAreCongruent(amount: int, size: int)
    ensures Congruent(UnsignedOfWidth(amount, size), amount, size)
    ensures Congruent(SignExtend(amount, 8 * WidthOf(size)), amount, size)
  {
    var bits := 8 * WidthOf(size);
    ModAdds(amount, 0, Pow2(bits));
    ModDropsMultiples(amount % Pow2(bits), -1, Pow2(bits));
  }

  /** Adding up the unsigned patterns, the sign-extended integers, or the amounts as they
    were decoded all wraps to the same word. */
  lemma {:induction false} EveryReadingFoldsAlike(start: int, terms: seq<Term>, size: int)
    ensures WrapToWidth(start + Sum(AsPatterns(terms, size)), size) == WrapToWidth(start + Sum(terms), size)
    ensures WrapToWidth(start + Sum(AsSigned(terms, size)), size) == WrapToWidth(start + Sum(terms), size)
  {
    hide WrapToWidth, SignExtend, UnsignedOfWidth;
    if terms != [] {
      var front, last := terms[..|terms| - 1], terms[|terms| - 1];
      var patterns, signed := AsPatterns(terms, size), AsSigned(terms, size);
      EveryReadingFoldsAlike(start, front, size);
      assert patterns[..|front|] == AsPatterns(front, size) && signed[..|front|] == AsSigned(front, size);
      ReadingsAreCongruent(last.amount, size);
      LastTermAdds(start, Sum(AsPatterns(front, size)), Sum(front), patterns[|front|], last, size);
      LastTermAdds(start, Sum(AsSigned(front, size)), Sum(front), signed[|front|], last, size);
    }
  }

  lemma LastTermAdds(start: int, x: int, y: int, t: Term, u: Term, size: int)
    requires Congruent(start + x, start + y, size) && Congruent(t.amount, u.amount, size) && t.negative == u.negative
    ensures Congruent(start + (x + Signed(t)), start + (y + Signed(u)), size)
  {
    hide WrapToWidth;
    CongruenceAdds(t.amount, u.amount, 0, 0, size);
    CongruenceAdds(start + x, start + y, Signed(t), Signed(u), size);
    assert start + (x + Signed(t)) == (start + x) + Signed(t) && start + (y + Signed(u)) == (start + y) + Signed(u);
  }

  // -- chains of instructions ------------------------------------------------------------------

  /** The instruction computes register `to` from register `from` by adding a constant. */
  ghost predicate Folds(port: IdaPort, locators: seq<Locator>, instr: Instruction, from: int, to: int, size: int) {
    && Straight(port, locators, instr) && !instr.IsCall()
    && Dispatch(locators, instr).Some?
    && var loc := Dispatch(locators, instr).value;
    && (loc == AddSubRegImm || loc == LeaRegDispl)
    && Defines(port, Dst(instr)) && Dst(instr).reg == Some(to) && Dst(instr).dtypeSize == size
    && (if loc == AddSubRegImm then from == to else Src(instr).reg == Some(from))
  }

  function TermOf(instr: Instruction): Term
    requires instr.OperandAt(1).Some?
  {
    if instr.mnem == "lea" then Term(false, Src(instr).disp) else Term(instr.mnem == "sub", Src(instr).immValue)
  }

  function TermsOf(chain: seq<Instruction>): (r: seq<Term>)
    requires forall instr :: instr in chain ==> instr.OperandAt(1).Some?
    ensures |r| == |chain|
  {
    seq(|chain|, i requires 0 <= i < |chain| => TermOf(chain[i]))
  }

  /** `regs[i]` holds what the first `i` instructions have computed. */
  ghost predicate IsChain(port: IdaPort, locators: seq<Locator>, chain: seq<Instruction>, regs: seq<int>, size: int) {
    && |regs| == |chain| + 1
    && forall i :: 0 <= i < |chain| ==> Folds(port, locators, chain[i], regs[i], regs[i + 1], size)
  }

  lemma ChainHasSources(port: IdaPort, locators: seq<Locator>, chain: seq<Instruction>, regs: seq<int>, size: int)
    requires IsChain(port, locators, chain, regs, size)
    ensures forall instr :: instr in chain ==> instr.OperandAt(1).Some? && Straight(port, locators, instr)
  {
    forall instr | instr in chain ensures instr.OperandAt(1).Some? && Straight(port, locators, instr) {
      var i :| 0 <= i < |chain| && chain[i] == instr;
      assert Folds(port, locators, chain[i], regs[i], regs[i + 1], size);
    }
  }

  lemma ChainEndsInAWholeRegister(port: IdaPort, locators: seq<Locator>, chain: seq<Instruction>, regs: seq<int>, size: int)
    requires LayoutContract(port) && IsChain(port, locators, chain, regs, size) && chain != []
    ensures Whole(port, regs[|chain|])
  {
    var n := |chain|;
    assert Folds(port, locators, chain[n - 1], regs[n - 1], regs[n], size);
  }

  lemma FoldTransfer(e: Engine, func: int, instr: Instruction, from: int, to: int, size: int, s: State)
    requires Folds(e.port, e.locators, instr, from, to, size) && s.Register(from).Concrete?
    ensures instr.OperandAt(1).Some?
    ensures var v := Transfer(e, instr, func, s).Register(to);
      v.Concrete? && v.value == WrapToWidth(s.Register(from).value + Signed(TermOf(instr)), size)
  {
    hide Straight, WrapToWidth;
  }

  lemma FoldWritesWholly(e: Engine, instr: Instruction, from: int, to: int, size: int)
    requires LayoutContract(e.port) && Folds(e.port, e.locators, instr, from, to, size)
    ensures !PartiallyWrites(e.port, instr, instr.operands, to)
  {
    assert Whole(e.port, to);
    ForwardLocatorWritesWholly(e.port, e.locators, Dispatch(e.locators, instr).value, instr, Dst(instr), to);
  }

  lemma FoldStep(e: Engine, func: int, instr: Instruction, from: int, to: int, size: int, s: State)
    requires LayoutContract(e.port) && Folds(e.port, e.locators, instr, from, to, size) && s.Register(from).Concrete?
    ensures instr.OperandAt(1).Some?
    ensures var v := Step(e, instr, func, s).Register(to);
      v.Concrete? && v.value == WrapToWidth(s.Register(from).value + Signed(TermOf(instr)), size)
  {
    hide Transfer, Folds, LayoutContract, WrapToWidth;
    FoldTransfer(e, func, instr, from, to, size, s);
    FoldWritesWholly(e, instr, from, to, size);
    PartialWritesAreDropped(e.port, instr, instr.operands, Transfer(e, instr, func, s));
  }

  /** Forward over a chain: the start plus the sum, wrapped once. */
  lemma {:induction false} ForwardFoldsTheChain(e: Engine, func: int, chain: seq<Instruction>, regs: seq<int>, size: int, s: State)
    requires LayoutContract(e.port) && IsChain(e.port, e.locators, chain, regs, size) && chain != []
    requires s.Register(regs[0]).Concrete?
    ensures forall instr :: instr in chain ==> instr.OperandAt(1).Some?
    ensures var v := Forward(e, func, chain, s).Register(regs[|chain|]);
      v.Concrete? && v.value == WrapToWidth(s.Register(regs[0]).value + Sum(TermsOf(chain)), size)
  {
    hide Step, LayoutContract, WrapToWidth, Folds;
    ChainHasSources(e.port, e.locators, chain, regs, size);
    var n, start := |chain| - 1, s.Register(regs[0]).value;
    var front, instr, terms := chain[..n], chain[n], TermsOf(chain);
    assert Folds(e.port, e.locators, chain[n], regs[n], regs[n + 1], size);
    if n == 0 {
      assert front == [] && terms[..0] == [];
      FoldStep(e, func, instr, regs[0], regs[1], size, s);
    } else {
      ForwardFoldsTheChain(e, func, front, regs[..n + 1], size, s);
      var before := Forward(e, func, front, s);
      FoldStep(e, func, instr, regs[n], regs[n + 1], size, before);
      assert terms[..n] == TermsOf(front);
      WrapsOnce(start + Sum(terms[..n]), Signed(terms[n]), size);
    }
  }

  lemma WrapsOnce(x: int, y: int, size: int)
    ensures WrapToWidth(WrapToWidth(x, size) + y, size) == WrapToWidth(x + y, size)
  {
    ModAdds(x, y, Pow2(8 * WidthOf(size)));
  }

  lemma {:induction false} ForwardSplits(e: Engine, func: int, xs: seq<Instruction>, ys: seq<Instruction>, s: State)
    ensures Forward(e, func, xs + ys, s) == Forward(e, func, ys, Forward(e, func, xs, s))
  {
    hide Step;
    if ys == [] {
      assert xs + ys == xs;
    } else {
      assert (xs + ys)[..|xs + ys| - 1] == xs + ys[..|ys| - 1];
      ForwardSplits(e, func, xs, ys[..|ys| - 1], s);
    }
  }

  lemma ForwardFoldsAfter(e: Engine, func: int, prefix: seq<Instruction>, chain: seq<Instruction>, regs: seq<int>, size: int)
    requires LayoutContract(e.port) && IsChain(e.port, e.locators, chain, regs, size) && chain != []
    requires Forward(e, func, prefix, EMPTY).Register(regs[0]).Concrete?
    ensures forall instr :: instr in chain ==> instr.OperandAt(1).Some?
    ensures var start := Forward(e, func, prefix, EMPTY).Register(regs[0]).value;
      var v := Forward(e, func, prefix + chain, EMPTY).Register(regs[|chain|]);
      v.Concrete? && v.value == WrapToWidth(start + Sum(AsSigned(TermsOf(chain), size)), size)
  {
    hide Straight, Sum, AsSigned, AsPatterns, SignExtend, Folds, LayoutContract, Forward, Step, WrapToWidth;
    var s := Forward(e, func, prefix, EMPTY);
    ForwardFoldsTheChain(e, func, chain, regs, size, s);
    EveryReadingFoldsAlike(s.Register(regs[0]).value, TermsOf(chain), size);
    ForwardSplits(e, func, prefix, chain, EMPTY);
  }

  /** Both engines: after any straight code that leaves a constant in the first register,
    a chain of any length gives (constant + sum of the signed amounts) modulo the width,
    whichever way the decoder reads the sign of the amounts. */
  lemma ChainsFoldExactly(r: Resolver, e: Engine, func: int, prefix: seq<Instruction>, chain: seq<Instruction>, regs: seq<int>, size: int)
    requires LayoutContract(r.port) && e.port == r.port && e.locators == r.locators
    requires forall instr :: instr in prefix ==> Straight(r.port, r.locators, instr)
    requires IsChain(r.port, r.locators, chain, regs, size) && chain != []
    requires Forward(e, func, prefix, EMPTY).Register(regs[0]).Concrete?
    ensures forall instr :: instr in chain ==> instr.OperandAt(1).Some?
    ensures var start := Forward(e, func, prefix, EMPTY).Register(regs[0]).value;
      var word := (start + Sum(AsSigned(TermsOf(chain), size))) % Pow2(8 * WidthOf(size));
      var forward, backward := Forward(e, func, prefix + chain, EMPTY).Register(regs[|chain|]), Backward(r, func, prefix + chain, regs[|chain|]);
      forward.Concrete? && forward.value == word && backward == forward
  {
    hide Straight, Sum, AsSigned, SignExtend, Folds, LayoutContract, Forward, Backward, Step, Pow2, TermsOf;
    ForwardFoldsAfter(e, func, prefix, chain, regs, size);
    ChainHasSources(r.port, r.locators, chain, regs, size);
    ChainEndsInAWholeRegister(r.port, r.locators, chain, regs, size);
    StretchesAgree(r, e, func, prefix + chain, regs[|chain|]);
  }
}
