/** Moves and loads are answered with the whole of what they read, and parts of registers with
  the whole register: right exactly for the widths at which the two are one. */
module Widths {
  import opened InsnModel
  import opened Port
  import opened Arithmetic
  import opened Machine
  import opened BackwardSpec

  /** The machine where one register holds a word and everything else zero. */
  function Holding(reg: int, word: int): MState { MState(map[reg := word], map[], {}) }

  lemma HoldingIsInRange(port: IdaPort, reg: int, word: int)
    requires 0 <= word < Pow2(Bits(port, reg))
    ensures InRange(port, Holding(reg, word))
  {
    forall p ensures 0 <= Holding(reg, word).Reg(p) < Pow2(Bits(port, p)) { Pow2Grows(0, Bits(port, p)); }
  }

  /** The word of the source's whole register is the word the move leaves behind. */
  ghost predicate PassesEveryWord(port: IdaPort, instr: Instruction, src: Operand, dstBits: nat)
    requires src.reg.Some?
  {
    forall m :: InRange(port, m) ==> Extended(port, instr, m, src) % Pow2(dstBits) == m.Reg(Parent(port, src.reg.value))
  }

  /** The source is read to its last bit and nothing of it is cut off or filled up. */
  predicate WideEnough(port: IdaPort, instr: Instruction, src: Operand, dstBits: nat)
    requires src.reg.Some?
  {
    var view, bits := OpView(port, src), Bits(port, Parent(port, src.reg.value));
    && view.bitOffset == 0 && view.bitSize >= bits && dstBits >= bits
    && (ExtendsSign(instr) && view.bitSize == bits ==> dstBits == bits)
  }

  lemma WideMovesPassEveryWord(port: IdaPort, instr: Instruction, src: Operand, dstBits: nat)
    requires LayoutContract(port) && src.reg.Some? && Bits(port, Parent(port, src.reg.value)) > 0
    requires WideEnough(port, instr, src, dstBits)
    ensures PassesEveryWord(port, instr, src, dstBits)
  {
    var view, whole := OpView(port, src), Parent(port, src.reg.value);
    var bits := Bits(port, whole);
    assert view.parent == whole;
    forall m | InRange(port, m) ensures Extended(port, instr, m, src) % Pow2(dstBits) == m.Reg(whole) {
      WidePassesWord(m.Reg(whole), bits, view.bitSize, dstBits, ExtendsSign(instr));
      assert Pow2(0) == 1;
    }
  }

  function Extension(word: int, offset: nat, size: nat, signed: bool): int {
    var read := (word / Pow2(offset)) % Pow2(size);
    if signed && size > 0 then SignExtend(read, size) else read
  }

  lemma WidePassesWord(word: int, bits: nat, size: nat, dstBits: nat, signed: bool)
    requires 0 <= word < Pow2(bits) && 0 < bits <= size && bits <= dstBits && (signed && size == bits ==> dstBits == bits)
    ensures Extension(word, 0, size, signed) % Pow2(dstBits) == word
  {
    Pow2Grows(bits, size);
    Pow2Grows(bits, dstBits);
    assert Pow2(0) == 1;
    DivisionIsUnique(word, Pow2(size), 0, word);
    DivisionIsUnique(word, Pow2(dstBits), 0, word);
    if signed && size == bits {
      SignExtensionIsCongruent(word, size);
    } else if signed {
      Pow2Grows(bits, size - 1);
    }
  }

  /** A word that is not passed through, whenever the widths are wrong. */
  lemma NarrowLosesAWord(bits: nat, offset: nat, size: nat, dstBits: nat, signed: bool) returns (word: int)
    requires bits > 0 && !(offset == 0 && size >= bits && dstBits >= bits && (signed && size == bits ==> dstBits == bits))
    ensures 0 <= word < Pow2(bits) && Extension(word, offset, size, signed) % Pow2(dstBits) != word
  {
    hide Extension, Pow2;
    if offset > 0 || size < bits {
      word := ReadsAsZero(bits, offset, size, dstBits, signed);
    } else if dstBits < bits {
      word := CutOff(bits, size, dstBits, signed);
    } else {
      word := FilledUp(bits, dstBits);
    }
  }

  lemma ReadsAsZero(bits: nat, offset: nat, size: nat, dstBits: nat, signed: bool) returns (word: int)
    requires bits > 0 && (offset > 0 || size < bits)
    ensures 0 <= word < Pow2(bits) && Extension(word, offset, size, signed) % Pow2(dstBits) != word
  {
    ZeroExtends(size, dstBits);
    Pow2Grows(0, size);
    Pow2Grows(0, bits);
    DivisionIsUnique(0, Pow2(size), 0, 0);
    assert Pow2(0) == 1;
    if offset > 0 {
      Pow2Grows(0, offset);
      word := 1;
      assert 1 / Pow2(offset) == 0;
    } else {
      Pow2Grows(size, bits);
      word := Pow2(size);
      DivisionIsUnique(word, Pow2(size), 1, 0);
      assert word / Pow2(0) == word;
    }
  }

  lemma ZeroExtends(size: nat, dstBits: nat)
    ensures size > 0 ==> SignExtend(0, size) == 0
    ensures 0 % Pow2(dstBits) == 0
  {
    DivisionIsUnique(0, Pow2(dstBits), 0, 0);
    if size > 0 {
      DivisionIsUnique(0, Pow2(size), 0, 0);
      Pow2Grows(0, size - 1);
    }
  }

  lemma CutOff(bits: nat, size: nat, dstBits: nat, signed: bool) returns (word: int)
    requires dstBits < bits <= size
    ensures 0 <= word < Pow2(bits) && Extension(word, 0, size, signed) % Pow2(dstBits) != word
  {
    Pow2Grows(dstBits, bits);
    Pow2Grows(bits, size);
    Pow2Grows(0, dstBits);
    assert Pow2(0) == 1;
    word := Pow2(dstBits);
    DivisionIsUnique(word, Pow2(size), 0, word);
    DivisionIsUnique(word, Pow2(dstBits), 1, 0);
    Pow2Adds(size - dstBits, dstBits);
    var times: int := Pow2(size - dstBits);
    ModDropsMultiples(word, -times, Pow2(dstBits));
  }

  lemma FilledUp(bits: nat, dstBits: nat) returns (word: int)
    requires 0 < bits < dstBits
    ensures 0 <= word < Pow2(bits) && Extension(word, 0, bits, true) % Pow2(dstBits) != word
  {
    Pow2Grows(bits, dstBits);
    Pow2Grows(0, bits - 1);
    assert Pow2(0) == 1;
    word := Pow2(bits - 1);
    DivisionIsUnique(word, Pow2(bits), 0, word);
    DivisionIsUnique(-word, Pow2(dstBits), -1, Pow2(dstBits) - word);
  }

  /** `mov`, `movzx`, `movsx` and `movsxd` between registers pass the source's value on as
    it is, the whole register's where the source is a part of one; that is right for every
    machine exactly when the source is read to its last bit and nothing is cut off or filled up. */
  lemma MovesPassExactlyTheWideSources(port: IdaPort, instr: Instruction, src: Operand, dstBits: nat)
    requires LayoutContract(port) && src.reg.Some? && Bits(port, Parent(port, src.reg.value)) > 0
    ensures PassesEveryWord(port, instr, src, dstBits) <==> WideEnough(port, instr, src, dstBits)
  {
    if WideEnough(port, instr, src, dstBits) {
      WideMovesPassEveryWord(port, instr, src, dstBits);
    } else {
      var view, reg := OpView(port, src), Parent(port, src.reg.value);
      assert view.parent == reg;
      var word := NarrowLosesAWord(Bits(port, reg), view.bitOffset, view.bitSize, dstBits, ExtendsSign(instr));
      HoldingIsInRange(port, reg, word);
      assert Extended(port, instr, Holding(reg, word), src) == Extension(word, view.bitOffset, view.bitSize, ExtendsSign(instr));
    }
  }

  // -- loads ---------------------------------------------------------------------------------

  /** The word of the cell is the word the load leaves behind. */
  ghost predicate LoadsEveryWord(instr: Instruction, src: Operand, wordBits: nat, dstBits: nat) {
    forall word :: FitsWord(word, wordBits) ==> Loaded(instr, src, word) % Pow2(dstBits) == word
  }

  /** The destination takes a whole word, and so does a widening load's source. */
  predicate LoadIsWide(instr: Instruction, src: Operand, wordBits: nat, dstBits: nat) {
    var size := 8 * WidthOf(src.dtypeSize);
    && dstBits >= wordBits
    && (instr.mnem != "mov" ==> size >= wordBits && (ExtendsSign(instr) && size == wordBits ==> dstBits == wordBits))
  }

  /** How much of the word a load reads. */
  function LoadSize(instr: Instruction, src: Operand, wordBits: nat): nat {
    if instr.mnem == "mov" then wordBits else 8 * WidthOf(src.dtypeSize)
  }

  lemma LoadedIsExtended(instr: Instruction, src: Operand, wordBits: nat, word: int)
    requires FitsWord(word, wordBits)
    ensures Loaded(instr, src, word) == Extension(word, 0, LoadSize(instr, src, wordBits), ExtendsSign(instr))
  {
    assert Pow2(0) == 1;
    DivisionIsUnique(word, Pow2(wordBits), 0, word);
  }

  /** A load is answered with the whole word of its cell; that is right for every word
    exactly when the load moves a whole word. */
  lemma LoadsPassExactlyWholeWords(instr: Instruction, src: Operand, wordBits: nat, dstBits: nat)
    requires wordBits > 0
    ensures LoadsEveryWord(instr, src, wordBits, dstBits) <==> LoadIsWide(instr, src, wordBits, dstBits)
  {
    hide Loaded, Extension, Pow2;
    var size, signed := LoadSize(instr, src, wordBits), ExtendsSign(instr);
    if LoadIsWide(instr, src, wordBits, dstBits) {
      forall word | FitsWord(word, wordBits) ensures Loaded(instr, src, word) % Pow2(dstBits) == word {
        LoadedIsExtended(instr, src, wordBits, word);
        WidePassesWord(word, wordBits, size, dstBits, signed);
      }
    } else {
      var word := NarrowLosesAWord(wordBits, 0, size, dstBits, signed);
      LoadedIsExtended(instr, src, wordBits, word);
    }
  }

  // -- parts of registers --------------------------------------------------------------------

  /** What a view reads of the word in its whole register. */
  function PartOf(view: RegisterView, word: int): int { Extension(word, view.bitOffset, view.bitSize, false) }

  predicate SpansParent(view: RegisterView) { view.bitOffset == 0 && view.bitSize >= view.parentBitSize }

  /** A write that defines a register decides a query for a part of it like one for the
    whole, and the answer is the whole word: which is what the part holds, for every word,
    exactly when the part is the whole. */
  lemma PartsAreAnsweredWithTheWhole(port: IdaPort, instr: Instruction, op: Operand, reg: int)
    requires LayoutContract(port) && port.registerView(reg, 0).Some? && Bits(port, Parent(port, reg)) > 0
    requires op.kind == REG && instr.IsWritten(op.number) && Defines(port, op) && port.registerView(op.reg.value, op.dtypeSize).Some?
    requires op.reg.value == Parent(port, reg)
    ensures DecideOperand(port, instr, op, reg) == Define(op.number) == DecideOperand(port, instr, op, Parent(port, reg))
    ensures var view := ViewOf(port, reg, 0);
      (forall word :: FitsWord(word, view.parentBitSize) ==> PartOf(view, word) == word) <==> SpansParent(view)
  {
    var view, bits := ViewOf(port, reg, 0), Bits(port, Parent(port, reg));
    assert view.parentBitSize == bits && OpView(port, op).parent == op.reg.value;
    PartsAreWholes(view);
  }

  lemma PartsAreWholes(view: RegisterView)
    requires view.parentBitSize > 0
    ensures (forall word :: FitsWord(word, view.parentBitSize) ==> PartOf(view, word) == word) <==> SpansParent(view)
  {
    hide Extension, Pow2;
    var bits := view.parentBitSize;
    if SpansParent(view) {
      forall word | FitsWord(word, bits) ensures PartOf(view, word) == word { WholeIsItself(view, word); }
    } else {
      var word := NarrowLosesAWord(bits, view.bitOffset, view.bitSize, bits, false);
      DivisionIsUnique(word, Pow2(bits), 0, word);
      assert FitsWord(word, view.parentBitSize) && PartOf(view, word) != word;
    }
  }

  lemma WholeIsItself(view: RegisterView, word: int)
    requires SpansParent(view) && FitsWord(word, view.parentBitSize)
    ensures PartOf(view, word) == word
  {
    Pow2Grows(view.parentBitSize, view.bitSize);
    assert Pow2(0) == 1;
    DivisionIsUnique(word, Pow2(view.bitSize), 0, word);
  }
}
