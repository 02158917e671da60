/** Where memory operands point.  The engines name cells without knowing any address; against
  the address the processor computes, one name is one address, and within one region two
  names are two. */
module Addresses {
  import opened Values
  import opened InsnModel
  import opened Port
  import opened State
  import opened Addressing
  import opened Arithmetic
  import opened Machine

  function AddressSpace(port: IdaPort): int { Pow2(WordBits(port)) }

  /** The address an operand points to in a machine state, within its segment. */
  function AddressOf(port: IdaPort, op: Operand, m: MState): int
    requires Addressed(op)
  {
    (if op.kind == MEM_DIRECT then op.addr else m.Reg(Parent(port, op.reg.value)) + op.disp) % AddressSpace(port)
  }

  /** What the stack deltas promise: how far the stack pointer stands from where it stood on
    entry to the function. */
  ghost predicate StackAsTold(port: IdaPort, func: int, ea: int, entry: int, m: MState) {
    port.stackPointerReg.Some? && port.spDelta(func, ea).Some? ==>
      m.Reg(Parent(port, port.stackPointerReg.value)) == (entry + port.spDelta(func, ea).value) % AddressSpace(port)
  }

  // -- the place of a cell -------------------------------------------------------------------

  function RegisterWord(port: IdaPort, reg: Option<int>, m: MState): int {
    if reg.Some? then m.Reg(Parent(port, reg.value)) else 0
  }

  /** Where the region of a cell begins. */
  function Origin(port: IdaPort, entry: int, m: MState, space: Space): int {
    match space
    case Absolute => 0
    case StackPointer => entry
    case StackUnknown(_) => RegisterWord(port, port.stackPointerReg, m)
    case FramePointer => RegisterWord(port, port.framePointerReg, m)
    case Based(reg) => RegisterWord(port, Some(reg), m)
    case Segment(_, inner) => Origin(port, entry, m, inner)
  }

  function Place(port: IdaPort, entry: int, m: MState, cell: Cell): int {
    (Origin(port, entry, m, cell.space) + cell.offset) % AddressSpace(port)
  }

  /** The cell that an operand is taken to name lies where the operand points. */
  lemma OperandIsAtItsCell(port: IdaPort, func: int, op: Operand, ea: int, entry: int, m: MState)
    requires Addressed(op) && StackAsTold(port, func, ea, entry, m)
    ensures Place(port, entry, m, OperandCell(port, op, ea, func)) == AddressOf(port, op, m)
  {
    hide Pow2, Parent;
    var cell := OperandCell(port, op, ea, func);
    var plain := if op.HasSegment() then cell.space.inner else cell.space;
    assert Origin(port, entry, m, cell.space) == Origin(port, entry, m, plain);
    if op.kind != MEM_DIRECT && port.stackPointerReg == op.reg && port.spDelta(func, ea).Some? {
      ModAdds(entry + port.spDelta(func, ea).value, op.disp, AddressSpace(port));
    }
  }

  // -- regions ---------------------------------------------------------------------------------

  /** The operand is relative to the stack pointer where its distance from the entry is told. */
  predicate OnToldStack(port: IdaPort, func: int, op: Operand, ea: int) {
    op.kind != MEM_DIRECT && op.reg.Some? && op.reg == port.stackPointerReg && port.spDelta(func, ea).Some?
  }

  predicate SameSegment(op1: Operand, op2: Operand) {
    if op1.HasSegment() then op1.segmentName == op2.segmentName else !op2.HasSegment()
  }

  /** Both direct, or relative to one register; for the stack pointer, at told distances or at
    one instruction. */
  predicate SameRegion(port: IdaPort, func: int, op1: Operand, ea1: int, op2: Operand, ea2: int)
    requires Addressed(op1) && Addressed(op2)
  {
    && SameSegment(op1, op2)
    && (op1.kind == MEM_DIRECT <==> op2.kind == MEM_DIRECT)
    && (op1.kind != MEM_DIRECT ==>
          && op1.reg == op2.reg
          && (op1.reg == port.stackPointerReg ==>
                (OnToldStack(port, func, op1, ea1) <==> OnToldStack(port, func, op2, ea2))
                && (OnToldStack(port, func, op1, ea1) || ea1 == ea2)))
  }

  /** Two operands name cells of one region exactly when they are of one segment and one base. */
  lemma RegionsAreBases(port: IdaPort, func: int, op1: Operand, ea1: int, op2: Operand, ea2: int)
    requires Addressed(op1) && Addressed(op2)
    ensures OperandCell(port, op1, ea1, func).space == OperandCell(port, op2, ea2, func).space
       <==> SameRegion(port, func, op1, ea1, op2, ea2)
  {}

  // -- one cell, one address ---------------------------------------------------------------------

  /** How far an operand points from the address its region is counted from. */
  function Reach(port: IdaPort, func: int, op: Operand, ea: int): int {
    if op.kind == MEM_DIRECT then op.addr
    else if OnToldStack(port, func, op, ea) then port.spDelta(func, ea).value + op.disp
    else op.disp
  }

  /** Less than the whole address space apart. */
  predicate Near(port: IdaPort, func: int, op1: Operand, ea1: int, op2: Operand, ea2: int) {
    -AddressSpace(port) < Reach(port, func, op1, ea1) - Reach(port, func, op2, ea2) < AddressSpace(port)
  }

  /** The base register, unless it is the stack pointer at a told distance, has not changed. */
  ghost predicate SameBase(port: IdaPort, func: int, op1: Operand, ea1: int, m1: MState, m2: MState)
    requires Addressed(op1)
  {
    op1.kind != MEM_DIRECT && !OnToldStack(port, func, op1, ea1) ==>
      m1.Reg(Parent(port, op1.reg.value)) == m2.Reg(Parent(port, op1.reg.value))
  }

  lemma Quotients(a: int, b: int, m: int)
    requires m > 0
    ensures a - b == (a / m - b / m) * m + (a % m - b % m)
  {
    assert a == (a / m) * m + a % m && b == (b / m) * m + b % m;
    assert (a / m - b / m) * m == (a / m) * m - (b / m) * m;
  }

  lemma Congruent(a: int, b: int, m: int)
    requires m > 0
    ensures a % m == b % m <==> (a - b) % m == 0
  {
    Quotients(a, b, m);
    var k, d := a / m - b / m, a % m - b % m;
    if d >= 0 {
      DivisionIsUnique(a - b, m, k, d);
    } else {
      assert (k - 1) * m == k * m - m;
      DivisionIsUnique(a - b, m, k - 1, d + m);
    }
  }

  lemma {:induction false} NearMultipleIsZero(d: int, m: int)
    requires m > 0 && d % m == 0 && -m < d < m
    ensures d == 0
  {
    if d < 0 { DivisionIsUnique(d, m, -1, d + m); }
  }

  lemma OffsetsAreReaches(port: IdaPort, func: int, op: Operand, ea: int)
    requires Addressed(op)
    ensures OperandCell(port, op, ea, func).offset == Reach(port, func, op, ea)
  {}

  lemma OriginsAgree(port: IdaPort, func: int, entry: int, op1: Operand, ea1: int, m1: MState, op2: Operand, ea2: int, m2: MState)
    requires Addressed(op1) && Addressed(op2)
    requires SameRegion(port, func, op1, ea1, op2, ea2) && SameBase(port, func, op1, ea1, m1, m2)
    ensures Origin(port, entry, m1, OperandCell(port, op1, ea1, func).space) ==
      Origin(port, entry, m2, OperandCell(port, op2, ea2, func).space)
  {
    hide Parent;
  }

  /** Two operands that are not indexed name one cell exactly when they are of one region and
    point to one address. */
  lemma OneCellIsOneAddress(port: IdaPort, func: int, entry: int, op1: Operand, ea1: int, m1: MState, op2: Operand, ea2: int, m2: MState)
    requires Addressed(op1) && Addressed(op2) && !op1.HasIndex() && !op2.HasIndex()
    requires StackAsTold(port, func, ea1, entry, m1) && StackAsTold(port, func, ea2, entry, m2)
    requires SameBase(port, func, op1, ea1, m1, m2)
    ensures OperandCell(port, op1, ea1, func) == OperandCell(port, op2, ea2, func) <==>
      && SameRegion(port, func, op1, ea1, op2, ea2) && Near(port, func, op1, ea1, op2, ea2)
      && AddressOf(port, op1, m1) == AddressOf(port, op2, m2)
  {
    hide Origin, OperandCell, SameRegion, StackAsTold, SameBase, AddressOf, Pow2, OnToldStack;
    var c1, c2 := OperandCell(port, op1, ea1, func), OperandCell(port, op2, ea2, func);
    RegionsAreBases(port, func, op1, ea1, op2, ea2);
    OffsetsAreReaches(port, func, op1, ea1);
    OffsetsAreReaches(port, func, op2, ea2);
    OperandIsAtItsCell(port, func, op1, ea1, entry, m1);
    OperandIsAtItsCell(port, func, op2, ea2, entry, m2);
    if SameRegion(port, func, op1, ea1, op2, ea2) {
      OriginsAgree(port, func, entry, op1, ea1, m1, op2, ea2, m2);
      var origin := Origin(port, entry, m1, c1.space);
      Congruent(origin + c1.offset, origin + c2.offset, AddressSpace(port));
      assert (origin + c1.offset) - (origin + c2.offset) == c1.offset - c2.offset;
      if (c1.offset - c2.offset) % AddressSpace(port) == 0 && Near(port, func, op1, ea1, op2, ea2) {
        NearMultipleIsZero(c1.offset - c2.offset, AddressSpace(port));
      }
    }
  }

  // -- the forward engine's slots -----------------------------------------------------------------

  /** The operand names one cell of the frame: relative to the stack pointer at a told distance,
    or else to the frame pointer, with neither index nor segment. */
  predicate NamesASlot(port: IdaPort, func: int, op: Operand, ea: int) {
    && op.IsBased() && op.reg.Some? && !op.HasIndex() && !op.HasSegment()
    && (if op.reg == port.stackPointerReg then port.spDelta(func, ea).Some? else op.reg == port.framePointerReg)
  }

  /** The forward engine tracks exactly the operands that name a slot, and two of them as one
    slot exactly when they point to one address off one register. */
  lemma OneSlotIsOneAddress(port: IdaPort, func: int, entry: int, op1: Operand, ea1: int, m1: MState, op2: Operand, ea2: int, m2: MState)
    requires StackAsTold(port, func, ea1, entry, m1) && StackAsTold(port, func, ea2, entry, m2)
    requires Addressed(op1) ==> SameBase(port, func, op1, ea1, m1, m2)
    ensures var key1, key2 := StackKey(port, op1, ea1, func), StackKey(port, op2, ea2, func);
      && (key1.Some? <==> NamesASlot(port, func, op1, ea1))
      && (key1.Some? && key2.Some? ==>
            (key1 == key2 <==>
              op1.reg == op2.reg && Near(port, func, op1, ea1, op2, ea2) && AddressOf(port, op1, m1) == AddressOf(port, op2, m2)))
  {
    var key1, key2 := StackKey(port, op1, ea1, func), StackKey(port, op2, ea2, func);
    if key1.Some? && key2.Some? {
      assert !op1.HasIndex() && !op2.HasIndex();
      assert SameRegion(port, func, op1, ea1, op2, ea2) <==> op1.reg == op2.reg;
      hide StackAsTold, SameBase, SameRegion, Near, AddressOf, OperandCell, StackKey, OnToldStack;
      OneCellIsOneAddress(port, func, entry, op1, ea1, m1, op2, ea2, m2);
    }
  }

  // -- pushes --------------------------------------------------------------------------------------

  /** A push keeps what the stack deltas promise, if the next delta is one word less, and its
    word is put where the stack pointer then stands. */
  lemma PushKeepsTheStackAsTold(port: IdaPort, func: int, push: Instruction, next: int, entry: int, m: MState, m': MState)
    requires LayoutContract(port) && port.stackPointerReg.Some? && Bits(port, Parent(port, port.stackPointerReg.value)) == WordBits(port)
    requires push.mnem == "push" && push.OperandAt(0).Some? && Executes(port, func, push, m, m')
    requires StackAsTold(port, func, push.ea, entry, m) && port.spDelta(func, push.ea).Some?
    requires port.spDelta(func, next) == Some(port.spDelta(func, push.ea).value - port.pointerSize)
    ensures StackAsTold(port, func, next, entry, m')
    ensures Place(port, entry, m', BelowTheStack(port, func, push)) == m'.Reg(Parent(port, port.stackPointerReg.value))
  {
    assert ComputesPush(port, func, push, m, m');
    hide Executes, LayoutContract, Pow2, Parent, Bits, PushedWord;
    ModAdds(entry + port.spDelta(func, push.ea).value, 0 - port.pointerSize, AddressSpace(port));
  }
}
