/** Which cell a memory operand names, and which part of which register a register
  operand names. */
module Addressing {
  import opened Values
  import opened InsnModel
  import opened Port
  import opened State

  /** A stack-pointer reference without a known delta is given a region of its own. */
  function MemoryLocation(port: IdaPort, base: Option<int>, disp: int, ea: int, func: int): Cell {
    if base.None? then Cell(Absolute, disp)
    else if port.stackPointerReg == base then
      match port.spDelta(func, ea)
      case None => Cell(StackUnknown(ea), disp)
      case Some(delta) => Cell(StackPointer, delta + disp)
    else if port.framePointerReg == base then Cell(FramePointer, disp)
    else Cell(Based(base.value), disp)
  }

  /** The operand addresses memory directly or through a base register. */
  predicate Addressed(op: Operand) { op.kind == MEM_DIRECT || (op.IsBased() && op.reg.Some?) }

  function OperandCell(port: IdaPort, op: Operand, ea: int, func: int): Cell {
    var plain := if op.kind == MEM_DIRECT then MemoryLocation(port, None, op.addr, ea, func)
                 else MemoryLocation(port, op.reg, op.disp, ea, func);
    if op.HasSegment() then Cell(Segment(op.segmentName.value, plain.space), plain.offset) else plain
  }

  /** The forward engine tracks only cells at a fixed offset in the caller's frame. */
  function StackKey(port: IdaPort, op: Operand, ea: int, func: int): (r: Option<Cell>)
    ensures r.Some? ==> Addressed(op) && r.value == OperandCell(port, op, ea, func)
    ensures r.Some? ==> r.value.space == StackPointer || r.value.space == FramePointer
  {
    if !op.IsBased() || op.reg.None? || op.HasIndex() || op.HasSegment() then None
    else if port.stackPointerReg == op.reg then
      match port.spDelta(func, ea)
      case None => None
      case Some(delta) => Some(Cell(StackPointer, delta + op.disp))
    else if port.framePointerReg == op.reg then Some(Cell(FramePointer, op.disp))
    else None
  }

  predicate IsStackRelative(port: IdaPort, op: Operand) {
    op.reg.Some? && (op.reg == port.stackPointerReg || op.reg == port.framePointerReg)
  }
}
