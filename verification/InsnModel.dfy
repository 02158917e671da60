/** Decoded instructions, as both engines see them. */
module InsnModel {
  import opened Values

  datatype OperandKind = VOID | REG | IMMEDIATE | MEM_DIRECT | MEM_PHRASE | MEM_DISPL | FAR | NEAR | SPECIAL

  datatype Operand = Operand(
    kind: OperandKind,
    number: int,
    reg: Option<int>,
    indexReg: Option<int>,
    disp: int,
    addr: int,
    immValue: int,
    dtypeSize: int,
    segmentName: Option<string>)
  {
    predicate IsMemory() { kind.MEM_DIRECT? || kind.MEM_PHRASE? || kind.MEM_DISPL? }

    predicate IsBased() { kind.MEM_PHRASE? || kind.MEM_DISPL? }

    predicate HasIndex() { indexReg.Some? }

    predicate HasSegment() { segmentName.Some? && segmentName.value != "" }
  }

  datatype Instruction = Instruction(
    ea: int,
    mnem: string,
    size: nat,
    operands: seq<Operand>,
    operandWritten: seq<bool>,
    operandRead: seq<bool>,
    isControlTransfer: bool)
  {
    function NextEa(): int { ea + size }

    function OperandAt(number: int): (r: Option<Operand>)
      ensures r.Some? ==> r.value in operands && r.value.number == number
      ensures r.None? ==> forall op :: op in operands ==> op.number != number
    {
      FindOperand(operands, number)
    }

    predicate IsWritten(number: int) { Flag(operands, operandWritten, number) }

    predicate IsRead(number: int) { Flag(operands, operandRead, number) }

    /** Written and not read, and false when the read flags were never filled in. */
    predicate IsPureDefinitionOf(number: int) { IsWritten(number) && !IsRead(number) && |operandRead| > 0 }

    predicate IsCall() { StartsWith(mnem, "call") }

    predicate IsMove() { mnem == "mov" || mnem == "movzx" || mnem == "movsx" || mnem == "movsxd" }
  }

  predicate StartsWith(s: string, prefix: string) { |prefix| <= |s| && s[..|prefix|] == prefix }

  /** The first operand of that number, and none only if there is none. */
  function FindOperand(operands: seq<Operand>, number: int): (r: Option<Operand>)
    ensures r.Some? ==> r.value in operands && r.value.number == number
    ensures r.None? ==> forall op :: op in operands ==> op.number != number
  {
    if operands == [] then None
    else if operands[0].number == number then Some(operands[0])
    else FindOperand(operands[1..], number)
  }

  lemma {:induction false} FirstIsFound(operands: seq<Operand>, number: int, i: nat)
    requires i < |operands| && operands[i].number == number && forall j :: 0 <= j < i ==> operands[j].number != number
    ensures FindOperand(operands, number) == Some(operands[i])
  {
    if i > 0 { FirstIsFound(operands[1..], number, i - 1); }
  }

  /** The flag that runs parallel to the first operand of that number. */
  predicate Flag(operands: seq<Operand>, flags: seq<bool>, number: int) {
    |operands| > 0 && |flags| > 0 &&
    if operands[0].number == number then flags[0] else Flag(operands[1..], flags[1..], number)
  }
}
