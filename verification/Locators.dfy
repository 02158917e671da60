/** The built-in locators: which instruction shapes each recognises, what it asks of
  the backward resolver, and what it does to a forward state.

  A locator calls back into the resolver at most once, so a backward `extract` is
  given as a `Plan`: the one callback it makes and how it folds the answer. */
module Locators {
  import opened Values
  import opened InsnModel
  import opened Merge
  import opened State
  import opened Arithmetic

  datatype Locator =
    | MovRegReg | MovRegImm | LeaRegAddr | XchgRegReg | CmovRegReg
    | MovMemImm | MovRegMem | Push | MovMemReg | CallReturn
    | LeaRegDispl | AddSubRegImm | ZeroIdiom

  predicate Kinds(instr: Instruction, dst: OperandKind, src: OperandKind) {
    var a, b := instr.OperandAt(0), instr.OperandAt(1);
    a.Some? && b.Some? && a.value.kind == dst && b.value.kind == src
  }

  function Dst(instr: Instruction): (r: Operand)
    requires instr.OperandAt(0).Some?
    ensures r in instr.operands && r.number == 0
  {
    instr.OperandAt(0).value
  }

  function Src(instr: Instruction): (r: Operand)
    requires instr.OperandAt(1).Some?
    ensures r in instr.operands && r.number == 1
  {
    instr.OperandAt(1).value
  }

  predicate Matches(loc: Locator, instr: Instruction) {
    var a, b := instr.OperandAt(0), instr.OperandAt(1);
    match loc
    case MovRegReg => instr.IsMove() && Kinds(instr, REG, REG)
    case MovRegImm => instr.mnem == "mov" && Kinds(instr, REG, IMMEDIATE)
    case LeaRegAddr => instr.mnem == "lea" && Kinds(instr, REG, MEM_DIRECT)
    case XchgRegReg => instr.mnem == "xchg" && Kinds(instr, REG, REG)
    case CmovRegReg => StartsWith(instr.mnem, "cmov") && a.Some? && b.Some? && a.value.kind == REG
    case MovMemImm => instr.mnem == "mov" && a.Some? && a.value.IsMemory() && b.Some? && b.value.kind == IMMEDIATE
    case MovRegMem => instr.IsMove() && a.Some? && a.value.kind == REG && b.Some? && b.value.IsMemory()
    case Push => instr.mnem == "push" && a.Some?
    case MovMemReg => instr.mnem == "mov" && a.Some? && a.value.IsMemory() && b.Some? && b.value.kind == REG
    case CallReturn => instr.IsCall()
    case LeaRegDispl =>
      && instr.mnem == "lea" && a.Some? && b.Some? && a.value.kind == REG
      && b.value.IsBased() && b.value.reg.Some? && !b.value.HasIndex()
    case AddSubRegImm => (instr.mnem == "add" || instr.mnem == "sub") && Kinds(instr, REG, IMMEDIATE)
    case ZeroIdiom => (instr.mnem == "xor" || instr.mnem == "sub") && Kinds(instr, REG, REG) && a.value.reg == b.value.reg
  }

  /** `LocatorRegistry.match`: the first in the registry's order that matches. */
  function Dispatch(locators: seq<Locator>, instr: Instruction): (r: Option<Locator>)
    ensures r.Some? ==> r.value in locators && Matches(r.value, instr)
    ensures r.None? ==> forall l :: l in locators ==> !Matches(l, instr)
  {
    if locators == [] then None
    else if Matches(locators[0], instr) then Some(locators[0])
    else Dispatch(locators[1..], instr)
  }

  // -- backward ---------------------------------------------------------------------

  datatype Fold = Same | Displace(disp: int, leaSize: int) | Adjust(delta: int, addSize: int)

  datatype Plan =
    | Done(value: Value)
    | FromRegister(reg: int, fold: Fold)
    | FromMemory(base: Option<int>, offset: int, size: int)
    | NotApplicable

  function Folded(fold: Fold, v: Value): Value {
    match fold
    case Same => v
    case Displace(disp, size) =>
      if v.Concrete? then Concrete(WrapToWidth(v.value + disp, size), PointerKind)
      else if v.Unknown? then v
      else Unk(UNSUPPORTED_OPERAND_SHAPE)
    case Adjust(delta, size) =>
      if v.Concrete? then Concrete(WrapToWidth(v.value + delta, size), IntKind) else v
  }

  function RegisterPlan(reg: Option<int>, fold: Fold): Plan {
    if reg.Some? then FromRegister(reg.value, fold) else Done(Unk(UNSUPPORTED_OPERAND_SHAPE))
  }

  function LoadPlan(op: Operand, pointerSize: nat): Plan {
    var size := if op.dtypeSize != 0 then op.dtypeSize else pointerSize;
    if op.HasIndex() || op.HasSegment() then Done(Unk(UNSUPPORTED_OPERAND_SHAPE))
    else if op.kind == MEM_DIRECT then FromMemory(None, op.addr, size)
    else if op.IsBased() && op.reg.Some? then FromMemory(op.reg, op.disp, size)
    else Done(Unk(UNSUPPORTED_OPERAND_SHAPE))
  }

  function AddSubDelta(instr: Instruction): int
    requires instr.OperandAt(1).Some?
  {
    if instr.mnem == "add" then Src(instr).immValue else -Src(instr).immValue
  }

  function Extract(loc: Locator, instr: Instruction, destOperand: int, pointerSize: nat): Plan
    requires Matches(loc, instr)
  {
    match loc
    case MovRegReg => RegisterPlan(Src(instr).reg, Same)
    case MovRegImm => Done(Concrete(Src(instr).immValue, IntKind))
    case LeaRegAddr => Done(Concrete(Src(instr).addr, PointerKind))
    case XchgRegReg =>
      var other := instr.OperandAt(1 - destOperand);
      if other.Some? && other.value.kind == REG then RegisterPlan(other.value.reg, Same) else NotApplicable
    case CmovRegReg => Done(Unk(DIVERGENT_PATHS))
    case MovMemImm => Done(Concrete(Src(instr).immValue, IntKind))
    case MovRegMem => LoadPlan(Src(instr), pointerSize)
    case Push =>
      var op := Dst(instr);
      if op.kind == REG then RegisterPlan(op.reg, Same)
      else if op.kind == IMMEDIATE then Done(Concrete(op.immValue, IntKind))
      else if op.IsMemory() then LoadPlan(op, pointerSize)
      else NotApplicable
    case MovMemReg => RegisterPlan(Src(instr).reg, Same)
    case CallReturn => Done(Symbolic(Ret(instr.ea)))
    case LeaRegDispl => FromRegister(Src(instr).reg.value, Displace(Src(instr).disp, Dst(instr).dtypeSize))
    case AddSubRegImm => RegisterPlan(Dst(instr).reg, Adjust(AddSubDelta(instr), Dst(instr).dtypeSize))
    case ZeroIdiom => Done(Concrete(0, IntKind))
  }

  // -- forward ----------------------------------------------------------------------

  /** Whether the locator overrides `apply_forward` instead of inheriting the default. */
  predicate DefinesForward(loc: Locator) {
    !loc.MovMemImm? && !loc.MovRegMem? && !loc.Push? && !loc.MovMemReg? && !loc.CallReturn?
  }

  function ForwardAdjust(delta: int, size: int, v: Value): Value {
    if v.Concrete? then Concrete(WrapToWidth(v.value + delta, size), IntKind)
    else if v.Unknown? then v
    else Unk(UNSUPPORTED_OPERAND_SHAPE)
  }

  function ApplyForward(loc: Locator, instr: Instruction, s: State): State
    requires Matches(loc, instr) && DefinesForward(loc)
  {
    var dst, src := Dst(instr), Src(instr);
    match loc
    case MovRegReg => s.With(dst.reg, s.RegisterOf(src.reg))
    case MovRegImm => s.With(dst.reg, Concrete(src.immValue, IntKind))
    case LeaRegAddr => s.With(dst.reg, Concrete(src.addr, PointerKind))
    case XchgRegReg => s.With(dst.reg, s.RegisterOf(src.reg)).With(src.reg, s.RegisterOf(dst.reg))
    case CmovRegReg => s.With(dst.reg, Join(s.RegisterOf(dst.reg), s.RegisterOf(src.reg)))
    case LeaRegDispl => s.With(dst.reg, Folded(Displace(src.disp, dst.dtypeSize), s.RegisterOf(src.reg)))
    case AddSubRegImm => s.With(dst.reg, ForwardAdjust(AddSubDelta(instr), dst.dtypeSize, s.RegisterOf(dst.reg)))
    case ZeroIdiom => s.With(dst.reg, Concrete(0, IntKind))
  }

  method ApplyForwardTo(loc: Locator, instr: Instruction, state: AbstractState)
    requires Matches(loc, instr) && DefinesForward(loc)
    modifies state
    ensures state.View() == ApplyForward(loc, instr, old(state.View()))
  {
    var dst, src := Dst(instr), Src(instr);
    var view := state.View();
    match loc {
      case MovRegReg => state.SetRegister(dst.reg, view.RegisterOf(src.reg));
      case MovRegImm => state.SetRegister(dst.reg, Concrete(src.immValue, IntKind));
      case LeaRegAddr => state.SetRegister(dst.reg, Concrete(src.addr, PointerKind));
      case XchgRegReg =>
        var va, vb := view.RegisterOf(dst.reg), view.RegisterOf(src.reg);
        state.SetRegister(dst.reg, vb);
        state.SetRegister(src.reg, va);
      case CmovRegReg =>
        state.SetRegister(dst.reg, Join(view.RegisterOf(dst.reg), view.RegisterOf(src.reg)));
      case LeaRegDispl =>
        var base := view.RegisterOf(src.reg);
        if !base.Concrete? {
          state.SetRegister(dst.reg, if base.IsKnown() then Unk(UNSUPPORTED_OPERAND_SHAPE) else base);
        } else {
          state.SetRegister(dst.reg, Concrete(WrapToWidth(base.value + src.disp, dst.dtypeSize), PointerKind));
        }
      case AddSubRegImm =>
        var prior := view.RegisterOf(dst.reg);
        if !prior.Concrete? {
          state.SetRegister(dst.reg, if prior.IsKnown() then Unk(UNSUPPORTED_OPERAND_SHAPE) else prior);
        } else {
          var delta := if instr.mnem == "add" then src.immValue else -src.immValue;
          state.SetRegister(dst.reg, Concrete(WrapToWidth(prior.value + delta, dst.dtypeSize), IntKind));
        }
      case ZeroIdiom => state.SetRegister(dst.reg, Concrete(0, IntKind));
    }
  }
}
