/** The backward resolver as functions that thread the shared budget.

  The walks for registers and for memory cells differ only in what counts as a
  definition and in what reaching the function's entry means, so both are one walk for
  a `Target`. */
module BackwardSpec {
  import opened Values
  import opened InsnModel
  import opened Port
  import opened State
  import opened Addressing
  import opened Locators
  import opened Merge

  datatype Resolver = Resolver(port: IdaPort, locators: seq<Locator>)

  // -- the budget ----------------------------------------------------------------------

  /** `ResolutionBudget`, with meters for what it is there to bound: `touches` counts
    decodes and memory reads, `expanded` counts blocks whose predecessors were walked. */
  datatype Budget = Budget(maxSteps: int, maxBlocks: int, steps: nat, blocks: nat, touches: nat, expanded: nat)
  {
    function Step(): Budget { this.(steps := steps + 1) }

    function StepBlock(): Budget { this.(blocks := blocks + 1) }

    predicate StepsLast() { steps <= maxSteps }

    predicate BlocksLast() { blocks <= maxBlocks }

    function Touch(): Budget { this.(touches := touches + 1) }

    function Expand(): Budget { this.(expanded := expanded + 1) }

    /** What is left of both limits; every recursion of the resolver uses some of it. */
    function Left(): nat {
      (if steps < maxSteps then maxSteps - steps else 0) + (if blocks < maxBlocks then maxBlocks - blocks else 0)
    }

    predicate Metered() {
      && touches <= steps && (touches == 0 || touches <= maxSteps)
      && expanded <= blocks && (expanded == 0 || expanded <= maxBlocks)
    }
  }

  function NewBudget(maxSteps: int, maxBlocks: int): Budget { Budget(maxSteps, maxBlocks, 0, 0, 0, 0) }

  predicate Advances(b: Budget, b': Budget) {
    && b'.maxSteps == b.maxSteps && b'.maxBlocks == b.maxBlocks
    && b.steps <= b'.steps && b.blocks <= b'.blocks
    && (b.Metered() ==> b'.Metered())
  }

  // -- definitions ---------------------------------------------------------------------

  /** What one instruction means to a walk: nothing, a settled answer, or a definition to
    be interpreted as a write of that operand. */
  datatype Decision = Skip | Settle(value: Value) | Define(operand: int)

  predicate IsCallClobbered(port: IdaPort, reg: int) {
    && port.callClobbered != {}
    && (reg in port.callClobbered
        || var view := port.registerView(reg, 0); view.Some? && view.value.parent in port.callClobbered)
  }

  function DecideOperand(port: IdaPort, instr: Instruction, op: Operand, reg: int): Decision {
    if op.kind != REG || op.reg.None? || !instr.IsWritten(op.number) then Skip
    else
      var query, write := port.registerView(reg, 0), port.registerView(op.reg.value, op.dtypeSize);
      if query.None? || write.None? then (if op.reg.value == reg then Define(op.number) else Skip)
      else if write.value.parent != query.value.parent then Skip
      else if write.value.writeDefinesParent || (write.value.bitOffset == 0 && write.value.bitSize >= query.value.bitSize)
      then Define(op.number)
      else Settle(Unk(UNSUPPORTED_OPERAND_SHAPE))
  }

  /** The first operand that is not skipped decides. */
  function DecideOperands(port: IdaPort, instr: Instruction, ops: seq<Operand>, reg: int): (d: Decision)
    ensures d == Skip ==> forall op :: op in ops ==> DecideOperand(port, instr, op, reg) == Skip
    ensures d != Skip ==> exists op :: op in ops && DecideOperand(port, instr, op, reg) == d
  {
    if ops == [] then Skip
    else
      var first := DecideOperand(port, instr, ops[0], reg);
      if first != Skip then first else DecideOperands(port, instr, ops[1..], reg)
  }

  function DecideStore(port: IdaPort, instr: Instruction, op: Operand, func: int, cell: Cell): Decision {
    if !op.IsMemory() || !instr.IsWritten(op.number) || !Addressed(op) then Skip
    else
      var target := OperandCell(port, op, instr.ea, func);
      if op.HasIndex() then (if target.space == cell.space then Settle(Unk(UNSUPPORTED_OPERAND_SHAPE)) else Skip)
      else if target != cell then Skip
      else Define(op.number)
  }

  function DecideStores(port: IdaPort, instr: Instruction, ops: seq<Operand>, func: int, cell: Cell): (d: Decision)
    ensures d == Skip ==> forall op :: op in ops ==> DecideStore(port, instr, op, func, cell) == Skip
    ensures d != Skip ==> exists op :: op in ops && DecideStore(port, instr, op, func, cell) == d
  {
    if ops == [] then Skip
    else
      var first := DecideStore(port, instr, ops[0], func, cell);
      if first != Skip then first else DecideStores(port, instr, ops[1..], func, cell)
  }

  function Decide(port: IdaPort, t: Target, instr: Instruction, func: int): Decision {
    match t
    case Memory(cell) => DecideStores(port, instr, instr.operands, func, cell)
    case Register(reg) =>
      if instr.IsCall() && port.returnValueReg == Some(reg) then Define(0)
      else if instr.IsCall() && IsCallClobbered(port, reg) then Settle(Unk(NO_DEFINITION_FOUND))
      else DecideOperands(port, instr, instr.operands, reg)
  }

  // -- walks -----------------------------------------------------------------------------

  /** A walk finds a value, finds the entry without a write, or closes a cycle. */
  datatype Outcome = Found(value: Value) | NotFound | Cycle

  function Informative(results: seq<Outcome>): (r: seq<Outcome>)
    ensures forall o :: o in r <==> o in results && o != Cycle
  {
    if results == [] then []
    else
      var front := Informative(results[..|results| - 1]);
      assert forall o :: o in results <==> o in results[..|results| - 1] || o == results[|results| - 1];
      if results[|results| - 1] == Cycle then front else front + [results[|results| - 1]]
  }

  function FoundValues(results: seq<Outcome>): (r: seq<Value>)
    ensures |r| <= |results|
    ensures |r| == |results| <==> forall o :: o in results ==> o.Found?
    ensures forall v :: v in r <==> Found(v) in results
  {
    if results == [] then []
    else
      var front := FoundValues(results[..|results| - 1]);
      assert forall o :: o in results <==> o in results[..|results| - 1] || o == results[|results| - 1];
      if results[|results| - 1].Found? then front + [results[|results| - 1].value] else front
  }

  /** Cycle-closing paths are dropped before joining; a cell written on some paths only
    is divergent. */
  function Combine(results: seq<Outcome>): Outcome {
    var informative := Informative(results);
    var found := FoundValues(informative);
    if informative == [] then Cycle
    else if found == [] then NotFound
    else if |found| != |informative| then Found(Unk(DIVERGENT_PATHS))
    else Found(JoinAll(found))
  }

  function EntryOutcome(t: Target): Outcome { if t.Register? then Found(Unk(NO_DEFINITION_FOUND)) else NotFound }

  /** The loop over `prev_head`, from `ea` down to `minEa`. */
  function Scan(r: Resolver, t: Target, ea: Option<int>, minEa: int, func: int, b: Budget): (res: (Option<Value>, Budget))
    ensures Advances(b, res.1)
    decreases b.Left(), 0
  {
    if ea.None? then (None, b)
    else if !b.Step().StepsLast() then (Some(Unk(BUDGET_EXCEEDED)), b.Step())
    else
      var b1 := b.Step().Touch();
      var next := r.port.PrevHead(ea.value, minEa);
      match r.port.decodeAt(ea.value)
      case None => Scan(r, t, next, minEa, func, b1)
      case Some(instr) =>
        match Decide(r.port, t, instr, func)
        case Skip => Scan(r, t, next, minEa, func, b1)
        case Settle(v) => (Some(v), b1)
        case Define(operand) =>
          var (v, b2) := Interpret(r, instr, operand, b1);
          (Some(v), b2)
  }

  /** One turn of the loop. */
  lemma ScanTurns(r: Resolver, t: Target, ea: int, minEa: int, func: int, b: Budget)
    requires b.Step().StepsLast()
    ensures var b1 := b.Step().Touch();
      Scan(r, t, Some(ea), minEa, func, b) ==
        match r.port.decodeAt(ea)
        case None => Scan(r, t, r.port.PrevHead(ea, minEa), minEa, func, b1)
        case Some(instr) =>
          match Decide(r.port, t, instr, func)
          case Skip => Scan(r, t, r.port.PrevHead(ea, minEa), minEa, func, b1)
          case Settle(v) => (Some(v), b1)
          case Define(operand) => var (v, b2) := Interpret(r, instr, operand, b1); (Some(v), b2)
  {
    hide Decide, Interpret;
  }

  lemma ScanEnds(r: Resolver, t: Target, ea: int, minEa: int, func: int, b: Budget)
    ensures Scan(r, t, None, minEa, func, b) == (None, b)
    ensures !b.Step().StepsLast() ==> Scan(r, t, Some(ea), minEa, func, b) == (Some(Unk(BUDGET_EXCEEDED)), b.Step())
  {}

  function Walk(r: Resolver, t: Target, boundary: int, block: Block, func: int, blocks: seq<Block>, visited: set<int>, b: Budget)
    : (res: (Outcome, Budget))
    ensures Advances(b, res.1)
    decreases b.Left(), 2
  {
    var (v, b1) := Scan(r, t, r.port.PrevHead(boundary, block.startEa), block.startEa, func, b);
    var preds := Predecessors(blocks, block);
    if v.Some? then (Found(v.value), b1)
    else if block.startEa in visited then (Cycle, b1)
    else if preds == [] then (EntryOutcome(t), b1)
    else if !b1.StepBlock().BlocksLast() then (Found(Unk(BUDGET_EXCEEDED)), b1.StepBlock())
    else
      var (results, b2) := WalkAll(r, t, preds, func, blocks, visited + {block.startEa}, b1.StepBlock().Expand());
      (Combine(results), b2)
  }

  function WalkAll(r: Resolver, t: Target, preds: seq<Block>, func: int, blocks: seq<Block>, visited: set<int>, b: Budget)
    : (res: (seq<Outcome>, Budget))
    ensures Advances(b, res.1) && |res.0| == |preds|
    decreases b.Left(), 3, |preds|
  {
    if preds == [] then ([], b)
    else
      var (rest, b1) := WalkAll(r, t, preds[..|preds| - 1], func, blocks, visited, b);
      var last := preds[|preds| - 1];
      var (o, b2) := Walk(r, t, last.endEa, last, func, blocks, visited, b1);
      (rest + [o], b2)
  }

  // -- resolution ------------------------------------------------------------------------

  function Search(r: Resolver, t: Target, before: int, func: int, b: Budget): (res: (Outcome, Budget))
    ensures Advances(b, res.1)
    decreases b.Left(), 4
  {
    var blocks := r.port.flowchart(func);
    match BlockContaining(blocks, before)
    case Some(block) => Walk(r, t, before, block, func, blocks, {}, b)
    case None =>
      var (v, b1) := Scan(r, t, r.port.PrevHead(before, func), func, func, b);
      (if v.Some? then Found(v.value) else EntryOutcome(t), b1)
  }

  function ResolveRegister(r: Resolver, reg: int, before: int, b: Budget): (res: (Value, Budget))
    ensures Advances(b, res.1)
    decreases b.Left(), 5
  {
    var b1 := b.Step();
    if !b1.StepsLast() then (Unk(BUDGET_EXCEEDED), b1)
    else
      match r.port.funcStart(before)
      case None => (Unk(NO_DEFINITION_FOUND), b1)
      case Some(func) =>
        var (o, b2) := Search(r, Register(reg), before, func, b1);
        (if o.Found? then o.value else Unk(NO_DEFINITION_FOUND), b2)
  }

  function Dereference(r: Resolver, addr: int, size: int, b: Budget): (res: (Value, Budget))
    ensures Advances(b, res.1)
  {
    var b1 := b.Step();
    if !b1.StepsLast() then (Unk(BUDGET_EXCEEDED), b1)
    else
      var raw := r.port.readInt(addr, size);
      (MemoryRef(addr, if raw.Some? then Concrete(raw.value, IntKind) else Unk(MEMORY_READ_FAILED)), b1.Touch())
  }

  function FallbackDereference(r: Resolver, base: Option<int>, disp: int, before: int, size: int, b: Budget): (res: (Value, Budget))
    ensures Advances(b, res.1)
    decreases b.Left(), 6
  {
    if base.None? then Dereference(r, disp, size, b)
    else
      var (v, b1) := ResolveRegister(r, base.value, before, b);
      if v.Concrete? then Dereference(r, v.value + disp, size, b1) else (Unk(NO_DEFINITION_FOUND), b1)
  }

  function ResolveMemory(r: Resolver, base: Option<int>, disp: int, before: int, size: int, b: Budget): (res: (Value, Budget))
    ensures Advances(b, res.1)
    decreases b.Left(), 7
  {
    var b1 := b.Step();
    if !b1.StepsLast() then (Unk(BUDGET_EXCEEDED), b1)
    else
      match r.port.funcStart(before)
      case None => FallbackDereference(r, base, disp, before, size, b1)
      case Some(func) =>
        var (o, b2) := Search(r, Memory(MemoryLocation(r.port, base, disp, before, func)), before, func, b1);
        if o.Found? then (o.value, b2) else FallbackDereference(r, base, disp, before, size, b2)
  }

  function Interpret(r: Resolver, instr: Instruction, operand: int, b: Budget): (res: (Value, Budget))
    ensures Advances(b, res.1)
    decreases b.Left(), 8
  {
    match Dispatch(r.locators, instr)
    case None => (Unk(UNSUPPORTED_INSTRUCTION), b)
    case Some(loc) =>
      match Extract(loc, instr, operand, r.port.pointerSize)
      case Done(v) => (v, b)
      case NotApplicable => (Unk(UNSUPPORTED_OPERAND_SHAPE), b)
      case FromRegister(reg, fold) =>
        var (v, b1) := ResolveRegister(r, reg, instr.ea, b);
        (Folded(fold, v), b1)
      case FromMemory(base, disp, size) => ResolveMemory(r, base, disp, instr.ea, size, b)
  }

  function ResolveAtInstruction(r: Resolver, ea: int, operand: int, b: Budget): (res: (Value, Budget))
    ensures Advances(b, res.1)
  {
    var b1 := b.Step();
    if !b1.StepsLast() then (Unk(BUDGET_EXCEEDED), b1)
    else
      match r.port.decodeAt(ea)
      case None => (Unk(NO_DEFINITION_FOUND), b1.Touch())
      case Some(instr) => Interpret(r, instr, operand, b1.Touch())
  }
}
