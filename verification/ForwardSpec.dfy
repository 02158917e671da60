/** The forward symbolic engine as functions on values: the transfer of one
  instruction, the simulation of one block, and one turn of the worklist. */
module ForwardSpec {
  import opened Values
  import opened InsnModel
  import opened Port
  import opened State
  import opened Addressing
  import opened Locators
  import opened Merge

  datatype Engine = Engine(
    port: IdaPort,
    locators: seq<Locator>,
    maxInstructions: int,
    maxBlockVisits: int,
    loopWidenAfter: int)

  // -- one instruction -----------------------------------------------------------------

  /** Both the inherited `apply_forward` and the engine's own fallback. */
  function InvalidateWritten(instr: Instruction, ops: seq<Operand>, s: State): State {
    if ops == [] then s
    else
      var op := ops[|ops| - 1];
      var front := InvalidateWritten(instr, ops[..|ops| - 1], s);
      if op.kind == REG && instr.IsWritten(op.number) then front.With(op.reg, Unk(UNSUPPORTED_INSTRUCTION)) else front
  }

  /** A register operand whose write leaves part of its parent register unknown. */
  predicate PartialWrite(port: IdaPort, instr: Instruction, op: Operand) {
    && op.kind == REG && op.reg.Some? && instr.IsWritten(op.number)
    && var view := port.registerView(op.reg.value, op.dtypeSize);
       view.Some? && !view.value.writeDefinesParent
  }

  function InvalidatePartial(port: IdaPort, instr: Instruction, ops: seq<Operand>, s: State): State {
    if ops == [] then s
    else
      var op := ops[|ops| - 1];
      var front := InvalidatePartial(port, instr, ops[..|ops| - 1], s);
      if !PartialWrite(port, instr, op) then front
      else
        var parent := port.registerView(op.reg.value, op.dtypeSize).value.parent;
        var next := front.With(Some(parent), Unk(UNSUPPORTED_OPERAND_SHAPE));
        if op.reg.value != parent then next.With(op.reg, Unk(UNSUPPORTED_OPERAND_SHAPE)) else next
  }

  function ApplyCall(port: IdaPort, instr: Instruction, s: State): State {
    var cleared := s.(registers := s.registers + map r | r in port.callClobbered :: Unk(INDIRECT_CONTROL_FLOW));
    cleared.With(port.returnValueReg, Symbolic(Ret(instr.ea)))
  }

  /** The last memory operand that the instruction writes, or does not write. */
  function MemoryOperand(instr: Instruction, ops: seq<Operand>, written: bool): (r: Option<Operand>)
    ensures r.Some? ==> r.value in ops && r.value.IsMemory() && instr.IsWritten(r.value.number) == written
    ensures r.None? ==> forall op :: op in ops && op.IsMemory() ==> instr.IsWritten(op.number) != written
  {
    if ops == [] then None
    else
      var op := ops[|ops| - 1];
      if op.IsMemory() && instr.IsWritten(op.number) == written then Some(op)
      else MemoryOperand(instr, ops[..|ops| - 1], written)
  }

  function RegisterDestination(instr: Instruction, ops: seq<Operand>): (r: Option<Operand>)
    ensures r.Some? ==> r.value in ops && r.value.kind == REG && instr.IsWritten(r.value.number)
    ensures r.None? ==> forall op :: op in ops && op.kind == REG ==> !instr.IsWritten(op.number)
  {
    if ops == [] then None
    else if ops[0].kind == REG && instr.IsWritten(ops[0].number) then Some(ops[0])
    else RegisterDestination(instr, ops[1..])
  }

  function OtherOperand(ops: seq<Operand>, exclude: int): (r: Option<Operand>)
    ensures r.Some? ==> r.value in ops && r.value.number != exclude
  {
    if ops == [] then None
    else if ops[0].number != exclude then Some(ops[0])
    else OtherOperand(ops[1..], exclude)
  }

  function ValueOfSource(op: Option<Operand>, s: State): Value {
    if op.None? then Unk(UNSUPPORTED_OPERAND_SHAPE)
    else if op.value.kind == REG then s.RegisterOf(op.value.reg)
    else if op.value.kind == IMMEDIATE then Concrete(op.value.immValue, IntKind)
    else Unk(UNSUPPORTED_OPERAND_SHAPE)
  }

  function InvalidateAliased(port: IdaPort, op: Operand, s: State): State {
    if !IsStackRelative(port, op) then s
    else s.(stack := map c | c in s.stack :: Unk(MUTATED_MEMORY_CONTENT))
  }

  function ApplyStore(port: IdaPort, instr: Instruction, op: Operand, func: int, s: State): State {
    var key := StackKey(port, op, instr.ea, func);
    if key.None? then InvalidateAliased(port, op, s)
    else if !instr.IsPureDefinitionOf(op.number) then s.WithSlot(key.value, Unk(UNSUPPORTED_INSTRUCTION))
    else s.WithSlot(key.value, ValueOfSource(OtherOperand(instr.operands, op.number), s))
  }

  function ApplyLoad(port: IdaPort, instr: Instruction, op: Operand, func: int, s: State): State {
    var dst := RegisterDestination(instr, instr.operands);
    if dst.None? then s
    else
      var key := StackKey(port, op, instr.ea, func);
      if !instr.IsPureDefinitionOf(dst.value.number) || key.None?
      then s.With(dst.value.reg, Unk(UNSUPPORTED_INSTRUCTION))
      else s.With(dst.value.reg, s.Slot(key.value))
  }

  function Transfer(e: Engine, instr: Instruction, func: int, s: State): State {
    if instr.IsCall() then ApplyCall(e.port, instr, s)
    else
      var loc := Dispatch(e.locators, instr);
      if loc.Some? && DefinesForward(loc.value) then ApplyForward(loc.value, instr, s)
      else
        var dst := MemoryOperand(instr, instr.operands, true);
        var src := MemoryOperand(instr, instr.operands, false);
        if dst.Some? then ApplyStore(e.port, instr, dst.value, func, s)
        else if src.Some? then ApplyLoad(e.port, instr, src.value, func, s)
        else InvalidateWritten(instr, instr.operands, s)
  }

  function Step(e: Engine, instr: Instruction, func: int, s: State): State {
    InvalidatePartial(e.port, instr, instr.operands, Transfer(e, instr, func, s))
  }

  // -- one block -----------------------------------------------------------------------

  datatype Simulated = Simulated(state: State, exceeded: bool, used: int)

  /** Terminates whatever the decoder answers: an instruction costs budget, an
    undecodable byte moves the address. */
  function Simulate(e: Engine, ea: int, end: int, stop: Option<int>, func: int, s: State, used: int): Simulated
    decreases e.maxInstructions - used, end - ea
  {
    if ea >= end || (stop.Some? && ea >= stop.value) then Simulated(s, false, used)
    else
      match e.port.decodeAt(ea)
      case None => Simulate(e, ea + 1, end, stop, func, s, used)
      case Some(instr) =>
        if used + 1 > e.maxInstructions then Simulated(s, true, used + 1)
        else Simulate(e, instr.NextEa(), end, stop, func, Step(e, instr, func, s), used + 1)
  }

  // -- joining and widening ------------------------------------------------------------

  function RegisterKeys(states: seq<State>): set<int> { set s, r | s in states && r in s.registers :: r }

  function SlotKeys(states: seq<State>): set<Cell> { set s, c | s in states && c in s.stack :: c }

  function RegistersOf(states: seq<State>, reg: int): (r: seq<Value>)
    ensures |r| == |states| && forall i :: 0 <= i < |r| ==> r[i] == states[i].Register(reg)
  {
    seq(|states|, i requires 0 <= i < |states| => states[i].Register(reg))
  }

  function SlotsOf(states: seq<State>, cell: Cell): (r: seq<Value>)
    ensures |r| == |states| && forall i :: 0 <= i < |r| ==> r[i] == states[i].Slot(cell)
  {
    seq(|states|, i requires 0 <= i < |states| => states[i].Slot(cell))
  }

  function JoinStates(states: seq<State>): State {
    State(map r | r in RegisterKeys(states) :: JoinAll(RegistersOf(states, r)),
          map c | c in SlotKeys(states) :: JoinAll(SlotsOf(states, c)))
  }

  const WIDENED := Unk(LOOP_NON_CONVERGENT)

  function Widened(previous: Value, next: Value): Value { if previous == next then previous else WIDENED }

  function Widen(previous: State, next: State): State {
    State(map r | r in previous.registers.Keys + next.registers.Keys :: Widened(previous.Register(r), next.Register(r)),
          map c | c in previous.stack.Keys + next.stack.Keys :: Widened(previous.Slot(c), next.Slot(c)))
  }

  // -- the worklist --------------------------------------------------------------------

  /** What stays fixed during one query. */
  datatype Query = Query(blocks: seq<Block>, entryStart: int, initial: State, func: int)

  /** What the worklist loop updates.  `capped` records that a visit was skipped because
    the block had used up its visits; the loop itself never looks at it. */
  datatype Work = Work(
    worklist: seq<int>,
    ins: map<int, State>,
    outs: map<int, State>,
    visits: map<int, int>,
    used: int,
    exceeded: bool,
    capped: bool)
  {
    function Visits(start: int): int { if start in visits then visits[start] else 0 }
  }

  function Available(preds: seq<Block>, outs: map<int, State>): (r: seq<State>)
    ensures forall p :: p in preds && p.startEa in outs ==> outs[p.startEa] in r
    ensures forall s :: s in r ==> exists p :: p in preds && p.startEa in outs && outs[p.startEa] == s
  {
    if preds == [] then []
    else
      var last := preds[|preds| - 1];
      var front := Available(preds[..|preds| - 1], outs);
      assert forall p :: p in preds <==> p in preds[..|preds| - 1] || p == last;
      if last.startEa in outs then front + [outs[last.startEa]] else front
  }

  function JoinPredecessors(q: Query, block: Block, outs: map<int, State>): Option<State> {
    if block.startEa == q.entryStart then Some(q.initial)
    else
      var available := Available(Predecessors(q.blocks, block), outs);
      if available == [] then None else Some(JoinStates(available))
  }

  function Starts(blocks: seq<Block>): (r: seq<int>)
    ensures |r| == |blocks| && forall i :: 0 <= i < |r| ==> r[i] == blocks[i].startEa
  {
    seq(|blocks|, i requires 0 <= i < |blocks| => blocks[i].startEa)
  }

  /** The in-state a visit computes, widened once the block has been seen often enough. */
  function ComputedIn(e: Engine, q: Query, w: Work, block: Block, visit: int): Option<State> {
    match JoinPredecessors(q, block, w.outs)
    case None => None
    case Some(joined) =>
      if visit > e.loopWidenAfter && block.startEa in w.ins
      then Some(Widen(w.ins[block.startEa], joined)) else Some(joined)
  }

  /** One turn of the loop in `resolve_at`. */
  function Turn(e: Engine, q: Query, w: Work): Work
    requires w.worklist != [] && !w.exceeded
  {
    var start, popped := w.worklist[0], w.(worklist := w.worklist[1..]);
    match BlockAt(q.blocks, start)
    case None => popped
    case Some(block) =>
      var visit := w.Visits(start) + 1;
      var counted := popped.(visits := w.visits[start := visit]);
      if visit > e.maxBlockVisits then counted.(capped := true)
      else
        match ComputedIn(e, q, w, block, visit)
        case None => counted
        case Some(input) => if Unchanged(w, start, input) then counted else Revisit(e, q, counted, block, input)
  }

  predicate Unchanged(w: Work, start: int, input: State) { start in w.ins && w.ins[start] == input }

  /** Stores the new in-state, simulates the block from it and queues the successors. */
  function Revisit(e: Engine, q: Query, w: Work, block: Block, input: State): Work {
    var sim := Simulate(e, block.startEa, block.endEa, None, q.func, input, w.used);
    var stored := w.(ins := w.ins[block.startEa := input], outs := w.outs[block.startEa := sim.state], used := sim.used);
    if sim.exceeded then stored.(exceeded := true)
    else stored.(worklist := stored.worklist + Starts(Successors(q.blocks, block)))
  }

  /** Visits that the cap still allows, over all blocks. */
  function VisitsLeft(e: Engine, blocks: seq<Block>, w: Work): nat {
    if blocks == [] then 0
    else
      var left := e.maxBlockVisits - w.Visits(blocks[0].startEa);
      (if left > 0 then left else 0) + VisitsLeft(e, blocks[1..], w)
  }

  lemma {:induction false} VisitUsesTheCap(e: Engine, blocks: seq<Block>, w: Work, w': Work, start: int)
    requires w'.visits == w.visits[start := w.Visits(start) + 1]
    ensures VisitsLeft(e, blocks, w') <= VisitsLeft(e, blocks, w)
    ensures (exists b :: b in blocks && b.startEa == start) && w.Visits(start) < e.maxBlockVisits ==>
              VisitsLeft(e, blocks, w') < VisitsLeft(e, blocks, w)
  {
    if blocks != [] { VisitUsesTheCap(e, blocks[1..], w, w', start); }
  }

  lemma {:induction false} VisitsLeftDependsOnVisits(e: Engine, blocks: seq<Block>, w: Work, w': Work)
    requires w'.visits == w.visits
    ensures VisitsLeft(e, blocks, w') == VisitsLeft(e, blocks, w)
  {
    if blocks != [] { VisitsLeftDependsOnVisits(e, blocks[1..], w, w'); }
  }

  /** No assumption on the graph or the decoder: a turn uses up a visit or shortens the
    worklist. */
  lemma TurnDecreases(e: Engine, q: Query, w: Work)
    requires w.worklist != [] && !w.exceeded
    ensures var w', left, left' := Turn(e, q, w), VisitsLeft(e, q.blocks, w), VisitsLeft(e, q.blocks, Turn(e, q, w));
      left' < left || (left' == left && |w'.worklist| < |w.worklist|)
  {
    hide Simulate, ComputedIn, Successors, VisitsLeft, Starts;
    var w', start := Turn(e, q, w), w.worklist[0];
    if BlockAt(q.blocks, start).None? {
      VisitsLeftDependsOnVisits(e, q.blocks, w, w');
    } else {
      VisitUsesTheCap(e, q.blocks, w, w', start);
      assert w.Visits(start) + 1 > e.maxBlockVisits ==> |w'.worklist| < |w.worklist|;
    }
  }

  /** A turn drops a start that names no block, and counts the visit of one that does, even
    when the cap skips it. */
  lemma TurnCounts(e: Engine, q: Query, w: Work)
    requires w.worklist != [] && !w.exceeded
    ensures var w', start := Turn(e, q, w), w.worklist[0];
      if BlockAt(q.blocks, start).None? then w' == w.(worklist := w.worklist[1..])
      else
        var counted := w.visits[start := w.Visits(start) + 1];
        && w'.visits == counted
        && (w.Visits(start) + 1 > e.maxBlockVisits ==> w' == w.(worklist := w.worklist[1..], visits := counted, capped := true))
  {
    hide Simulate, ComputedIn, Successors, BlockAt, Starts;
  }

  /** The loop run to its end. */
  function Iterate(e: Engine, q: Query, w: Work): (r: Work)
    ensures r.worklist == [] || r.exceeded
    decreases VisitsLeft(e, q.blocks, w), |w.worklist|
  {
    if w.worklist == [] || w.exceeded then w
    else
      TurnDecreases(e, q, w);
      Iterate(e, q, Turn(e, q, w))
  }

  lemma IterateTurns(e: Engine, q: Query, w: Work)
    ensures w.worklist == [] || w.exceeded ==> Iterate(e, q, w) == w
    ensures w.worklist != [] && !w.exceeded ==> Iterate(e, q, w) == Iterate(e, q, Turn(e, q, w))
  {
    if w.worklist != [] && !w.exceeded { TurnDecreases(e, q, w); }
  }

  function Begin(q: Query): Work {
    Work([q.entryStart], map[], map[], map b | b in Starts(q.blocks) :: 0, 0, false, false)
  }

  function Fixpoint(e: Engine, q: Query): Work { Iterate(e, q, Begin(q)) }

  /** The query of `resolve_at`, once its entry block is known. */
  function QueryFor(e: Engine, func: int, argIndex: int, reg: int, entry: Block): Query {
    Query(e.port.flowchart(func), entry.startEa, EMPTY.With(Some(reg), Symbolic(Arg(argIndex))), func)
  }

  function Answer(e: Engine, q: Query, w: Work, target: Block, targetEa: int, reg: int): Value {
    if w.exceeded then Unk(BUDGET_EXCEEDED)
    else if target.startEa !in w.ins then Unk(NO_DEFINITION_FOUND)
    else
      var sim := Simulate(e, target.startEa, target.endEa, Some(targetEa), q.func, w.ins[target.startEa], 0);
      if sim.exceeded then Unk(BUDGET_EXCEEDED) else sim.state.Register(reg)
  }

  function ResolveAt(e: Engine, func: int, argIndex: int, targetEa: int, initialReg: Option<int>): Value {
    if initialReg.None? then Unk(UNSUPPORTED_OPERAND_SHAPE)
    else
      var blocks := e.port.flowchart(func);
      var entry, target := BlockContaining(blocks, func), BlockContaining(blocks, targetEa);
      if entry.None? || target.None? then Unk(NO_DEFINITION_FOUND)
      else
        var q := QueryFor(e, func, argIndex, initialReg.value, entry.value);
        Answer(e, q, Fixpoint(e, q), target.value, targetEa, initialReg.value)
  }
}
