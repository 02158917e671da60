/** `ForwardSymbolicEngine` as the object it is: states updated in place, a worklist, and
  maps from block starts to the states stored for them. */
module ForwardEngine {
  import opened Values
  import opened InsnModel
  import opened Port
  import opened InsnCache
  import opened State
  import opened Addressing
  import opened Locators
  import opened Merge
  import opened Registry
  import opened ForwardSpec

  function Views(states: seq<AbstractState>): (r: seq<State>)
    reads states
    ensures |r| == |states| && forall i :: 0 <= i < |r| ==> r[i] == states[i].View()
  {
    if states == [] then [] else Views(states[..|states| - 1]) + [states[|states| - 1].View()]
  }

  /** The stored objects read as the states of the map. */
  ghost predicate Stores(objects: map<int, AbstractState>, states: map<int, State>)
    reads objects.Values
  {
    objects.Keys == states.Keys && forall k :: k in objects ==> objects[k].View() == states[k]
  }

  /** The loop's variables read as the work of the semantics. */
  ghost predicate Mirrors(inStates: map<int, AbstractState>, outStates: map<int, AbstractState>, queue: seq<int>,
                          used: int, exceeded: bool, w: Work)
    reads inStates.Values, outStates.Values
  {
    Stores(inStates, w.ins) && Stores(outStates, w.outs) && queue == w.worklist && used == w.used && exceeded == w.exceeded
  }

  lemma KeysOfOneMore(states: seq<State>, s: State)
    ensures RegisterKeys(states + [s]) == RegisterKeys(states) + s.registers.Keys
    ensures SlotKeys(states + [s]) == SlotKeys(states) + s.stack.Keys
  {
    var all := states + [s];
    assert forall t :: t in all <==> t in states || t == s;
    forall r: int ensures r in RegisterKeys(all) <==> r in RegisterKeys(states) + s.registers.Keys {
      if r in RegisterKeys(states) { var t :| t in states && r in t.registers; assert t in all; }
      if r in s.registers { assert s in all; }
    }
    forall c: Cell ensures c in SlotKeys(all) <==> c in SlotKeys(states) + s.stack.Keys {
      if c in SlotKeys(states) { var t :| t in states && c in t.stack; assert t in all; }
      if c in s.stack { assert s in all; }
    }
  }

  class ForwardSymbolicEngine {
    const port: IdaPort
    const cache: InstructionCache
    const registry: LocatorRegistry
    const maxInstructions: int
    const maxBlockVisits: int
    const loopWidenAfter: int

    constructor (cache: InstructionCache, registry: LocatorRegistry, maxInstructions: int, maxBlockVisits: int, loopWidenAfter: int)
      requires cache.Valid()
      ensures Ready() && this.cache == cache && this.registry == registry
      ensures Spec() == Engine(cache.port, registry.Order(), maxInstructions, maxBlockVisits, loopWidenAfter)
    {
      this.port, this.cache, this.registry := cache.port, cache, registry;
      this.maxInstructions, this.maxBlockVisits, this.loopWidenAfter := maxInstructions, maxBlockVisits, loopWidenAfter;
    }

    ghost predicate Ready()
      reads cache
    {
      cache.Valid() && cache.port == port
    }

    function Spec(): Engine
      reads registry
    {
      Engine(port, registry.Order(), maxInstructions, maxBlockVisits, loopWidenAfter)
    }

    /** Answers exactly what the worklist semantics answers. */
    method ResolveAt(func: int, argIndex: int, targetEa: int, initialReg: Option<int>) returns (answer: Value)
      requires Ready()
      modifies cache
      ensures Ready() && answer == ForwardSpec.ResolveAt(Spec(), func, argIndex, targetEa, initialReg)
    {
      if initialReg.None? {
        return Unk(UNSUPPORTED_OPERAND_SHAPE);
      }
      var blocks := port.flowchart(func);
      var entry, target := BlockContaining(blocks, func), BlockContaining(blocks, targetEa);
      if entry.None? || target.None? {
        return Unk(NO_DEFINITION_FOUND);
      }
      var initialState := new AbstractState(EMPTY);
      initialState.SetRegister(initialReg, Symbolic(Arg(argIndex)));
      var q := QueryFor(Spec(), func, argIndex, initialReg.value, entry.value);
      var inStates, exceeded := RunWorklist(q, initialState);
      if exceeded {
        return Unk(BUDGET_EXCEEDED);
      }
      if target.value.startEa !in inStates {
        return Unk(NO_DEFINITION_FOUND);
      }
      var finalState, over, _ := SimulateBlock(target.value, inStates[target.value.startEa], func, 0, Some(targetEa));
      if over {
        return Unk(BUDGET_EXCEEDED);
      }
      return finalState.View().RegisterOf(initialReg);
    }

    method RunWorklist(q: Query, initialState: AbstractState) returns (inStates: map<int, AbstractState>, exceeded: bool)
      requires Ready() && initialState.View() == q.initial
      modifies cache
      ensures Ready() && exceeded == Fixpoint(Spec(), q).exceeded && Stores(inStates, Fixpoint(Spec(), q).ins)
    {
      hide Iterate, Turn, VisitsLeft, BlockAt, LocatorsOf;
      ghost var w := Begin(q);
      inStates, exceeded := map[], false;
      var outStates: map<int, AbstractState> := map[];
      var visitCounts := map b | b in Starts(q.blocks) :: 0;
      var worklist, used := [q.entryStart], 0;
      while worklist != [] && !exceeded
        invariant Ready() && initialState.View() == q.initial
        invariant Iterate(Spec(), q, w) == Fixpoint(Spec(), q)
        invariant Mirrors(inStates, outStates, worklist, used, exceeded, w) && visitCounts == w.visits
        decreases VisitsLeft(Spec(), q.blocks, w), |worklist|
      {
        TurnDecreases(Spec(), q, w);
        IterateTurns(Spec(), q, w);
        TurnCounts(Spec(), q, w);
        ghost var turned := Turn(Spec(), q, w);
        var start := worklist[0];
        worklist := worklist[1..];
        var block := BlockAt(q.blocks, start);
        if block.None? {
          w := turned;
          continue;
        }
        var visit := (if start in visitCounts then visitCounts[start] else 0) + 1;
        visitCounts := visitCounts[start := visit];
        if visit <= maxBlockVisits {
          inStates, outStates, worklist, used, exceeded :=
            VisitBlock(block.value, visit, inStates, outStates, initialState, worklist, used, q, w);
        }
        w := turned;
      }
      IterateTurns(Spec(), q, w);
    }

    /** The visit of a block that still has visits left. */
    method VisitBlock(block: Block, visit: int, ins: map<int, AbstractState>, outs: map<int, AbstractState>,
                      initialState: AbstractState, worklist: seq<int>, usedBefore: int, q: Query, ghost w: Work)
      returns (inStates: map<int, AbstractState>, outStates: map<int, AbstractState>, queue: seq<int>, used: int, exceeded: bool)
      requires Ready() && initialState.View() == q.initial && Stores(ins, w.ins) && Stores(outs, w.outs)
      requires w.worklist != [] && !w.exceeded && BlockAt(q.blocks, w.worklist[0]) == Some(block)
      requires visit == w.Visits(block.startEa) + 1 <= maxBlockVisits
      requires worklist == w.worklist[1..] && usedBefore == w.used
      modifies cache
      ensures Ready()
      ensures Mirrors(inStates, outStates, queue, used, exceeded, Turn(Spec(), q, w))
    {
      hide Simulate, ComputedIn, Successors, BlockAt;
      ghost var counted := w.(worklist := worklist, visits := w.visits[block.startEa := visit]);
      inStates, outStates, queue, used, exceeded := ins, outs, worklist, usedBefore, false;
      var start := block.startEa;
      var computed := ComputeInState(block, visit, ins, outs, initialState, q, w);
      if computed.None? {
        return;
      }
      var input := computed.value;
      ghost var view := input.View();
      assert Turn(Spec(), q, w) == if Unchanged(w, start, view) then counted else Revisit(Spec(), q, counted, block, view);
      hide Turn;
      if start in ins && ins[start].registers == input.registers && ins[start].stack == input.stack {
        return;
      }
      inStates, outStates, queue, used, exceeded := RevisitBlock(block, input, ins, outs, worklist, usedBefore, q, counted);
    }

    method RevisitBlock(block: Block, input: AbstractState, ins: map<int, AbstractState>, outs: map<int, AbstractState>,
                        worklist: seq<int>, usedBefore: int, q: Query, ghost w: Work)
      returns (inStates: map<int, AbstractState>, outStates: map<int, AbstractState>, queue: seq<int>, used: int, exceeded: bool)
      requires Ready() && Mirrors(ins, outs, worklist, usedBefore, false, w)
      modifies cache
      ensures Ready()
      ensures Mirrors(inStates, outStates, queue, used, exceeded, Revisit(Spec(), q, w, block, input.View()))
    {
      hide Simulate, Successors, LocatorsOf, Views;
      inStates := ins[block.startEa := input];
      var outState;
      outState, exceeded, used := SimulateBlock(block, input, q.func, usedBefore, None);
      outStates := outs[block.startEa := outState];
      queue := if exceeded then worklist else worklist + Starts(Successors(q.blocks, block));
    }

    // -- fixpoint machinery ---------------------------------------------------------------

    method ComputeInState(block: Block, visit: int, inStates: map<int, AbstractState>,
                          outStates: map<int, AbstractState>, initialState: AbstractState, q: Query, ghost w: Work)
      returns (input: Option<AbstractState>)
      requires initialState.View() == q.initial
      requires Stores(inStates, w.ins) && Stores(outStates, w.outs)
      ensures input.Some? <==> ComputedIn(Spec(), q, w, block, visit).Some?
      ensures input.Some? ==> input.value.View() == ComputedIn(Spec(), q, w, block, visit).value
      ensures input.Some? ==> input.value == initialState || fresh(input.value)
    {
      input := JoinPredecessorStates(block, outStates, initialState, q, w);
      if input.Some? && visit > loopWidenAfter && block.startEa in inStates {
        var widened := WidenStates(inStates[block.startEa], input.value);
        input := Some(widened);
      }
    }

    method JoinPredecessorStates(block: Block, outStates: map<int, AbstractState>, initialState: AbstractState,
                                 q: Query, ghost w: Work)
      returns (joined: Option<AbstractState>)
      requires initialState.View() == q.initial && Stores(outStates, w.outs)
      ensures joined.Some? <==> JoinPredecessors(q, block, w.outs).Some?
      ensures joined.Some? ==> joined.value.View() == JoinPredecessors(q, block, w.outs).value
      ensures joined.Some? ==> joined.value == initialState || fresh(joined.value)
    {
      hide JoinStates, Predecessors;
      if block.startEa == q.entryStart {
        return Some(initialState);
      }
      var preds := Predecessors(q.blocks, block);
      var available: seq<AbstractState> := [];
      for i := 0 to |preds|
        invariant forall s :: s in available ==> s in outStates.Values
        invariant Views(available) == Available(preds[..i], w.outs)
      {
        assert preds[..i + 1][..i] == preds[..i];
        if preds[i].startEa in outStates {
          var s := outStates[preds[i].startEa];
          assert (available + [s])[..|available|] == available;
          available := available + [s];
        }
      }
      assert preds[..|preds|] == preds;
      if available == [] {
        return None;
      }
      var result := JoinAvailable(available);
      joined := Some(result);
    }

    method JoinAvailable(states: seq<AbstractState>) returns (result: AbstractState)
      ensures fresh(result) && result.View() == JoinStates(Views(states))
    {
      var views := Views(states);
      var regs: set<int>, cells: set<Cell> := {}, {};
      for i := 0 to |states|
        invariant regs == RegisterKeys(views[..i]) && cells == SlotKeys(views[..i])
      {
        assert views[..i + 1] == views[..i] + [views[i]];
        KeysOfOneMore(views[..i], views[i]);
        regs, cells := regs + states[i].registers.Keys, cells + states[i].stack.Keys;
      }
      assert views[..|states|] == views;
      result := new AbstractState(EMPTY);
      JoinRegistersInto(views, regs, result);
      JoinSlotsInto(views, cells, result);
    }

    method JoinRegistersInto(views: seq<State>, regs: set<int>, result: AbstractState)
      requires regs == RegisterKeys(views) && result.View() == EMPTY
      modifies result
      ensures result.View() == State(JoinStates(views).registers, map[])
    {
      var todo := regs;
      while todo != {}
        invariant todo <= regs && result.stack == map[]
        invariant result.registers.Keys == regs - todo
        invariant forall r :: r in result.registers ==> result.registers[r] == JoinAll(RegistersOf(views, r))
        decreases todo
      {
        hide JoinStates, JoinAll, RegistersOf, RegisterKeys;
        var r := AnyOf(todo);
        var v := ComputeJoinAll(RegistersOf(views, r));
        result.SetRegister(Some(r), v);
        todo := todo - {r};
      }
    }

    method JoinSlotsInto(views: seq<State>, cells: set<Cell>, result: AbstractState)
      requires cells == SlotKeys(views) && result.stack == map[]
      modifies result
      ensures result.View() == State(old(result.registers), JoinStates(views).stack)
    {
      var todo := cells;
      while todo != {}
        invariant todo <= cells && result.registers == old(result.registers)
        invariant result.stack.Keys == cells - todo
        invariant forall c :: c in result.stack ==> result.stack[c] == JoinAll(SlotsOf(views, c))
        decreases todo
      {
        hide JoinStates, JoinAll, SlotsOf, SlotKeys;
        var c := AnyOf(todo);
        var v := ComputeJoinAll(SlotsOf(views, c));
        result.SetStack(c, v);
        todo := todo - {c};
      }
    }

    method WidenStates(previous: AbstractState, next: AbstractState) returns (result: AbstractState)
      ensures fresh(result) && result.View() == Widen(previous.View(), next.View())
    {
      result := new AbstractState(EMPTY);
      WidenRegistersInto(previous.View(), next.View(), result);
      WidenSlotsInto(previous.View(), next.View(), result);
    }

    method WidenRegistersInto(p: State, n: State, result: AbstractState)
      requires result.View() == EMPTY
      modifies result
      ensures result.View() == State(Widen(p, n).registers, map[])
    {
      var regs: set<int> := p.registers.Keys + n.registers.Keys;
      var todo := regs;
      while todo != {}
        invariant todo <= regs && result.stack == map[]
        invariant result.registers.Keys == regs - todo
        invariant forall r :: r in result.registers ==> result.registers[r] == Widened(p.Register(r), n.Register(r))
        decreases todo
      {
        hide Widen;
        var r := AnyOf(todo);
        result.SetRegister(Some(r), if p.Register(r) == n.Register(r) then p.Register(r) else Unk(LOOP_NON_CONVERGENT));
        todo := todo - {r};
      }
    }

    method WidenSlotsInto(p: State, n: State, result: AbstractState)
      requires result.stack == map[]
      modifies result
      ensures result.View() == State(old(result.registers), Widen(p, n).stack)
    {
      var cells: set<Cell> := p.stack.Keys + n.stack.Keys;
      var todo := cells;
      while todo != {}
        invariant todo <= cells && result.registers == old(result.registers)
        invariant result.stack.Keys == cells - todo
        invariant forall c :: c in result.stack ==> result.stack[c] == Widened(p.Slot(c), n.Slot(c))
        decreases todo
      {
        hide Widen;
        var c := AnyOf(todo);
        result.SetStack(c, if p.Slot(c) == n.Slot(c) then p.Slot(c) else Unk(LOOP_NON_CONVERGENT));
        todo := todo - {c};
      }
    }

    /** Simulates on a copy: the stored in-state is left as it was. */
    method SimulateBlock(block: Block, inState: AbstractState, func: int, usedBefore: int, stop: Option<int>)
      returns (state: AbstractState, exceeded: bool, used: int)
      requires Ready()
      modifies cache
      ensures Ready() && fresh(state) && inState.View() == old(inState.View())
      ensures Simulated(state.View(), exceeded, used) ==
        Simulate(Spec(), block.startEa, block.endEa, stop, func, old(inState.View()), usedBefore)
    {
      hide Step;
      state := new AbstractState.Copy(inState);
      used := usedBefore;
      var ea := block.startEa;
      while ea < block.endEa && !(stop.Some? && ea >= stop.value)
        invariant Ready() && fresh(state)
        invariant Simulate(Spec(), ea, block.endEa, stop, func, state.View(), used)
          == Simulate(Spec(), block.startEa, block.endEa, stop, func, old(inState.View()), usedBefore)
        decreases maxInstructions - used, block.endEa - ea
      {
        var instr := cache.Get(ea);
        if instr.None? {
          ea := ea + 1;
          continue;
        }
        if used + 1 > maxInstructions {
          return state, true, used + 1;
        }
        used := used + 1;
        StepInPlace(instr.value, state, func);
        ea := instr.value.NextEa();
      }
      exceeded := false;
    }

    // -- per-instruction transfer -------------------------------------------------------------

    method StepInPlace(instr: Instruction, state: AbstractState, func: int)
      modifies state
      ensures state.View() == Step(Spec(), instr, func, old(state.View()))
    {
      TransferInPlace(instr, state, func);
      InvalidatePartialWrites(instr, state);
    }

    method InvalidatePartialWrites(instr: Instruction, state: AbstractState)
      modifies state
      ensures state.View() == InvalidatePartial(port, instr, instr.operands, old(state.View()))
    {
      var ops := instr.operands;
      for i := 0 to |ops|
        invariant state.View() == InvalidatePartial(port, instr, ops[..i], old(state.View()))
      {
        assert ops[..i + 1][..i] == ops[..i];
        var op := ops[i];
        if op.kind != REG || op.reg.None? || !instr.IsWritten(op.number) {
          continue;
        }
        var view := port.registerView(op.reg.value, op.dtypeSize);
        if view.None? || view.value.writeDefinesParent {
          continue;
        }
        state.InvalidateRegister(Some(view.value.parent), UNSUPPORTED_OPERAND_SHAPE);
        if op.reg.value != view.value.parent {
          state.InvalidateRegister(op.reg, UNSUPPORTED_OPERAND_SHAPE);
        }
      }
      assert ops[..|ops|] == ops;
    }

    method TransferInPlace(instr: Instruction, state: AbstractState, func: int)
      modifies state
      ensures state.View() == Transfer(Spec(), instr, func, old(state.View()))
    {
      if instr.IsCall() {
        ApplyCallInPlace(instr, state);
        return;
      }
      var locator := registry.Match(instr);
      if locator.Some? && DefinesForward(locator.value) {
        ApplyForwardTo(locator.value, instr, state);
        return;
      }
      var dst, src := MemoryOperand(instr, instr.operands, true), MemoryOperand(instr, instr.operands, false);
      if dst.Some? {
        ApplyMemoryStore(instr, dst.value, state, func);
      } else if src.Some? {
        ApplyMemoryLoad(instr, src.value, state, func);
      } else {
        InvalidateWrittenRegisters(instr, state);
      }
    }

    method ApplyCallInPlace(instr: Instruction, state: AbstractState)
      modifies state
      ensures state.View() == ApplyCall(port, instr, old(state.View()))
    {
      ghost var cleared := old(state.View()).registers;
      var todo := port.callClobbered;
      while todo != {}
        invariant todo <= port.callClobbered && state.stack == old(state.stack)
        invariant state.registers == cleared + map r | r in port.callClobbered - todo :: Unk(INDIRECT_CONTROL_FLOW)
        decreases todo
      {
        var r := AnyOf(todo);
        state.InvalidateRegister(Some(r), INDIRECT_CONTROL_FLOW);
        todo := todo - {r};
      }
      assert port.callClobbered - todo == port.callClobbered;
      state.SetRegister(port.returnValueReg, Symbolic(Ret(instr.ea)));
    }

    method InvalidateWrittenRegisters(instr: Instruction, state: AbstractState)
      modifies state
      ensures state.View() == InvalidateWritten(instr, instr.operands, old(state.View()))
    {
      var ops := instr.operands;
      for i := 0 to |ops|
        invariant state.View() == InvalidateWritten(instr, ops[..i], old(state.View()))
      {
        assert ops[..i + 1][..i] == ops[..i];
        if ops[i].kind == REG && instr.IsWritten(ops[i].number) {
          state.InvalidateRegister(ops[i].reg, UNSUPPORTED_INSTRUCTION);
        }
      }
      assert ops[..|ops|] == ops;
    }

    method ApplyMemoryStore(instr: Instruction, op: Operand, state: AbstractState, func: int)
      modifies state
      ensures state.View() == ApplyStore(port, instr, op, func, old(state.View()))
    {
      var key := StackKey(port, op, instr.ea, func);
      if !instr.IsPureDefinitionOf(op.number) {
        if key.Some? {
          state.SetStack(key.value, Unk(UNSUPPORTED_INSTRUCTION));
          return;
        }
        InvalidatePossiblyAliased(op, state);
        return;
      }
      if key.None? {
        InvalidatePossiblyAliased(op, state);
        return;
      }
      state.SetStack(key.value, ValueOfSource(OtherOperand(instr.operands, op.number), state.View()));
    }

    method ApplyMemoryLoad(instr: Instruction, op: Operand, state: AbstractState, func: int)
      modifies state
      ensures state.View() == ApplyLoad(port, instr, op, func, old(state.View()))
    {
      var dst := RegisterDestination(instr, instr.operands);
      if dst.None? {
        return;
      }
      if !instr.IsPureDefinitionOf(dst.value.number) {
        state.InvalidateRegister(dst.value.reg, UNSUPPORTED_INSTRUCTION);
        return;
      }
      var key := StackKey(port, op, instr.ea, func);
      if key.None? {
        state.InvalidateRegister(dst.value.reg, UNSUPPORTED_INSTRUCTION);
      } else {
        state.SetRegister(dst.value.reg, state.View().Slot(key.value));
      }
    }

    method InvalidatePossiblyAliased(op: Operand, state: AbstractState)
      modifies state
      ensures state.View() == InvalidateAliased(port, op, old(state.View()))
    {
      if !IsStackRelative(port, op) {
        return;
      }
      var keys := state.stack.Keys;
      var todo := keys;
      while todo != {}
        invariant todo <= keys && state.registers == old(state.registers) && state.stack.Keys == keys
        invariant forall c :: c in keys - todo ==> state.stack[c] == Unk(MUTATED_MEMORY_CONTENT)
        decreases todo
      {
        var c :| c in todo;
        state.SetStack(c, Unk(MUTATED_MEMORY_CONTENT));
        todo := todo - {c};
      }
    }
  }
}
