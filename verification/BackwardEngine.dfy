/** `BackwardResolver` as the object it is: one budget shared by every callback of a
  query, and memo tables for function starts and graphs. */
module BackwardEngine {
  import opened Values
  import opened InsnModel
  import opened Port
  import opened State
  import opened InsnCache
  import opened Addressing
  import opened Locators
  import opened Registry
  import opened Merge
  import opened BackwardSpec
  import opened PushSequence

  class ResolutionBudget {
    const maxSteps: int
    const maxBlocks: int
    var stepsUsed: nat
    var blocksUsed: nat
    ghost var touches: nat
    ghost var expanded: nat

    ghost function View(): Budget
      reads this
    {
      Budget(maxSteps, maxBlocks, stepsUsed, blocksUsed, touches, expanded)
    }

    constructor (maxSteps: int, maxBlocks: int)
      ensures View() == NewBudget(maxSteps, maxBlocks)
    {
      this.maxSteps, this.maxBlocks := maxSteps, maxBlocks;
      stepsUsed, blocksUsed, touches, expanded := 0, 0, 0, 0;
    }

    method Step() returns (granted: bool)
      modifies this
      ensures View() == old(View()).Step() && granted == View().StepsLast()
    {
      stepsUsed := stepsUsed + 1;
      granted := stepsUsed <= maxSteps;
    }

    method StepBlock() returns (granted: bool)
      modifies this
      ensures View() == old(View()).StepBlock() && granted == View().BlocksLast()
    {
      blocksUsed := blocksUsed + 1;
      granted := blocksUsed <= maxBlocks;
    }
  }

  class BackwardResolver {
    const port: IdaPort
    const cache: InstructionCache
    const registry: LocatorRegistry
    const maxSteps: int
    const maxBlocks: int
    var budget: ResolutionBudget
    var funcCache: map<int, Option<int>>
    var cfgCache: map<int, seq<Block>>

    ghost predicate Valid()
      reads this, cache
    {
      && cache.Valid() && cache.port == port
      && (forall ea :: ea in funcCache ==> funcCache[ea] == port.funcStart(ea))
      && (forall func :: func in cfgCache ==> cfgCache[func] == port.flowchart(func))
    }

    function Spec(): Resolver
      reads registry
    {
      Resolver(port, registry.Order())
    }

    constructor (cache: InstructionCache, registry: LocatorRegistry, maxSteps: int, maxBlocks: int)
      requires cache.Valid()
      ensures Valid() && fresh(budget) && this.cache == cache && this.registry == registry
      ensures Spec() == Resolver(cache.port, registry.Order()) && this.maxSteps == maxSteps && this.maxBlocks == maxBlocks
    {
      this.port, this.cache, this.registry := cache.port, cache, registry;
      this.maxSteps, this.maxBlocks := maxSteps, maxBlocks;
      budget := new ResolutionBudget(maxSteps, maxBlocks);
      funcCache, cfgCache := map[], map[];
    }

    // -- public API ---------------------------------------------------------------------

    method ResolveRegister(reg: int, before: int) returns (value: Value)
      requires Valid()
      modifies this, cache
      ensures Valid() && value == BackwardSpec.ResolveRegister(Spec(), reg, before, NewBudget(maxSteps, maxBlocks)).0
    {
      budget := new ResolutionBudget(maxSteps, maxBlocks);
      value := ResolveRegisterImpl(reg, before);
    }

    method ResolveMemory(base: Option<int>, disp: int, before: int, size: int) returns (value: Value)
      requires Valid()
      modifies this, cache
      ensures Valid()
      ensures value == BackwardSpec.ResolveMemory(Spec(), base, disp, before, size, NewBudget(maxSteps, maxBlocks)).0
    {
      budget := new ResolutionBudget(maxSteps, maxBlocks);
      value := ResolveMemoryImpl(base, disp, before, size);
    }

    method ResolveAtInstruction(ea: int, operand: int) returns (value: Value)
      requires Valid()
      modifies this, cache
      ensures Valid()
      ensures value == BackwardSpec.ResolveAtInstruction(Spec(), ea, operand, NewBudget(maxSteps, maxBlocks)).0
    {
      hide Interpret;
      budget := new ResolutionBudget(maxSteps, maxBlocks);
      var granted := budget.Step();
      if !granted {
        return Unk(BUDGET_EXCEEDED);
      }
      budget.touches := budget.touches + 1;
      var instr := cache.Get(ea);
      if instr.None? {
        return Unk(NO_DEFINITION_FOUND);
      }
      value := InterpretDefinition(instr.value, operand);
    }

    method Dereference(addr: int, size: int) returns (value: Value)
      requires Valid()
      modifies budget
      ensures Valid()
      ensures (value, budget.View()) == BackwardSpec.Dereference(Spec(), addr, size, old(budget.View()))
    {
      var granted := budget.Step();
      if !granted {
        return Unk(BUDGET_EXCEEDED);
      }
      budget.touches := budget.touches + 1;
      var raw := port.readInt(addr, size);
      value := MemoryRef(addr, if raw.None? then Unk(MEMORY_READ_FAILED) else Concrete(raw.value, IntKind));
    }

    /** The pushes before a call in program order, skipping what may stand between them. */
    method CollectPushSequence(callEa: int) returns (pushes: seq<int>)
      requires Valid()
      modifies this`funcCache, cache
      ensures Valid() && pushes == CollectPushes(port, callEa)
    {
      var func := FuncEaFor(callEa);
      if func.None? {
        return [];
      }
      pushes := PushesBefore(port.PrevHead(callEa, func.value), func.value);
      pushes := Reversed(pushes);
      CollectedInReverse(port, callEa, func.value);
    }

    /** The scan itself: the nearest push first. */
    method PushesBefore(first: Option<int>, func: int) returns (pushes: seq<int>)
      requires Valid() && (first.Some? ==> func <= first.value)
      modifies cache
      ensures Valid() && pushes == PushesOf(Scanned(port, first, func, 0, 0))
    {
      hide IsTransparent, PushesOf, Used, Distinct;
      pushes := [];
      EmptyHasNoPushes();
      var skipped: nat, ea := 0, first;
      ghost var all, passed: seq<Head> := Scanned(port, ea, func, 0, 0), [];
      var scanning := true;
      while scanning && ea.Some? && |pushes| < MAX_PUSH_SEQUENCE && skipped < MAX_TRANSPARENT_SKIP
        invariant Valid() && (ea.Some? ==> func <= ea.value)
        invariant pushes == PushesOf(passed)
        invariant scanning ==> passed + Scanned(port, ea, func, |pushes|, skipped) == all
        invariant !scanning ==> passed == all
        decreases scanning, if ea.Some? then ea.value - func + 1 else 0
      {
        var instr := cache.Get(ea.value);
        if instr.Some? && (instr.value.mnem == "push" || IsTransparent(instr.value, port.stackPointerReg)) {
          ghost var head := (ea.value, instr.value);
          PassesHead(passed, head);
          passed := passed + [head];
          if instr.value.mnem == "push" {
            pushes := pushes + [ea.value];
          } else {
            skipped := skipped + 1;
          }
          ea := port.PrevHead(ea.value, func);
        } else {
          scanning := false;
        }
      }
      assert passed + [] == passed;
    }

    // -- resolution -----------------------------------------------------------------------

    method ResolveRegisterImpl(reg: int, before: int) returns (value: Value)
      requires Valid()
      modifies this`funcCache, this`cfgCache, budget, cache
      ensures Valid()
      ensures (value, budget.View()) == BackwardSpec.ResolveRegister(Spec(), reg, before, old(budget.View()))
      decreases budget.View().Left(), 5
    {
      var granted := budget.Step();
      if !granted {
        return Unk(BUDGET_EXCEEDED);
      }
      var func := FuncEaFor(before);
      if func.None? {
        return Unk(NO_DEFINITION_FOUND);
      }
      var found := SearchFrom(Register(reg), before, func.value);
      value := if found.Found? then found.value else Unk(NO_DEFINITION_FOUND);
    }

    method ResolveMemoryImpl(base: Option<int>, disp: int, before: int, size: int) returns (value: Value)
      requires Valid()
      modifies this`funcCache, this`cfgCache, budget, cache
      ensures Valid()
      ensures (value, budget.View()) == BackwardSpec.ResolveMemory(Spec(), base, disp, before, size, old(budget.View()))
      decreases budget.View().Left(), 7
    {
      var granted := budget.Step();
      if !granted {
        return Unk(BUDGET_EXCEEDED);
      }
      var func := FuncEaFor(before);
      if func.Some? {
        var key := MemoryLocation(port, base, disp, before, func.value);
        var found := SearchFrom(Memory(key), before, func.value);
        if found.Found? {
          return found.value;
        }
      }
      value := FallbackDereferenceImpl(base, disp, before, size);
    }

    method FallbackDereferenceImpl(base: Option<int>, disp: int, before: int, size: int) returns (value: Value)
      requires Valid()
      modifies this`funcCache, this`cfgCache, budget, cache
      ensures Valid()
      ensures (value, budget.View()) == FallbackDereference(Spec(), base, disp, before, size, old(budget.View()))
      decreases budget.View().Left(), 6
    {
      if base.None? {
        value := Dereference(disp, size);
        return;
      }
      var baseValue := ResolveRegisterImpl(base.value, before);
      if !baseValue.Concrete? {
        return Unk(NO_DEFINITION_FOUND);
      }
      value := Dereference(baseValue.value + disp, size);
    }

    method SearchFrom(t: Target, before: int, func: int) returns (found: Outcome)
      requires Valid()
      modifies this`funcCache, this`cfgCache, budget, cache
      ensures Valid()
      ensures (found, budget.View()) == Search(Spec(), t, before, func, old(budget.View()))
      decreases budget.View().Left(), 4
    {
      var blocks := CfgFor(func);
      var block := BlockContaining(blocks, before);
      if block.Some? {
        found := WalkBlock(t, before, block.value, func, blocks, {});
        return;
      }
      var value := ScanBack(t, port.PrevHead(before, func), func, func);
      found := if value.Some? then Found(value.value) else EntryOutcome(t);
    }

    /** The loop over the instruction heads of one block, or of a function without one. */
    method ScanBack(t: Target, first: Option<int>, minEa: int, func: int) returns (value: Option<Value>)
      requires Valid()
      modifies this`funcCache, this`cfgCache, budget, cache
      ensures Valid()
      ensures (value, budget.View()) == Scan(Spec(), t, first, minEa, func, old(budget.View()))
      decreases budget.View().Left(), 0
    {
      hide Decide, Interpret, Advances, Scan, LocatorsOf;
      var ea := first;
      while ea.Some?
        invariant Valid() && budget.View().Left() <= old(budget.View()).Left()
        invariant Scan(Spec(), t, ea, minEa, func, budget.View()) == Scan(Spec(), t, first, minEa, func, old(budget.View()))
        decreases budget.View().Left()
      {
        ScanEnds(Spec(), t, ea.value, minEa, func, budget.View());
        if budget.View().Step().StepsLast() { ScanTurns(Spec(), t, ea.value, minEa, func, budget.View()); }
        var granted := budget.Step();
        if !granted {
          return Some(Unk(BUDGET_EXCEEDED));
        }
        budget.touches := budget.touches + 1;
        var instr := cache.Get(ea.value);
        if instr.Some? {
          match Decide(port, t, instr.value, func) {
            case Skip =>
            case Settle(v) => return Some(v);
            case Define(operand) =>
              var v := InterpretDefinition(instr.value, operand);
              return Some(v);
          }
        }
        ea := port.PrevHead(ea.value, minEa);
      }
      ScanEnds(Spec(), t, 0, minEa, func, budget.View());
      value := None;
    }

    method WalkBlock(t: Target, boundary: int, block: Block, func: int, blocks: seq<Block>, visited: set<int>)
      returns (outcome: Outcome)
      requires Valid()
      modifies this`funcCache, this`cfgCache, budget, cache
      ensures Valid()
      ensures (outcome, budget.View()) == Walk(Spec(), t, boundary, block, func, blocks, visited, old(budget.View()))
      decreases budget.View().Left(), 3
    {
      hide Scan, WalkAll, Combine, Predecessors;
      var value := ScanBack(t, port.PrevHead(boundary, block.startEa), block.startEa, func);
      if value.Some? {
        return Found(value.value);
      }
      if block.startEa in visited {
        return Cycle;
      }
      var preds := Predecessors(blocks, block);
      if preds == [] {
        return EntryOutcome(t);
      }
      var granted := budget.StepBlock();
      if !granted {
        return Found(Unk(BUDGET_EXCEEDED));
      }
      budget.expanded := budget.expanded + 1;
      var results := WalkPredecessors(t, preds, func, blocks, visited + {block.startEa});
      outcome := CombineResults(results);
    }

    method WalkPredecessors(t: Target, preds: seq<Block>, func: int, blocks: seq<Block>, visited: set<int>)
      returns (results: seq<Outcome>)
      requires Valid()
      modifies this`funcCache, this`cfgCache, budget, cache
      ensures Valid()
      ensures (results, budget.View()) == WalkAll(Spec(), t, preds, func, blocks, visited, old(budget.View()))
      decreases budget.View().Left(), 4
    {
      hide Walk, Scan;
      results := [];
      for i := 0 to |preds|
        invariant Valid() && budget.View().Left() <= old(budget.View()).Left()
        invariant (results, budget.View()) == WalkAll(Spec(), t, preds[..i], func, blocks, visited, old(budget.View()))
      {
        assert preds[..i + 1][..i] == preds[..i];
        var outcome := WalkBlock(t, preds[i].endEa, preds[i], func, blocks, visited);
        results := results + [outcome];
      }
      assert preds[..|preds|] == preds;
    }

    method CombineResults(results: seq<Outcome>) returns (outcome: Outcome)
      ensures outcome == Combine(results)
    {
      var informative, found := Informative(results), FoundValues(Informative(results));
      if informative == [] {
        return Cycle;
      }
      if found == [] {
        return NotFound;
      }
      if |found| != |informative| {
        return Found(Unk(DIVERGENT_PATHS));
      }
      var joined := ComputeJoinAll(found);
      outcome := Found(joined);
    }

    method InterpretDefinition(instr: Instruction, operand: int) returns (value: Value)
      requires Valid()
      modifies this`funcCache, this`cfgCache, budget, cache
      ensures Valid()
      ensures (value, budget.View()) == Interpret(Spec(), instr, operand, old(budget.View()))
      decreases budget.View().Left(), 8
    {
      var locator := registry.Match(instr);
      if locator.None? {
        return Unk(UNSUPPORTED_INSTRUCTION);
      }
      match Extract(locator.value, instr, operand, port.pointerSize) {
        case Done(v) => value := v;
        case NotApplicable => value := Unk(UNSUPPORTED_OPERAND_SHAPE);
        case FromRegister(reg, fold) =>
          var source := ResolveRegisterImpl(reg, instr.ea);
          value := Folded(fold, source);
        case FromMemory(base, disp, size) => value := ResolveMemoryImpl(base, disp, instr.ea, size);
      }
    }

    // -- caching ---------------------------------------------------------------------------

    method FuncEaFor(ea: int) returns (func: Option<int>)
      requires Valid()
      modifies this`funcCache
      ensures Valid() && func == port.funcStart(ea)
    {
      if ea in funcCache {
        return funcCache[ea];
      }
      func := port.funcStart(ea);
      funcCache := funcCache[ea := func];
    }

    method CfgFor(func: int) returns (blocks: seq<Block>)
      requires Valid()
      modifies this`cfgCache
      ensures Valid() && blocks == port.flowchart(func)
    {
      if func in cfgCache {
        return cfgCache[func];
      }
      blocks := port.flowchart(func);
      cfgCache := cfgCache[func := blocks];
    }
  }
}
