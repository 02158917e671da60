/** A known answer does not depend on the budget.

  If a query answers a known value then none of the steps it asked for was refused, and
  under any larger limits it takes the same steps to the same answer.  The proof follows
  the recursion of the resolver: no rule and no join turns the `Unknown` of a refused
  step back into something known. */
module BackwardBudget {
  import opened Values
  import opened InsnModel
  import opened Port
  import opened State
  import opened Addressing
  import opened Locators
  import opened Merge
  import opened BackwardSpec

  function Enlarged(b: Budget, maxSteps: int, maxBlocks: int): Budget { b.(maxSteps := maxSteps, maxBlocks := maxBlocks) }

  /** Every step taken between the two was granted. */
  predicate Granted(b: Budget, b': Budget) {
    && (b'.steps > b.steps ==> b'.steps <= b.maxSteps)
    && (b'.blocks > b.blocks ==> b'.blocks <= b.maxBlocks)
  }

  predicate Firm(o: Outcome) { o.Found? ==> o.value.IsKnown() }

  lemma CombineIsFirm(results: seq<Outcome>)
    requires Firm(Combine(results))
    ensures forall o :: o in results ==> Firm(o)
  {
    var informative := Informative(results);
    var found := FoundValues(informative);
    JoinAllIsLeastUpperBound(found);
    forall o | o in results ensures Firm(o) {
      if o.Found? {
        assert o in informative && o.value in found;
        assert Below(o.value, JoinAll(found));
      }
    }
  }

  lemma {:induction false} ScanIsStable(r: Resolver, t: Target, ea: Option<int>, minEa: int, func: int, b: Budget, s: int, k: int)
    requires s >= b.maxSteps && k >= b.maxBlocks
    requires var v := Scan(r, t, ea, minEa, func, b).0; v.Some? ==> v.value.IsKnown()
    ensures var (v, b') := Scan(r, t, ea, minEa, func, b);
      Granted(b, b') && Scan(r, t, ea, minEa, func, Enlarged(b, s, k)) == (v, Enlarged(b', s, k))
    decreases b.Left(), 0
  {
    hide Decide, Interpret;
    if ea.Some? && b.Step().StepsLast() {
      var b1 := b.Step().Touch();
      var next := r.port.PrevHead(ea.value, minEa);
      match r.port.decodeAt(ea.value)
      case None => ScanIsStable(r, t, next, minEa, func, b1, s, k);
      case Some(instr) =>
        match Decide(r.port, t, instr, func)
        case Skip => ScanIsStable(r, t, next, minEa, func, b1, s, k);
        case Settle(v) =>
        case Define(operand) => InterpretIsStable(r, instr, operand, b1, s, k);
    }
  }

  lemma {:induction false} WalkIsStable(r: Resolver, t: Target, boundary: int, block: Block, func: int, blocks: seq<Block>,
                                        visited: set<int>, b: Budget, s: int, k: int)
    requires s >= b.maxSteps && k >= b.maxBlocks
    requires Firm(Walk(r, t, boundary, block, func, blocks, visited, b).0)
    ensures var (o, b') := Walk(r, t, boundary, block, func, blocks, visited, b);
      Granted(b, b') && Walk(r, t, boundary, block, func, blocks, visited, Enlarged(b, s, k)) == (o, Enlarged(b', s, k))
    decreases b.Left(), 2
  {
    hide Scan, WalkAll, Combine, Predecessors;
    var (v, b1) := Scan(r, t, r.port.PrevHead(boundary, block.startEa), block.startEa, func, b);
    ScanIsStable(r, t, r.port.PrevHead(boundary, block.startEa), block.startEa, func, b, s, k);
    var preds := Predecessors(blocks, block);
    if v.None? && block.startEa !in visited && preds != [] && b1.StepBlock().BlocksLast() {
      var b2 := b1.StepBlock().Expand();
      var results := WalkAll(r, t, preds, func, blocks, visited + {block.startEa}, b2).0;
      CombineIsFirm(results);
      WalkAllIsStable(r, t, preds, func, blocks, visited + {block.startEa}, b2, s, k);
    }
  }

  lemma {:induction false} WalkAllIsStable(r: Resolver, t: Target, preds: seq<Block>, func: int, blocks: seq<Block>,
                                           visited: set<int>, b: Budget, s: int, k: int)
    requires s >= b.maxSteps && k >= b.maxBlocks
    requires forall o :: o in WalkAll(r, t, preds, func, blocks, visited, b).0 ==> Firm(o)
    ensures var (os, b') := WalkAll(r, t, preds, func, blocks, visited, b);
      Granted(b, b') && WalkAll(r, t, preds, func, blocks, visited, Enlarged(b, s, k)) == (os, Enlarged(b', s, k))
    decreases b.Left(), 3, |preds|
  {
    if preds != [] {
      var front, last := preds[..|preds| - 1], preds[|preds| - 1];
      var (rest, b1) := WalkAll(r, t, front, func, blocks, visited, b);
      var (o, b2) := Walk(r, t, last.endEa, last, func, blocks, visited, b1);
      assert WalkAll(r, t, preds, func, blocks, visited, b).0 == rest + [o];
      assert forall x :: x in rest ==> x in rest + [o];
      assert o in rest + [o];
      WalkAllIsStable(r, t, front, func, blocks, visited, b, s, k);
      WalkIsStable(r, t, last.endEa, last, func, blocks, visited, b1, s, k);
    }
  }

  lemma {:induction false} SearchIsStable(r: Resolver, t: Target, before: int, func: int, b: Budget, s: int, k: int)
    requires s >= b.maxSteps && k >= b.maxBlocks && Firm(Search(r, t, before, func, b).0)
    ensures var (o, b') := Search(r, t, before, func, b);
      Granted(b, b') && Search(r, t, before, func, Enlarged(b, s, k)) == (o, Enlarged(b', s, k))
    decreases b.Left(), 4
  {
    var blocks := r.port.flowchart(func);
    match BlockContaining(blocks, before)
    case Some(block) => WalkIsStable(r, t, before, block, func, blocks, {}, b, s, k);
    case None => ScanIsStable(r, t, r.port.PrevHead(before, func), func, func, b, s, k);
  }

  lemma {:induction false} ResolveRegisterIsStable(r: Resolver, reg: int, before: int, b: Budget, s: int, k: int)
    requires s >= b.maxSteps && k >= b.maxBlocks && ResolveRegister(r, reg, before, b).0.IsKnown()
    ensures var (v, b') := ResolveRegister(r, reg, before, b);
      Granted(b, b') && ResolveRegister(r, reg, before, Enlarged(b, s, k)) == (v, Enlarged(b', s, k))
    decreases b.Left(), 5
  {
    var func := r.port.funcStart(before);
    if func.Some? { SearchIsStable(r, Register(reg), before, func.value, b.Step(), s, k); }
  }

  lemma {:induction false} FallbackIsStable(r: Resolver, base: Option<int>, disp: int, before: int, size: int, b: Budget, s: int, k: int)
    requires s >= b.maxSteps && k >= b.maxBlocks && FallbackDereference(r, base, disp, before, size, b).0.IsKnown()
    ensures var (v, b') := FallbackDereference(r, base, disp, before, size, b);
      Granted(b, b') && FallbackDereference(r, base, disp, before, size, Enlarged(b, s, k)) == (v, Enlarged(b', s, k))
    decreases b.Left(), 6
  {
    if base.Some? { ResolveRegisterIsStable(r, base.value, before, b, s, k); }
  }

  lemma {:induction false} ResolveMemoryIsStable(r: Resolver, base: Option<int>, disp: int, before: int, size: int, b: Budget, s: int, k: int)
    requires s >= b.maxSteps && k >= b.maxBlocks && ResolveMemory(r, base, disp, before, size, b).0.IsKnown()
    ensures var (v, b') := ResolveMemory(r, base, disp, before, size, b);
      Granted(b, b') && ResolveMemory(r, base, disp, before, size, Enlarged(b, s, k)) == (v, Enlarged(b', s, k))
    decreases b.Left(), 7
  {
    hide Search, FallbackDereference;
    var b1, func := b.Step(), r.port.funcStart(before);
    if func.None? {
      FallbackIsStable(r, base, disp, before, size, b1, s, k);
    } else {
      var t := Memory(MemoryLocation(r.port, base, disp, before, func.value));
      var (o, b2) := Search(r, t, before, func.value, b1);
      SearchIsStable(r, t, before, func.value, b1, s, k);
      if !o.Found? { FallbackIsStable(r, base, disp, before, size, b2, s, k); }
    }
  }

  lemma {:induction false} InterpretIsStable(r: Resolver, instr: Instruction, operand: int, b: Budget, s: int, k: int)
    requires s >= b.maxSteps && k >= b.maxBlocks && Interpret(r, instr, operand, b).0.IsKnown()
    ensures var (v, b') := Interpret(r, instr, operand, b);
      Granted(b, b') && Interpret(r, instr, operand, Enlarged(b, s, k)) == (v, Enlarged(b', s, k))
    decreases b.Left(), 8
  {
    var loc := Dispatch(r.locators, instr);
    if loc.Some? {
      match Extract(loc.value, instr, operand, r.port.pointerSize)
      case Done(v) =>
      case NotApplicable =>
      case FromRegister(reg, fold) => ResolveRegisterIsStable(r, reg, instr.ea, b, s, k);
      case FromMemory(base, disp, size) => ResolveMemoryIsStable(r, base, disp, instr.ea, size, b, s, k);
    }
  }

  /** A register query that answers a known value was refused nothing, and answers the
    same under every larger pair of limits. */
  lemma KnownAnswersIgnoreTheBudget(r: Resolver, reg: int, before: int, steps: int, blocks: int, moreSteps: int, moreBlocks: int)
    requires moreSteps >= steps && moreBlocks >= blocks
    requires ResolveRegister(r, reg, before, NewBudget(steps, blocks)).0.IsKnown()
    ensures ResolveRegister(r, reg, before, NewBudget(moreSteps, moreBlocks)).0
      == ResolveRegister(r, reg, before, NewBudget(steps, blocks)).0
    ensures var spent := ResolveRegister(r, reg, before, NewBudget(steps, blocks)).1;
      Granted(NewBudget(steps, blocks), spent) && (spent.steps == 0 || spent.steps <= steps) && (spent.blocks == 0 || spent.blocks <= blocks)
  {
    ResolveRegisterIsStable(r, reg, before, NewBudget(steps, blocks), moreSteps, moreBlocks);
  }

  lemma KnownMemoryAnswersIgnoreTheBudget(r: Resolver, base: Option<int>, disp: int, before: int, size: int,
                                          steps: int, blocks: int, moreSteps: int, moreBlocks: int)
    requires moreSteps >= steps && moreBlocks >= blocks
    requires ResolveMemory(r, base, disp, before, size, NewBudget(steps, blocks)).0.IsKnown()
    ensures ResolveMemory(r, base, disp, before, size, NewBudget(moreSteps, moreBlocks)).0
      == ResolveMemory(r, base, disp, before, size, NewBudget(steps, blocks)).0
    ensures var spent := ResolveMemory(r, base, disp, before, size, NewBudget(steps, blocks)).1;
      Granted(NewBudget(steps, blocks), spent) && (spent.steps == 0 || spent.steps <= steps) && (spent.blocks == 0 || spent.blocks <= blocks)
  {
    ResolveMemoryIsStable(r, base, disp, before, size, NewBudget(steps, blocks), moreSteps, moreBlocks);
  }

  /** However the walks and the locators call each other, one query decodes and reads at
    most `maxSteps` times in all and expands at most `maxBlocks` blocks. */
  lemma QueriesAreMetered(r: Resolver, reg: int, base: Option<int>, disp: int, before: int, size: int, maxSteps: nat, maxBlocks: nat)
    ensures var b := ResolveRegister(r, reg, before, NewBudget(maxSteps, maxBlocks)).1;
      b.touches <= maxSteps && b.expanded <= maxBlocks
    ensures var b := ResolveMemory(r, base, disp, before, size, NewBudget(maxSteps, maxBlocks)).1;
      b.touches <= maxSteps && b.expanded <= maxBlocks
  {
    assert NewBudget(maxSteps, maxBlocks).Metered();
    assert Advances(NewBudget(maxSteps, maxBlocks), ResolveRegister(r, reg, before, NewBudget(maxSteps, maxBlocks)).1);
    assert Advances(NewBudget(maxSteps, maxBlocks), ResolveMemory(r, base, disp, before, size, NewBudget(maxSteps, maxBlocks)).1);
  }
}
