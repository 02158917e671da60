/** Widening alone makes the forward worklist end: the number of turns is bounded by the
  size of the graph and the number of locations, whatever the visit cap. */
module Widening {
  import opened Values
  import opened InsnModel
  import opened Port
  import opened State
  import opened Addressing
  import opened Locators
  import opened Machine
  import opened ForwardSpec
  import opened ForwardStep
  import opened ForwardSoundness

  // -- the locations a function mentions ---------------------------------------------------

  datatype Universe = Universe(regs: set<int>, cells: set<Cell>)
  {
    function Size(): nat { |regs| + |cells| }
  }

  predicate Within(s: State, u: Universe) { s.registers.Keys <= u.regs && s.stack.Keys <= u.cells }

  predicate Mentions(port: IdaPort, instr: Instruction, func: int, u: Universe) {
    forall op :: op in instr.operands ==>
      && (op.kind == REG && op.reg.Some? ==>
            && op.reg.value in u.regs
            && var view := port.registerView(op.reg.value, op.dtypeSize); (view.Some? ==> view.value.parent in u.regs))
      && var key := StackKey(port, op, instr.ea, func); (key.Some? ==> key.value in u.cells)
  }

  ghost predicate BlockMentions(e: Engine, q: Query, block: Block, u: Universe) {
    forall ea :: block.startEa <= ea < block.endEa && e.port.decodeAt(ea).Some? ==>
      Mentions(e.port, e.port.decodeAt(ea).value, q.func, u)
  }

  /** Everything that the seed, the calls and the instructions in the blocks name. */
  ghost predicate Covers(e: Engine, q: Query, u: Universe) {
    && DecodesInPlace(e.port)
    && Within(q.initial, u)
    && e.port.callClobbered <= u.regs && (e.port.returnValueReg.Some? ==> e.port.returnValueReg.value in u.regs)
    && forall b :: b in q.blocks ==> BlockMentions(e, q, b, u)
  }

  lemma {:induction false} InvalidationStaysWithin(port: IdaPort, instr: Instruction, ops: seq<Operand>, s: State, func: int, u: Universe)
    requires Within(s, u) && Mentions(port, instr, func, u) && forall op :: op in ops ==> op in instr.operands
    ensures Within(InvalidateWritten(instr, ops, s), u) && Within(InvalidatePartial(port, instr, ops, s), u)
  {
    if ops != [] {
      assert ops[|ops| - 1] in instr.operands;
      InvalidationStaysWithin(port, instr, ops[..|ops| - 1], s, func, u);
    }
  }

  lemma ForwardLocatorSetsItsOperands(loc: Locator, instr: Instruction, s: State)
    requires Matches(loc, instr) && DefinesForward(loc)
    ensures instr.OperandAt(0).Some? && instr.OperandAt(1).Some?
    ensures Dst(instr).kind == REG && (loc == XchgRegReg ==> Src(instr).kind == REG)
    ensures var s' := ApplyForward(loc, instr, s);
      && s'.stack == s.stack
      && forall r :: r in s'.registers ==>
           r in s.registers || Dst(instr).reg == Some(r) || (loc == XchgRegReg && Src(instr).reg == Some(r))
  {}

  lemma TransferStaysWithin(e: Engine, instr: Instruction, func: int, s: State, u: Universe)
    requires Within(s, u) && Mentions(e.port, instr, func, u)
    requires e.port.callClobbered <= u.regs && (e.port.returnValueReg.Some? ==> e.port.returnValueReg.value in u.regs)
    ensures Within(Transfer(e, instr, func, s), u)
  {
    hide ApplyForward, Matches, StartsWith;
    InvalidationStaysWithin(e.port, instr, instr.operands, s, func, u);
    var loc := Dispatch(e.locators, instr);
    if !instr.IsCall() && loc.Some? && DefinesForward(loc.value) {
      ForwardLocatorSetsItsOperands(loc.value, instr, s);
      assert Dst(instr) in instr.operands && Src(instr) in instr.operands;
      forall r | r in ApplyForward(loc.value, instr, s).registers.Keys ensures r in u.regs {}
    }
  }

  lemma {:induction false} SimulationStaysWithin(e: Engine, q: Query, block: Block, ea: int, s: State, used: int, u: Universe)
    requires Within(s, u) && Covers(e, q, u) && block in q.blocks && block.startEa <= ea
    ensures Within(Simulate(e, ea, block.endEa, None, q.func, s, used).state, u)
    decreases e.maxInstructions - used, block.endEa - ea
  {
    hide Transfer, InvalidatePartial;
    if ea < block.endEa {
      match e.port.decodeAt(ea)
      case None => SimulationStaysWithin(e, q, block, ea + 1, s, used, u);
      case Some(instr) =>
        if used + 1 <= e.maxInstructions {
          assert BlockMentions(e, q, block, u);
          TransferStaysWithin(e, instr, q.func, s, u);
          InvalidationStaysWithin(e.port, instr, instr.operands, Transfer(e, instr, q.func, s), q.func, u);
          SimulationStaysWithin(e, q, block, instr.NextEa(), Step(e, instr, q.func, s), used + 1, u);
        }
    }
  }

  lemma JoinStaysWithin(states: seq<State>, u: Universe)
    requires forall s :: s in states ==> Within(s, u)
    ensures Within(JoinStates(states), u)
  {}

  // -- what a state has left to lose --------------------------------------------------------

  function Missing<K>(all: set<K>, m: map<K, Value>): set<K> { set k | k in all && k !in m }

  function Unsettled<K>(all: set<K>, m: map<K, Value>): set<K> { set k | k in all && !(k in m && m[k] == WIDENED) }

  function Left(u: Universe, s: State): nat {
    |Missing(u.regs, s.registers)| + |Unsettled(u.regs, s.registers)| + |Missing(u.cells, s.stack)| + |Unsettled(u.cells, s.stack)|
  }

  lemma SubsetsAreSmaller<T>(a: set<T>, b: set<T>)
    requires a <= b
    ensures |a| <= |b| && (a != b ==> |a| < |b|)
  {
    assert b == a + (b - a);
    if a != b { assert b - a != {}; }
  }

  lemma LeftIsBounded(u: Universe, s: State)
    ensures Left(u, s) <= 2 * u.Size()
  {
    SubsetsAreSmaller(Missing(u.regs, s.registers), u.regs);
    SubsetsAreSmaller(Unsettled(u.regs, s.registers), u.regs);
    SubsetsAreSmaller(Missing(u.cells, s.stack), u.cells);
    SubsetsAreSmaller(Unsettled(u.cells, s.stack), u.cells);
  }

  /** A location can only appear once and be widened once. */
  lemma WidenedMapLoses<K>(all: set<K>, previous: map<K, Value>, widened: map<K, Value>)
    requires previous.Keys <= widened.Keys <= all
    requires forall k :: k in previous ==> widened[k] == previous[k] || widened[k] == WIDENED
    ensures |Missing(all, widened)| <= |Missing(all, previous)| && |Unsettled(all, widened)| <= |Unsettled(all, previous)|
    ensures widened != previous ==>
      |Missing(all, widened)| + |Unsettled(all, widened)| < |Missing(all, previous)| + |Unsettled(all, previous)|
  {
    SubsetsAreSmaller(Missing(all, widened), Missing(all, previous));
    SubsetsAreSmaller(Unsettled(all, widened), Unsettled(all, previous));
    if widened != previous {
      if k :| k in widened && k !in previous {
        assert k in Missing(all, previous) && k !in Missing(all, widened);
      } else {
        assert widened.Keys == previous.Keys;
        var k :| k in previous && widened[k] != previous[k];
        assert k in Unsettled(all, previous) && k !in Unsettled(all, widened);
      }
    }
  }

  lemma WideningLoses(u: Universe, previous: State, next: State)
    requires Within(previous, u) && Within(next, u)
    ensures Within(Widen(previous, next), u)
    ensures Widen(previous, next) == previous || Left(u, Widen(previous, next)) < Left(u, previous)
  {
    var widened := Widen(previous, next);
    WidenedMapLoses(u.regs, previous.registers, widened.registers);
    WidenedMapLoses(u.cells, previous.stack, widened.stack);
  }

  // -- the credit of the graph -----------------------------------------------------------------

  function EarlyVisits(e: Engine): nat { if e.loopWidenAfter < 0 then 0 else e.loopWidenAfter }

  /** How often the block's in-state can still change. */
  function Credit(e: Engine, u: Universe, w: Work, start: int): nat {
    var early := EarlyVisits(e) - w.Visits(start);
    if early > 0 then early + 2 * u.Size() + 1
    else if start in w.ins then Left(u, w.ins[start])
    else 2 * u.Size() + 1
  }

  function TotalCredit(e: Engine, u: Universe, blocks: seq<Block>, w: Work): nat {
    if blocks == [] then 0 else Credit(e, u, w, blocks[0].startEa) + TotalCredit(e, u, blocks[1..], w)
  }

  function MostSuccessors(blocks: seq<Block>): (n: nat)
    ensures forall b :: b in blocks ==> |b.succStarts| <= n
  {
    if blocks == [] then 0
    else
      var rest := MostSuccessors(blocks[1..]);
      if |blocks[0].succStarts| > rest then |blocks[0].succStarts| else rest
  }

  /** Turns still to come, at most. */
  function TurnsLeft(e: Engine, q: Query, u: Universe, w: Work): nat {
    |w.worklist| + (1 + MostSuccessors(q.blocks)) * TotalCredit(e, u, q.blocks, w)
  }

  ghost predicate AllWithin(w: Work, u: Universe) {
    && (forall start :: start in w.ins ==> Within(w.ins[start], u))
    && (forall start :: start in w.outs ==> Within(w.outs[start], u))
    && (forall start :: w.Visits(start) >= 0)
  }

  lemma {:induction false} CreditIsSpent(e: Engine, u: Universe, blocks: seq<Block>, w: Work, w': Work, start: int)
    requires forall s :: Credit(e, u, w', s) <= Credit(e, u, w, s)
    ensures TotalCredit(e, u, blocks, w') <= TotalCredit(e, u, blocks, w)
    ensures Credit(e, u, w', start) < Credit(e, u, w, start) && (exists b :: b in blocks && b.startEa == start) ==>
              TotalCredit(e, u, blocks, w') < TotalCredit(e, u, blocks, w)
  {
    if blocks != [] { CreditIsSpent(e, u, blocks[1..], w, w', start); }
  }

  lemma ComputedInStaysWithin(e: Engine, q: Query, u: Universe, w: Work, block: Block, visit: int)
    requires Covers(e, q, u) && AllWithin(w, u) && ComputedIn(e, q, w, block, visit).Some?
    ensures Within(ComputedIn(e, q, w, block, visit).value, u)
  {
    var available := Available(Predecessors(q.blocks, block), w.outs);
    forall s | s in available ensures Within(s, u) {}
    JoinStaysWithin(available, u);
  }

  lemma TurnStaysWithin(e: Engine, q: Query, u: Universe, w: Work)
    requires Covers(e, q, u) && AllWithin(w, u) && w.worklist != [] && !w.exceeded
    ensures AllWithin(Turn(e, q, w), u)
  {
    hide Covers, Within, ComputedIn, Simulate, BlockAt, Successors;
    var start, w' := w.worklist[0], Turn(e, q, w);
    var block := BlockAt(q.blocks, start);
    assert forall s :: w.Visits(s) >= 0 && w'.Visits(s) >= w.Visits(s);
    if block.Some? && ComputedIn(e, q, w, block.value, w.Visits(start) + 1).Some? {
      ComputedInStaysWithin(e, q, u, w, block.value, w.Visits(start) + 1);
      var input := ComputedIn(e, q, w, block.value, w.Visits(start) + 1).value;
      SimulationStaysWithin(e, q, block.value, start, input, w.used, u);
    }
  }

  /** What a turn does to the visits and in-states that the credit is made of. */
  lemma TurnOnlyTouchesItsBlock(e: Engine, q: Query, w: Work, s: int)
    requires w.worklist != [] && !w.exceeded
    ensures var w', start := Turn(e, q, w), w.worklist[0];
      && w.Visits(s) <= w'.Visits(s) <= w.Visits(s) + 1
      && (s != start ==> w'.Visits(s) == w.Visits(s) && (s in w'.ins <==> s in w.ins) && (s in w.ins ==> w'.ins[s] == w.ins[s]))
      && (w'.ins != w.ins ==>
            var block := BlockAt(q.blocks, start);
            && block.Some? && w'.Visits(start) == w.Visits(start) + 1 && start in w'.ins
            && ComputedIn(e, q, w, block.value, w.Visits(start) + 1) == Some(w'.ins[start])
            && !Unchanged(w, start, w'.ins[start]))
  {
    hide ComputedIn, Simulate, Successors, BlockAt;
  }

  /** A visit never adds credit, and one that stores a new in-state costs some. */
  lemma VisitSpendsCredit(e: Engine, q: Query, u: Universe, w: Work, s: int)
    requires Covers(e, q, u) && AllWithin(w, u) && w.worklist != [] && !w.exceeded
    ensures var w' := Turn(e, q, w);
      && Credit(e, u, w', s) <= Credit(e, u, w, s)
      && (s == w.worklist[0] && w'.ins != w.ins ==> Credit(e, u, w', s) < Credit(e, u, w, s))
  {
    var w', start := Turn(e, q, w), w.worklist[0];
    TurnOnlyTouchesItsBlock(e, q, w, s);
    if s in w.ins { LeftIsBounded(u, w.ins[s]); }
    if s in w'.ins { LeftIsBounded(u, w'.ins[s]); }
    if s == start && w'.ins != w.ins && w.Visits(s) + 1 > e.loopWidenAfter && s in w.ins {
      LateVisitWidens(e, q, u, w, BlockAt(q.blocks, s).value);
    }
    hide Turn, Left, Covers, ComputedIn;
  }

  lemma LateVisitWidens(e: Engine, q: Query, u: Universe, w: Work, block: Block)
    requires Covers(e, q, u) && AllWithin(w, u) && block.startEa in w.ins
    requires w.Visits(block.startEa) + 1 > e.loopWidenAfter
    requires ComputedIn(e, q, w, block, w.Visits(block.startEa) + 1).Some?
    ensures var input, previous := ComputedIn(e, q, w, block, w.Visits(block.startEa) + 1).value, w.ins[block.startEa];
      input == previous || Left(u, input) < Left(u, previous)
  {
    JoinedStaysWithin(e, q, u, w, block);
    WideningLoses(u, w.ins[block.startEa], JoinPredecessors(q, block, w.outs).value);
  }

  lemma JoinedStaysWithin(e: Engine, q: Query, u: Universe, w: Work, block: Block)
    requires Covers(e, q, u) && AllWithin(w, u) && JoinPredecessors(q, block, w.outs).Some?
    ensures Within(JoinPredecessors(q, block, w.outs).value, u)
  {
    var available := Available(Predecessors(q.blocks, block), w.outs);
    forall s | s in available ensures Within(s, u) {}
    JoinStaysWithin(available, u);
  }

  lemma TurnQueuesSuccessors(e: Engine, q: Query, w: Work)
    requires w.worklist != [] && !w.exceeded
    ensures var w' := Turn(e, q, w);
      if w'.ins == w.ins then |w'.worklist| == |w.worklist| - 1
      else BlockAt(q.blocks, w.worklist[0]).Some? && |w'.worklist| < |w.worklist| + MostSuccessors(q.blocks)
  {
    hide ComputedIn, Simulate;
    TurnOnlyTouchesItsBlock(e, q, w, w.worklist[0]);
    var block := BlockAt(q.blocks, w.worklist[0]);
    if block.Some? { assert |Starts(Successors(q.blocks, block.value))| <= |block.value.succStarts|; }
  }

  /** Every turn brings the end nearer; the visit cap plays no part in it. */
  lemma TurnBringsTheEndNearer(e: Engine, q: Query, u: Universe, w: Work)
    requires Covers(e, q, u) && AllWithin(w, u) && w.worklist != [] && !w.exceeded
    ensures AllWithin(Turn(e, q, w), u)
    ensures TurnsLeft(e, q, u, Turn(e, q, w)) < TurnsLeft(e, q, u, w)
  {
    var w', start := Turn(e, q, w), w.worklist[0];
    TurnStaysWithin(e, q, u, w);
    TurnQueuesSuccessors(e, q, w);
    forall s ensures Credit(e, u, w', s) <= Credit(e, u, w, s) { VisitSpendsCredit(e, q, u, w, s); }
    VisitSpendsCredit(e, q, u, w, start);
    hide Turn, Credit, Covers, AllWithin, TotalCredit;
    CreditIsSpent(e, u, q.blocks, w, w', start);
    Scaled(1 + MostSuccessors(q.blocks), TotalCredit(e, u, q.blocks, w'), TotalCredit(e, u, q.blocks, w));
  }

  lemma Scaled(k: nat, x: nat, y: nat)
    ensures x <= y ==> k * x <= k * y
    ensures x < y ==> k * x <= k * y - k
  {
    if x < y { assert k * x + k == k * (x + 1); }
  }

  /** The loop after at most `n` turns. */
  function After(e: Engine, q: Query, w: Work, n: nat): Work
    decreases n
  {
    if n == 0 || w.worklist == [] || w.exceeded then w else After(e, q, Turn(e, q, w), n - 1)
  }

  function Bound(e: Engine, q: Query, u: Universe): nat {
    1 + (1 + MostSuccessors(q.blocks)) * (|q.blocks| * (EarlyVisits(e) + 2 * u.Size() + 1))
  }

  lemma {:induction false} CreditAtTheStart(e: Engine, u: Universe, blocks: seq<Block>, w: Work)
    requires w.ins == map[] && forall start :: w.Visits(start) == 0
    ensures TotalCredit(e, u, blocks, w) == |blocks| * (EarlyVisits(e) + 2 * u.Size() + 1)
  {
    if blocks != [] { CreditAtTheStart(e, u, blocks[1..], w); }
  }

  lemma {:induction false} EndsWithin(e: Engine, q: Query, u: Universe, w: Work, n: nat)
    requires Covers(e, q, u) && AllWithin(w, u) && n >= TurnsLeft(e, q, u, w)
    ensures After(e, q, w, n).worklist == [] || After(e, q, w, n).exceeded
    decreases n
  {
    if n > 0 && w.worklist != [] && !w.exceeded {
      TurnBringsTheEndNearer(e, q, u, w);
      EndsWithin(e, q, u, Turn(e, q, w), n - 1);
    }
  }

  lemma StartIsCovered(e: Engine, q: Query, u: Universe)
    ensures AllWithin(Begin(q), u) && TurnsLeft(e, q, u, Begin(q)) == Bound(e, q, u)
  {
    CreditAtTheStart(e, u, q.blocks, Begin(q));
  }

  lemma TurnAddsOneVisit(e: Engine, q: Query, w: Work, start: int)
    requires w.worklist != [] && !w.exceeded
    ensures Turn(e, q, w).Visits(start) <= w.Visits(start) + 1
    ensures Turn(e, q, w).capped ==> w.capped || w.Visits(w.worklist[0]) + 1 > e.maxBlockVisits
  {}

  lemma {:induction false} CapIsNotReached(e: Engine, q: Query, u: Universe, w: Work, bound: nat)
    requires Covers(e, q, u) && AllWithin(w, u) && !w.capped && bound <= e.maxBlockVisits
    requires forall start :: w.Visits(start) + TurnsLeft(e, q, u, w) <= bound
    ensures !Iterate(e, q, w).capped
    decreases VisitsLeft(e, q.blocks, w), |w.worklist|
  {
    if w.worklist != [] && !w.exceeded {
      var w' := Turn(e, q, w);
      TurnDecreases(e, q, w);
      TurnBringsTheEndNearer(e, q, u, w);
      TurnAddsOneVisit(e, q, w, w.worklist[0]);
      forall start ensures w'.Visits(start) + TurnsLeft(e, q, u, w') <= bound { TurnAddsOneVisit(e, q, w, start); }
      CapIsNotReached(e, q, u, w', bound);
    }
  }

  /** So a visit cap as large as that number of turns never skips a visit, and forward
    answers hold without assuming that it did not. */
  lemma LargeCapNeverFires(e: Engine, q: Query, u: Universe)
    requires Covers(e, q, u) && Bound(e, q, u) <= e.maxBlockVisits
    ensures !Fixpoint(e, q).capped
  {
    StartIsCovered(e, q, u);
    CapIsNotReached(e, q, u, Begin(q), Bound(e, q, u));
  }

  // -- the locations of a function are finitely many -----------------------------------------

  function Both(u: Universe, v: Universe): Universe { Universe(u.regs + v.regs, u.cells + v.cells) }

  function OfOperand(port: IdaPort, instr: Instruction, op: Operand, func: int): Universe {
    var view := if op.reg.Some? then port.registerView(op.reg.value, op.dtypeSize) else None;
    var key := StackKey(port, op, instr.ea, func);
    Universe((if op.reg.Some? then {op.reg.value} else {}) + (if view.Some? then {view.value.parent} else {}),
             if key.Some? then {key.value} else {})
  }

  function OfOperands(port: IdaPort, instr: Instruction, ops: seq<Operand>, func: int): (u: Universe)
    ensures forall op :: op in ops ==> OfOperand(port, instr, op, func).regs <= u.regs && OfOperand(port, instr, op, func).cells <= u.cells
  {
    if ops == [] then Universe({}, {})
    else
      assert forall op :: op in ops <==> op == ops[0] || op in ops[1..];
      Both(OfOperand(port, instr, ops[0], func), OfOperands(port, instr, ops[1..], func))
  }

  predicate Includes(v: Universe, u: Universe) { u.regs <= v.regs && u.cells <= v.cells }

  lemma MentionsMore(port: IdaPort, instr: Instruction, func: int, v: Universe)
    requires Includes(v, OfOperands(port, instr, instr.operands, func))
    ensures Mentions(port, instr, func, v)
  {
    forall op | op in instr.operands
      ensures op.kind == REG && op.reg.Some? ==>
        && op.reg.value in v.regs
        && var view := port.registerView(op.reg.value, op.dtypeSize); (view.Some? ==> view.value.parent in v.regs)
      ensures var key := StackKey(port, op, instr.ea, func); (key.Some? ==> key.value in v.cells)
    {
      var one := OfOperand(port, instr, op, func);
      assert op.reg.Some? ==> op.reg.value in one.regs;
      assert StackKey(port, op, instr.ea, func).Some? ==> StackKey(port, op, instr.ea, func).value in one.cells;
    }
  }

  function OfCode(port: IdaPort, lo: int, hi: int, func: int): (u: Universe)
    ensures forall ea :: lo <= ea < hi && port.decodeAt(ea).Some? ==>
              Includes(u, OfOperands(port, port.decodeAt(ea).value, port.decodeAt(ea).value.operands, func))
    decreases hi - lo
  {
    if hi <= lo then Universe({}, {})
    else
      var front := OfCode(port, lo, hi - 1, func);
      match port.decodeAt(hi - 1)
      case None => front
      case Some(instr) => Both(front, OfOperands(port, instr, instr.operands, func))
  }

  function OfBlocks(port: IdaPort, blocks: seq<Block>, func: int): (u: Universe)
    ensures forall b :: b in blocks ==> Includes(u, OfCode(port, b.startEa, b.endEa, func))
  {
    if blocks == [] then Universe({}, {})
    else
      assert forall b :: b in blocks <==> b == blocks[0] || b in blocks[1..];
      Both(OfCode(port, blocks[0].startEa, blocks[0].endEa, func), OfBlocks(port, blocks[1..], func))
  }

  /** Every location the forward engine can come to track in a function. */
  function UniverseOf(e: Engine, q: Query): Universe {
    Both(Universe(q.initial.registers.Keys + e.port.callClobbered
                  + (if e.port.returnValueReg.Some? then {e.port.returnValueReg.value} else {}), q.initial.stack.Keys),
         OfBlocks(e.port, q.blocks, q.func))
  }

  lemma UniverseCovers(e: Engine, q: Query)
    requires DecodesInPlace(e.port)
    ensures Covers(e, q, UniverseOf(e, q))
  {
    hide DecodesInPlace, OfOperands, Mentions;
    var u, all := UniverseOf(e, q), OfBlocks(e.port, q.blocks, q.func);
    forall b | b in q.blocks ensures BlockMentions(e, q, b, u) {
      var here := OfCode(e.port, b.startEa, b.endEa, q.func);
      forall ea | b.startEa <= ea < b.endEa && e.port.decodeAt(ea).Some?
        ensures Mentions(e.port, e.port.decodeAt(ea).value, q.func, u)
      {
        var instr := e.port.decodeAt(ea).value;
        assert Includes(here, OfOperands(e.port, instr, instr.operands, q.func)) && Includes(all, here);
        MentionsMore(e.port, instr, q.func, u);
      }
    }
  }

  /** Turns that are enough for the function, whatever the visit cap. */
  function Enough(e: Engine, q: Query): nat { Bound(e, q, UniverseOf(e, q)) }

  lemma CapIsNoMatter(e: Engine, q: Query, u: Universe, cap: int)
    requires Covers(e, q, u)
    ensures var e' := e.(maxBlockVisits := cap); Covers(e', q, u) && Bound(e', q, u) == Bound(e, q, u)
  {}

  lemma EnoughForAnyCap(e: Engine, q: Query, cap: int)
    requires DecodesInPlace(e.port)
    ensures Enough(e.(maxBlockVisits := cap), q) == Enough(e, q)
  {
    hide OfBlocks, Bound, Covers;
    UniverseCovers(e, q);
    assert UniverseOf(e.(maxBlockVisits := cap), q) == UniverseOf(e, q);
    CapIsNoMatter(e, q, UniverseOf(e, q), cap);
  }

  lemma EndsWithinTheBound(e: Engine, q: Query, u: Universe)
    requires Covers(e, q, u)
    ensures var end := After(e, q, Begin(q), Bound(e, q, u)); end.worklist == [] || end.exceeded
  {
    StartIsCovered(e, q, u);
    hide Covers, AllWithin, TurnsLeft, Bound, Begin, After;
    EndsWithin(e, q, u, Begin(q), Bound(e, q, u));
  }

  /** The worklist empties, or the instruction budget runs out, within a number of turns
    that does not depend on how many visits a block is allowed. */
  lemma WideningAloneTerminates(e: Engine, q: Query, cap: int)
    requires DecodesInPlace(e.port)
    ensures var end := After(e.(maxBlockVisits := cap), q, Begin(q), Enough(e, q));
      end.worklist == [] || end.exceeded
  {
    hide Covers, UniverseOf, Bound, Begin, After, DecodesInPlace;
    UniverseCovers(e, q);
    CapIsNoMatter(e, q, UniverseOf(e, q), cap);
    EndsWithinTheBound(e.(maxBlockVisits := cap), q, UniverseOf(e, q));
  }

  lemma UncappedAnswersAreSound(e: Engine, func: int, argIndex: int, targetEa: int, reg: int, run: seq<Hop>)
    requires BlockContaining(e.port.flowchart(func), func).Some?
    requires BlockContaining(e.port.flowchart(func), targetEa).Some?
    requires var entry, target := BlockContaining(e.port.flowchart(func), func).value, BlockContaining(e.port.flowchart(func), targetEa).value;
      var q := QueryFor(e, func, argIndex, reg, entry);
      && ForwardHypotheses(e, q) && Whole(e.port, reg)
      && Trusted(e, q, target, targetEa, Register(reg))
      && Enough(e, q) <= e.maxBlockVisits
      && IsRun(e.port, func, q.blocks, q.entryStart, run, targetEa)
      && run[|run| - 1].block == target
    ensures |run| > 0 && |run[0].trace| > 0 && |run[|run| - 1].trace| > 0
    ensures var last := LastState(run);
      Means(ResolveAt(e, func, argIndex, targetEa, Some(reg)), last.Reg(reg), last.rets, run[0].trace[0].Reg(reg))
  {
    var q := QueryFor(e, func, argIndex, reg, BlockContaining(e.port.flowchart(func), func).value);
    UniverseCovers(e, q);
    LargeCapNeverFires(e, q, UniverseOf(e, q));
    hide ForwardHypotheses, Covers, Bound, Fixpoint, ResolveAt, Means, Trusted, UniverseOf, LayoutContract;
    ForwardAnswersAreSound(e, func, argIndex, targetEa, reg, run);
  }

  // -- an instruction budget that is enough ----------------------------------------------------

  function Longest(blocks: seq<Block>): (n: nat)
    ensures forall b :: b in blocks ==> b.endEa - b.startEa <= n
  {
    if blocks == [] then 0
    else
      var rest, here := Longest(blocks[1..]), blocks[0].endEa - blocks[0].startEa;
      if here > rest then here else rest
  }

  function Length(ea: int, end: int): nat { if ea < end then end - ea else 0 }

  /** An instruction takes up at least one address. */
  lemma {:induction false} SimulationUsesAtMost(e: Engine, ea: int, end: int, stop: Option<int>, func: int, s: State, used: int)
    requires DecodesInPlace(e.port) && used + Length(ea, end) <= e.maxInstructions
    ensures var sim := Simulate(e, ea, end, stop, func, s, used); !sim.exceeded && sim.used <= used + Length(ea, end)
    decreases e.maxInstructions - used, end - ea
  {
    hide Step;
    if ea < end && !(stop.Some? && ea >= stop.value) {
      match e.port.decodeAt(ea)
      case None => SimulationUsesAtMost(e, ea + 1, end, stop, func, s, used);
      case Some(instr) => SimulationUsesAtMost(e, instr.NextEa(), end, stop, func, Step(e, instr, func, s), used + 1);
    }
  }

  lemma TurnUsesAtMost(e: Engine, q: Query, w: Work)
    requires DecodesInPlace(e.port) && w.worklist != [] && !w.exceeded && w.used + Longest(q.blocks) <= e.maxInstructions
    ensures !Turn(e, q, w).exceeded && Turn(e, q, w).used <= w.used + Longest(q.blocks)
  {
    hide ComputedIn, Simulate, Successors, DecodesInPlace;
    var block := BlockAt(q.blocks, w.worklist[0]);
    if block.Some? {
      var b, input := block.value, ComputedIn(e, q, w, block.value, w.Visits(w.worklist[0]) + 1);
      if input.Some? { SimulationUsesAtMost(e, b.startEa, b.endEa, None, q.func, input.value, w.used); }
    }
  }

  lemma OneTurnLess(left: nat, left': nat, longest: nat, used: int, used': int, limit: int)
    requires used + left * longest <= limit && left' < left && used' <= used + longest
    ensures used + longest <= limit && used' + left' * longest <= limit
  {
    Scaled(longest, left', left - 1);
    Scaled(longest, 1, left);
    assert left * longest == (left - 1) * longest + longest;
  }

  lemma {:induction false} BudgetLasts(e: Engine, q: Query, u: Universe, w: Work)
    requires Covers(e, q, u) && AllWithin(w, u) && !w.exceeded
    requires w.used + TurnsLeft(e, q, u, w) * Longest(q.blocks) <= e.maxInstructions
    ensures !Iterate(e, q, w).exceeded
    decreases VisitsLeft(e, q.blocks, w), |w.worklist|
  {
    IterateTurns(e, q, w);
    if w.worklist != [] {
      hide Iterate, Turn, TurnsLeft, AllWithin, VisitsLeft;
      var w', longest := Turn(e, q, w), Longest(q.blocks);
      TurnDecreases(e, q, w);
      TurnBringsTheEndNearer(e, q, u, w);
      OneTurnLess(TurnsLeft(e, q, u, w), TurnsLeft(e, q, u, w'), longest, w.used, w.used, e.maxInstructions);
      TurnUsesAtMost(e, q, w);
      OneTurnLess(TurnsLeft(e, q, u, w), TurnsLeft(e, q, u, w'), longest, w.used, w'.used, e.maxInstructions);
      BudgetLasts(e, q, u, w');
    }
  }

  lemma BlocksFitTheBudget(e: Engine, q: Query)
    requires DecodesInPlace(e.port) && Longest(q.blocks) <= e.maxInstructions
    ensures forall b, stop, s :: b in q.blocks ==> !Simulate(e, b.startEa, b.endEa, stop, q.func, s, 0).exceeded
  {
    hide DecodesInPlace, Simulate;
    forall b, stop, s | b in q.blocks ensures !Simulate(e, b.startEa, b.endEa, stop, q.func, s, 0).exceeded {
      SimulationUsesAtMost(e, b.startEa, b.endEa, stop, q.func, s, 0);
    }
  }

  lemma BeginsWithinTheBudget(e: Engine, q: Query, u: Universe)
    ensures var w := Begin(q); AllWithin(w, u) && TurnsLeft(e, q, u, w) == Bound(e, q, u) && w.used == 0 && !w.exceeded
  {
    StartIsCovered(e, q, u);
  }

  lemma BudgetIsEnough(e: Engine, q: Query, u: Universe)
    requires Covers(e, q, u) && Bound(e, q, u) * Longest(q.blocks) <= e.maxInstructions
    ensures !Fixpoint(e, q).exceeded && Longest(q.blocks) <= e.maxInstructions
  {
    hide Covers, AllWithin, TurnsLeft, Bound, Iterate, Begin, Longest, VisitsLeft;
    BoundIsPositive(e, q, u);
    OneFits(Bound(e, q, u), Longest(q.blocks), e.maxInstructions);
    BeginsWithinTheBudget(e, q, u);
    BudgetLasts(e, q, u, Begin(q));
  }

  lemma OneFits(n: nat, size: nat, limit: int)
    requires n >= 1 && n * size <= limit
    ensures size <= limit
  {
    Scaled(size, 1, n);
  }

  lemma BoundIsPositive(e: Engine, q: Query, u: Universe)
    ensures Bound(e, q, u) >= 1
  {}

  /** With a visit cap and an instruction budget as large as these, the loop ends because
    there is nothing left to do, and no answer is refused for want of budget. */
  lemma LargeLimitsSuffice(e: Engine, q: Query)
    requires DecodesInPlace(e.port)
    requires Enough(e, q) <= e.maxBlockVisits && Enough(e, q) * Longest(q.blocks) <= e.maxInstructions
    ensures var w := Fixpoint(e, q); w.worklist == [] && !w.exceeded && !w.capped
    ensures forall b, stop, s :: b in q.blocks ==> !Simulate(e, b.startEa, b.endEa, stop, q.func, s, 0).exceeded
  {
    hide Bound, UniverseOf, Covers, DecodesInPlace, Iterate, Simulate;
    UniverseCovers(e, q);
    LargeCapNeverFires(e, q, UniverseOf(e, q));
    BudgetIsEnough(e, q, UniverseOf(e, q));
    BlocksFitTheBudget(e, q);
  }
}
