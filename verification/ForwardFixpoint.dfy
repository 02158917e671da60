/** What the worklist loop leaves behind, and what it proves about every run. */
module ForwardFixpoint {
  import opened Values
  import opened Port
  import opened State
  import opened Merge
  import opened Machine
  import opened ForwardSpec

  // -- the order on states -----------------------------------------------------------------

  /** Location by location, `above` claims no more than `below`. */
  ghost predicate AtOrAbove(below: State, above: State) {
    && (forall r :: Below(below.Register(r), above.Register(r)))
    && (forall c :: Below(below.Slot(c), above.Slot(c)))
  }

  lemma JoinIsAbove(states: seq<State>, s: State)
    requires s in states
    ensures AtOrAbove(s, JoinStates(states))
  {
    var i :| 0 <= i < |states| && states[i] == s;
    forall r ensures Below(s.Register(r), JoinStates(states).Register(r)) {
      JoinAllIsLeastUpperBound(RegistersOf(states, r));
      assert RegistersOf(states, r)[i] in RegistersOf(states, r);
    }
    forall c ensures Below(s.Slot(c), JoinStates(states).Slot(c)) {
      JoinAllIsLeastUpperBound(SlotsOf(states, c));
      assert SlotsOf(states, c)[i] in SlotsOf(states, c);
    }
  }

  lemma JoinIsBelow(states: seq<State>, above: State)
    requires states != [] && forall s :: s in states ==> AtOrAbove(s, above)
    ensures AtOrAbove(JoinStates(states), above)
  {
    forall r ensures Below(JoinStates(states).Register(r), above.Register(r)) {
      JoinAllIsLeastUpperBound(RegistersOf(states, r));
      forall v | v in RegistersOf(states, r) ensures Below(v, above.Register(r)) {
        var i :| 0 <= i < |states| && RegistersOf(states, r)[i] == v;
        assert AtOrAbove(states[i], above);
      }
      if r !in RegisterKeys(states) { assert states[0] in states && Below(states[0].Register(r), above.Register(r)); }
    }
    forall c ensures Below(JoinStates(states).Slot(c), above.Slot(c)) {
      JoinAllIsLeastUpperBound(SlotsOf(states, c));
      forall v | v in SlotsOf(states, c) ensures Below(v, above.Slot(c)) {
        var i :| 0 <= i < |states| && SlotsOf(states, c)[i] == v;
        assert AtOrAbove(states[i], above);
      }
      if c !in SlotKeys(states) { assert states[0] in states && Below(states[0].Slot(c), above.Slot(c)); }
    }
  }

  lemma WidenIsAbove(previous: State, next: State)
    ensures AtOrAbove(next, Widen(previous, next))
  {
    forall r ensures Below(next.Register(r), Widen(previous, next).Register(r)) { BelowReflexive(next.Register(r)); }
    forall c ensures Below(next.Slot(c), Widen(previous, next).Slot(c)) { BelowReflexive(next.Slot(c)); }
  }

  lemma AtOrAboveReflexive(s: State)
    ensures AtOrAbove(s, s)
  {
    forall r ensures Below(s.Register(r), s.Register(r)) { BelowReflexive(s.Register(r)); }
    forall c ensures Below(s.Slot(c), s.Slot(c)) { BelowReflexive(s.Slot(c)); }
  }

  lemma AtOrAboveTransitive(a: State, b: State, c: State)
    requires AtOrAbove(a, b) && AtOrAbove(b, c)
    ensures AtOrAbove(a, c)
  {
    forall r ensures Below(a.Register(r), c.Register(r)) {
      BelowTransitive(a.Register(r), b.Register(r), c.Register(r));
    }
    forall k ensures Below(a.Slot(k), c.Slot(k)) { BelowTransitive(a.Slot(k), b.Slot(k), c.Slot(k)); }
  }

  // -- the loop invariant ---------------------------------------------------------------------

  function OutOf(e: Engine, q: Query, block: Block, input: State): Simulated {
    Simulate(e, block.startEa, block.endEa, None, q.func, input, 0)
  }

  /** A block that once fitted in what was left of the budget fits in a fresh one. */
  lemma {:induction false} SimulationFitsAFreshBudget(e: Engine, ea: int, end: int, stop: Option<int>, func: int, s: State, used: int, less: int)
    requires less <= used && !Simulate(e, ea, end, stop, func, s, used).exceeded
    ensures !Simulate(e, ea, end, stop, func, s, less).exceeded
    ensures Simulate(e, ea, end, stop, func, s, less).state == Simulate(e, ea, end, stop, func, s, used).state
    decreases e.maxInstructions - used, end - ea
  {
    if ea < end && !(stop.Some? && ea >= stop.value) {
      match e.port.decodeAt(ea)
      case None => SimulationFitsAFreshBudget(e, ea + 1, end, stop, func, s, used, less);
      case Some(instr) =>
        SimulationFitsAFreshBudget(e, instr.NextEa(), end, stop, func, Step(e, instr, func, s), used + 1, less + 1);
    }
  }

  lemma {:induction false} SimulationUsesBudget(e: Engine, ea: int, end: int, stop: Option<int>, func: int, s: State, used: int)
    ensures Simulate(e, ea, end, stop, func, s, used).used >= used
    decreases e.maxInstructions - used, end - ea
  {
    if ea < end && !(stop.Some? && ea >= stop.value) {
      match e.port.decodeAt(ea)
      case None => SimulationUsesBudget(e, ea + 1, end, stop, func, s, used);
      case Some(instr) =>
        if used + 1 <= e.maxInstructions {
          SimulationUsesBudget(e, instr.NextEa(), end, stop, func, Step(e, instr, func, s), used + 1);
        }
    }
  }

  ghost predicate Settled(e: Engine, q: Query, w: Work, start: int) {
    && BlockAt(q.blocks, start).Some? && start in w.ins && start in w.outs
    && !OutOf(e, q, BlockAt(q.blocks, start).value, w.ins[start]).exceeded
    && w.outs[start] == OutOf(e, q, BlockAt(q.blocks, start).value, w.ins[start]).state
  }

  ghost predicate EdgeCovered(w: Work, b: Block, c: Block)
    requires b.startEa in w.outs
  {
    c.startEa in w.worklist || (c.startEa in w.ins && AtOrAbove(w.outs[b.startEa], w.ins[c.startEa]))
  }

  /** While no visit has been skipped, every edge out of a simulated block, but for those
    back to the entry, is either still to be looked at or already accounted for. */
  ghost predicate Invariant(e: Engine, q: Query, w: Work) {
    && w.used >= 0
    && w.ins.Keys == w.outs.Keys
    && (forall start :: start in w.ins ==> Settled(e, q, w, start))
    && (q.entryStart in w.worklist || (q.entryStart in w.ins && AtOrAbove(q.initial, w.ins[q.entryStart])))
    && (forall b, c :: b in q.blocks && b.startEa in w.outs && c in Successors(q.blocks, b) && c.startEa != q.entryStart ==>
          EdgeCovered(w, b, c))
  }

  lemma {:induction false} BlockIsFoundByItsStart(blocks: seq<Block>, b: Block)
    requires b in blocks && forall i, j :: 0 <= i < j < |blocks| ==> blocks[i].startEa != blocks[j].startEa
    ensures BlockAt(blocks, b.startEa) == Some(b)
  {
    if blocks[|blocks| - 1] != b { BlockIsFoundByItsStart(blocks[..|blocks| - 1], b); }
  }

  /** The in-state of a visit is above every predecessor's out-state, widened or not. */
  lemma ComputedInIsAbove(e: Engine, q: Query, w: Work, block: Block, visit: int, p: Block)
    requires GraphContract(q.blocks) && block in q.blocks && block.startEa != q.entryStart
    requires p in Predecessors(q.blocks, block) && p.startEa in w.outs
    ensures ComputedIn(e, q, w, block, visit).Some?
    ensures AtOrAbove(w.outs[p.startEa], ComputedIn(e, q, w, block, visit).value)
  {
    var available := Available(Predecessors(q.blocks, block), w.outs);
    var joined := JoinStates(available);
    JoinIsAbove(available, w.outs[p.startEa]);
    if block.startEa in w.ins {
      WidenIsAbove(w.ins[block.startEa], joined);
      AtOrAboveTransitive(w.outs[p.startEa], joined, Widen(w.ins[block.startEa], joined));
    }
  }

  lemma EntryInIsAbove(e: Engine, q: Query, w: Work, block: Block, visit: int)
    requires block.startEa == q.entryStart
    ensures ComputedIn(e, q, w, block, visit).Some?
    ensures AtOrAbove(q.initial, ComputedIn(e, q, w, block, visit).value)
  {
    AtOrAboveReflexive(q.initial);
    if block.startEa in w.ins { WidenIsAbove(w.ins[block.startEa], q.initial); }
  }

  lemma TurnKeepsSettled(e: Engine, q: Query, w: Work)
    requires w.worklist != [] && !w.exceeded && Invariant(e, q, w) && !Turn(e, q, w).exceeded
    ensures var w' := Turn(e, q, w);
      w'.used >= 0 && w'.ins.Keys == w'.outs.Keys && forall start :: start in w'.ins ==> Settled(e, q, w', start)
  {
    hide Simulate, ComputedIn, AtOrAbove, Successors;
    var w', start := Turn(e, q, w), w.worklist[0];
    var block := BlockAt(q.blocks, start);
    if block.Some? && w'.ins != w.ins {
      var input := ComputedIn(e, q, w, block.value, w.Visits(start) + 1).value;
      SimulationFitsAFreshBudget(e, start, block.value.endEa, None, q.func, input, w.used, 0);
      SimulationUsesBudget(e, start, block.value.endEa, None, q.func, input, w.used);
      forall s | s in w'.ins ensures Settled(e, q, w', s) {
        assert s != start ==> Settled(e, q, w, s);
      }
    } else {
      forall s | s in w'.ins ensures Settled(e, q, w', s) {
        assert Settled(e, q, w, s);
        assert w'.ins[s] == w.ins[s];
        assert w'.outs == w.outs;
      }
    }
  }

  /** The visit changed nothing but the worklist. */
  ghost predicate Skipped(e: Engine, q: Query, w: Work, w': Work)
    requires w.worklist != []
  {
    var block := BlockAt(q.blocks, w.worklist[0]);
    && w'.ins == w.ins && w'.outs == w.outs && w'.worklist == w.worklist[1..]
    && (block.Some? ==>
          var input := ComputedIn(e, q, w, block.value, w.Visits(w.worklist[0]) + 1);
          input.None? || (w.worklist[0] in w.ins && w.ins[w.worklist[0]] == input.value))
  }

  /** The visit simulated its block again and queued the successors. */
  ghost predicate Redone(e: Engine, q: Query, w: Work, w': Work)
    requires w.worklist != []
  {
    var start := w.worklist[0];
    var block := BlockAt(q.blocks, start);
    && block.Some?
    && var input := ComputedIn(e, q, w, block.value, w.Visits(start) + 1);
    && input.Some? && w'.ins == w.ins[start := input.value]
    && start in w'.outs && w'.outs == w.outs[start := w'.outs[start]]
    && w'.worklist == w.worklist[1..] + Starts(Successors(q.blocks, block.value))
  }

  lemma TurnSkipsOrRedoes(e: Engine, q: Query, w: Work)
    requires w.worklist != [] && !w.exceeded && !Turn(e, q, w).exceeded && !Turn(e, q, w).capped
    ensures Skipped(e, q, w, Turn(e, q, w)) || Redone(e, q, w, Turn(e, q, w))
  {}

  /** An edge that the turn's own block does not leave. */
  lemma TurnKeepsOtherEdges(e: Engine, q: Query, w: Work, w': Work, b: Block, c: Block)
    requires GraphContract(q.blocks)
    requires w.worklist != [] && (Skipped(e, q, w, w') || (Redone(e, q, w, w') && b.startEa != w.worklist[0]))
    requires b in q.blocks && b.startEa in w.outs && EdgeCovered(w, b, c)
    requires c in q.blocks && BlockAt(q.blocks, c.startEa) == Some(c) && b in Predecessors(q.blocks, c)
    requires c.startEa != q.entryStart
    ensures b.startEa in w'.outs && EdgeCovered(w', b, c)
  {
    hide Simulate, ComputedIn, AtOrAbove, Settled, Successors, Predecessors, GraphContract;
    var start := w.worklist[0];
    assert w.worklist == [start] + w.worklist[1..];
    if c.startEa == start { ComputedInIsAbove(e, q, w, c, w.Visits(start) + 1, b); }
  }

  lemma TurnKeepsEdges(e: Engine, q: Query, w: Work, w': Work, b: Block, c: Block)
    requires GraphContract(q.blocks)
    requires w.worklist != [] && Invariant(e, q, w)
    requires Skipped(e, q, w, w') || Redone(e, q, w, w')
    requires b in q.blocks && b.startEa in w'.outs && c in Successors(q.blocks, b) && c.startEa != q.entryStart
    ensures EdgeCovered(w', b, c)
  {
    hide Simulate, ComputedIn, AtOrAbove, Settled, Widen;
    assert c in q.blocks && BlockAt(q.blocks, c.startEa) == Some(c);
    BlockIsFoundByItsStart(q.blocks, b);
    if b.startEa == w.worklist[0] && Redone(e, q, w, w') {
      var i :| 0 <= i < |Successors(q.blocks, b)| && Successors(q.blocks, b)[i] == c;
      assert Starts(Successors(q.blocks, b))[i] == c.startEa;
    } else {
      assert EdgeCovered(w, b, c);
      TurnKeepsOtherEdges(e, q, w, w', b, c);
    }
  }

  /** One turn, whatever block it visits, keeps the invariant. */
  lemma TurnKeepsInvariant(e: Engine, q: Query, w: Work)
    requires GraphContract(q.blocks)
    requires w.worklist != [] && !w.exceeded && Invariant(e, q, w)
    requires !Turn(e, q, w).exceeded && !Turn(e, q, w).capped
    requires BlockAt(q.blocks, q.entryStart).Some?
    ensures Invariant(e, q, Turn(e, q, w))
  {
    var w', start := Turn(e, q, w), w.worklist[0];
    TurnKeepsSettled(e, q, w);
    TurnSkipsOrRedoes(e, q, w);
    if start == q.entryStart {
      EntryInIsAbove(e, q, w, BlockAt(q.blocks, start).value, w.Visits(start) + 1);
    } else {
      assert w.worklist == [start] + w.worklist[1..];
      assert q.entryStart in w.worklist ==> q.entryStart in w'.worklist;
    }
    forall b, c | b in q.blocks && b.startEa in w'.outs && c in Successors(q.blocks, b) && c.startEa != q.entryStart
      ensures EdgeCovered(w', b, c)
    {
      TurnKeepsEdges(e, q, w, w', b, c);
    }
  }

  lemma {:induction false} FlagsStay(e: Engine, q: Query, w: Work)
    ensures w.capped ==> Iterate(e, q, w).capped
    decreases VisitsLeft(e, q.blocks, w), |w.worklist|
  {
    if w.worklist != [] && !w.exceeded {
      TurnDecreases(e, q, w);
      FlagsStay(e, q, Turn(e, q, w));
    }
  }

  lemma {:induction false} IterateKeepsInvariant(e: Engine, q: Query, w: Work)
    requires GraphContract(q.blocks) && BlockAt(q.blocks, q.entryStart).Some?
    requires Invariant(e, q, w) && !w.exceeded
    requires !Iterate(e, q, w).exceeded && !Iterate(e, q, w).capped
    ensures Invariant(e, q, Iterate(e, q, w))
    decreases VisitsLeft(e, q.blocks, w), |w.worklist|
  {
    if w.worklist != [] {
      var next := Turn(e, q, w);
      TurnDecreases(e, q, w);
      if next.capped { FlagsStay(e, q, next); }
      TurnKeepsInvariant(e, q, w);
      IterateKeepsInvariant(e, q, next);
    }
  }

  /** A post-fixpoint: the entry and everything its edges lead to have been simulated;
    every out-state is the simulation of its in-state; every in-state is at or above the
    join of all the out-states of its predecessors, the entry's at or above the seed. */
  ghost predicate PostFixpoint(e: Engine, q: Query, w: Work) {
    && q.entryStart in w.ins && AtOrAbove(q.initial, w.ins[q.entryStart])
    && (forall start :: start in w.ins ==> Settled(e, q, w, start))
    && (forall b, c :: b in q.blocks && b.startEa in w.ins && c in Successors(q.blocks, b) ==> c.startEa in w.ins)
    && (forall c :: c in q.blocks && c.startEa in w.ins && c.startEa != q.entryStart ==>
          var available := Available(Predecessors(q.blocks, c), w.outs);
          available != [] ==> AtOrAbove(JoinStates(available), w.ins[c.startEa]))
  }

  /** Although visits joined whatever predecessors had been simulated so far and skipped
    states they had seen, the loop ends in a post-fixpoint. */
  lemma WorklistEndsInPostFixpoint(e: Engine, q: Query)
    requires GraphContract(q.blocks) && BlockAt(q.blocks, q.entryStart).Some?
    requires !Fixpoint(e, q).exceeded && !Fixpoint(e, q).capped
    ensures PostFixpoint(e, q, Fixpoint(e, q))
  {
    var w := Fixpoint(e, q);
    IterateKeepsInvariant(e, q, Begin(q));
    forall b, c | b in q.blocks && b.startEa in w.ins && c in Successors(q.blocks, b) ensures c.startEa in w.ins {
      assert c.startEa == q.entryStart || EdgeCovered(w, b, c);
    }
    forall c | c in q.blocks && c.startEa in w.ins && c.startEa != q.entryStart && Available(Predecessors(q.blocks, c), w.outs) != []
      ensures AtOrAbove(JoinStates(Available(Predecessors(q.blocks, c), w.outs)), w.ins[c.startEa])
    {
      var available := Available(Predecessors(q.blocks, c), w.outs);
      forall s | s in available ensures AtOrAbove(s, w.ins[c.startEa]) {
        var p :| p in Predecessors(q.blocks, c) && p.startEa in w.outs && w.outs[p.startEa] == s;
        assert c in Successors(q.blocks, p);
        assert EdgeCovered(w, p, c);
      }
      JoinIsBelow(available, w.ins[c.startEa]);
    }
  }
}
