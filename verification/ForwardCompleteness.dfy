/** What the forward engine is sure to answer: whatever every block on the way hands on. */
module ForwardCompleteness {
  import opened Values
  import opened Port
  import opened State
  import opened Machine
  import opened ForwardSpec
  import opened ForwardFixpoint
  import opened ForwardSoundness
  import opened ForwardPrecision
  import opened Widening
  import opened NoStaleBits

  // -- reachable blocks ---------------------------------------------------------------------------

  /** Some path from the entry leads to a block with that start. */
  ghost predicate Reachable(q: Query, start: int) {
    exists path: seq<Block> ::
      IsPath(q.blocks, path) && |path| > 0 && path[0].startEa == q.entryStart && path[|path| - 1].startEa == start
  }

  lemma SuccessorIsReachable(q: Query, b: Block, c: Block)
    requires GraphContract(q.blocks) && b in q.blocks && c in Successors(q.blocks, b) && Reachable(q, b.startEa)
    ensures Reachable(q, c.startEa)
  {
    hide Successors;
    var path: seq<Block> :|
      IsPath(q.blocks, path) && |path| > 0 && path[0].startEa == q.entryStart && path[|path| - 1].startEa == b.startEa;
    BlockIsListedOnce(q.blocks, b);
    BlockIsListedOnce(q.blocks, path[|path| - 1]);
    SuccessorIsListed(q.blocks, b, c);
    var longer := path + [c];
    forall i | 0 <= i < |longer| - 1 ensures longer[i + 1] in Successors(q.blocks, longer[i]) {
      if i < |path| - 1 { assert path[i + 1] in Successors(q.blocks, path[i]); }
    }
    assert IsPath(q.blocks, longer);
  }

  lemma SuccessorIsListed(blocks: seq<Block>, b: Block, c: Block)
    requires c in Successors(blocks, b)
    ensures c in blocks
  {}

  lemma {:induction false} PathIsSimulated(e: Engine, q: Query, path: seq<Block>, n: nat)
    requires GraphContract(q.blocks) && PostFixpoint(e, q, Fixpoint(e, q)) && IsPath(q.blocks, path)
    requires n < |path| && path[0].startEa == q.entryStart
    ensures path[n].startEa in Fixpoint(e, q).ins
  {
    hide Fixpoint, GraphContract, Successors, Settled, AtOrAbove, JoinStates, Available;
    if n > 0 {
      PathIsSimulated(e, q, path, n - 1);
      assert path[n - 1 + 1] in Successors(q.blocks, path[n - 1]);
    }
  }

  lemma ReachableIsSimulated(e: Engine, q: Query, start: int)
    requires GraphContract(q.blocks) && BlockAt(q.blocks, q.entryStart).Some? && Reachable(q, start)
    requires !Fixpoint(e, q).exceeded && !Fixpoint(e, q).capped
    ensures start in Fixpoint(e, q).ins
  {
    hide Fixpoint, GraphContract, Successors, PostFixpoint;
    WorklistEndsInPostFixpoint(e, q);
    var path: seq<Block> :|
      IsPath(q.blocks, path) && |path| > 0 && path[0].startEa == q.entryStart && path[|path| - 1].startEa == start;
    PathIsSimulated(e, q, path, |path| - 1);
  }

  // -- values that are handed on ---------------------------------------------------------------------

  type Wanted = map<Target, Value>

  ghost predicate Agrees(s: State, wanted: Wanted) { forall t :: t in wanted ==> Reading(s, t) == wanted[t] }

  /** What is wanted at the start of the blocks on the way.  The seed has what is wanted at the
    entry, and every reachable predecessor of a block on the way is on the way itself and
    turns what is wanted at its own start into what is wanted at the block's. */
  ghost predicate HandedOn(e: Engine, q: Query, wanted: map<int, Wanted>) {
    && (q.entryStart in wanted ==> Agrees(q.initial, wanted[q.entryStart]))
    && forall p, b :: p in q.blocks && b in q.blocks && p in Predecessors(q.blocks, b) ==> EdgeHandsOn(e, q, wanted, p, b)
  }

  ghost predicate EdgeHandsOn(e: Engine, q: Query, wanted: map<int, Wanted>, p: Block, b: Block) {
    b.startEa in wanted && b.startEa != q.entryStart && Reachable(q, p.startEa) ==>
      p.startEa in wanted && forall s :: Agrees(s, wanted[p.startEa]) ==> Agrees(OutOf(e, q, p, s).state, wanted[b.startEa])
  }

  /** Only reachable blocks are looked at, and what is stored has what is wanted. */
  ghost predicate Kept(q: Query, w: Work, wanted: map<int, Wanted>) {
    && (forall start :: start in w.worklist ==> Reachable(q, start))
    && (forall start :: start in w.ins ==> Reachable(q, start) && (start in wanted ==> Agrees(w.ins[start], wanted[start])))
  }

  lemma WideningKeepsAgreement(previous: State, next: State, wanted: Wanted)
    requires Agrees(previous, wanted) && Agrees(next, wanted)
    ensures Agrees(Widen(previous, next), wanted)
  {
    forall t | t in wanted ensures Reading(Widen(previous, next), t) == wanted[t] {
      assert Reading(previous, t) == wanted[t] && Reading(next, t) == wanted[t];
    }
  }

  lemma JoinedAgrees(e: Engine, q: Query, w: Work, wanted: map<int, Wanted>, b: Block)
    requires GraphContract(q.blocks) && HandedOn(e, q, wanted) && Invariant(e, q, w) && Kept(q, w, wanted)
    requires b in q.blocks && b.startEa in wanted && JoinPredecessors(q, b, w.outs).Some?
    ensures Agrees(JoinPredecessors(q, b, w.outs).value, wanted[b.startEa])
  {
    if b.startEa != q.entryStart {
      hide JoinStates, OutOf, Reachable, EdgeCovered, Predecessors, Successors, Reading;
      var preds := Predecessors(q.blocks, b);
      var available := Available(preds, w.outs);
      forall s | s in available ensures Agrees(s, wanted[b.startEa]) {
        var p :| p in preds && p.startEa in w.outs && w.outs[p.startEa] == s;
        PredecessorsAreListed(q.blocks, b);
        BlockIsListedOnce(q.blocks, p);
        assert Settled(e, q, w, p.startEa);
        assert EdgeHandsOn(e, q, wanted, p, b);
      }
      forall t | t in wanted[b.startEa] ensures Reading(JoinStates(available), t) == wanted[b.startEa][t] {
        JoinKeepsAgreement(available, t, wanted[b.startEa][t]);
      }
    }
  }

  lemma ComputedInAgrees(e: Engine, q: Query, w: Work, wanted: map<int, Wanted>, b: Block, visit: int)
    requires GraphContract(q.blocks) && HandedOn(e, q, wanted) && Invariant(e, q, w) && Kept(q, w, wanted)
    requires b in q.blocks && b.startEa in wanted && ComputedIn(e, q, w, b, visit).Some?
    ensures Agrees(ComputedIn(e, q, w, b, visit).value, wanted[b.startEa])
  {
    JoinIsThere(e, q, w, b, visit);
    hide GraphContract, HandedOn, Invariant, Agrees, JoinPredecessors, Widen, Reachable;
    JoinedAgrees(e, q, w, wanted, b);
    if b.startEa in w.ins { WideningKeepsAgreement(w.ins[b.startEa], JoinPredecessors(q, b, w.outs).value, wanted[b.startEa]); }
  }

  lemma TurnKeepsWhatIsWanted(e: Engine, q: Query, w: Work, w': Work, wanted: map<int, Wanted>)
    requires GraphContract(q.blocks) && HandedOn(e, q, wanted) && Invariant(e, q, w) && Kept(q, w, wanted)
    requires w.worklist != [] && (Skipped(e, q, w, w') || Redone(e, q, w, w'))
    ensures Kept(q, w', wanted)
  {
    hide GraphContract, HandedOn, Invariant, Agrees, ComputedIn, Successors, Reachable;
    var start := w.worklist[0];
    assert w.worklist == [start] + w.worklist[1..];
    if Redone(e, q, w, w') {
      var b := BlockAt(q.blocks, start).value;
      if start in wanted { ComputedInAgrees(e, q, w, wanted, b, w.Visits(start) + 1); }
      forall s | s in Starts(Successors(q.blocks, b)) ensures Reachable(q, s) {
        var i :| 0 <= i < |Starts(Successors(q.blocks, b))| && Starts(Successors(q.blocks, b))[i] == s;
        SuccessorIsReachable(q, b, Successors(q.blocks, b)[i]);
      }
    }
  }

  lemma {:induction false} IterateKeepsWhatIsWanted(e: Engine, q: Query, w: Work, wanted: map<int, Wanted>)
    requires GraphContract(q.blocks) && BlockAt(q.blocks, q.entryStart).Some? && HandedOn(e, q, wanted)
    requires Invariant(e, q, w) && Kept(q, w, wanted) && !w.exceeded
    requires !Iterate(e, q, w).exceeded && !Iterate(e, q, w).capped
    ensures Kept(q, Iterate(e, q, w), wanted)
    decreases VisitsLeft(e, q.blocks, w), |w.worklist|
  {
    hide Turn, Iterate, Invariant, Kept, HandedOn, GraphContract, Skipped, Redone;
    IterateTurns(e, q, w);
    if w.worklist != [] {
      TurnDecreases(e, q, w);
      TurnWasAllowed(e, q, w);
      TurnKeepsInvariant(e, q, w);
      TurnSkipsOrRedoes(e, q, w);
      TurnKeepsWhatIsWanted(e, q, w, Turn(e, q, w), wanted);
      IterateKeepsWhatIsWanted(e, q, Turn(e, q, w), wanted);
    }
  }

  /** Whatever is handed on to a block is stored at its start: neither merging nor widening nor
    the order of the visits loses it. */
  lemma WantedIsStored(e: Engine, q: Query, wanted: map<int, Wanted>, start: int)
    requires GraphContract(q.blocks) && BlockAt(q.blocks, q.entryStart).Some? && HandedOn(e, q, wanted)
    requires !Fixpoint(e, q).exceeded && !Fixpoint(e, q).capped && Reachable(q, start) && start in wanted
    ensures start in Fixpoint(e, q).ins && Agrees(Fixpoint(e, q).ins[start], wanted[start])
  {
    ReachableIsSimulated(e, q, start);
    BeginKeeps(e, q, wanted);
    hide GraphContract, HandedOn, Iterate, Agrees, Reachable, Invariant;
    IterateKeepsWhatIsWanted(e, q, Begin(q), wanted);
  }

  lemma BeginKeeps(e: Engine, q: Query, wanted: map<int, Wanted>)
    requires BlockAt(q.blocks, q.entryStart).Some?
    ensures Kept(q, Begin(q), wanted) && Invariant(e, q, Begin(q)) && !Begin(q).exceeded
  {
    var path := [BlockAt(q.blocks, q.entryStart).value];
    assert IsPath(q.blocks, path) && path[0].startEa == q.entryStart && path[|path| - 1].startEa == q.entryStart;
    assert Reachable(q, q.entryStart);
    hide Reachable, Successors, IsPath;
  }

  // -- the answer ----------------------------------------------------------------------------------

  /** The query of one argument register, with limits that no visit and no answer runs into. */
  ghost predicate Asked(e: Engine, func: int, argIndex: int, reg: int, targetEa: int, q: Query, target: Block) {
    var blocks := e.port.flowchart(func);
    var entry := BlockContaining(blocks, func);
    && entry.Some? && q == QueryFor(e, func, argIndex, reg, entry.value) && BlockContaining(blocks, targetEa) == Some(target)
    && DecodesInPlace(e.port) && GraphContract(blocks)
    && Enough(e, q) <= e.maxBlockVisits && Enough(e, q) * Longest(blocks) <= e.maxInstructions
  }

  lemma AskedIsDecided(e: Engine, func: int, argIndex: int, reg: int, targetEa: int, q: Query, target: Block)
    requires Asked(e, func, argIndex, reg, targetEa, q, target)
    ensures GraphContract(q.blocks) && BlockAt(q.blocks, q.entryStart).Some? && target in q.blocks
    ensures !Fixpoint(e, q).exceeded && !Fixpoint(e, q).capped
    ensures forall s :: !Simulate(e, target.startEa, target.endEa, Some(targetEa), q.func, s, 0).exceeded
  {
    hide Enough, Longest, DecodesInPlace, Fixpoint, Simulate, GraphContract;
    LargeLimitsSuffice(e, q);
  }

  /** If all states that have what is wanted at the start of the target's block come to hold one
    value before the target, that value is answered. */
  lemma WantedIsAnswered(e: Engine, func: int, argIndex: int, reg: int, targetEa: int, q: Query, target: Block,
                         wanted: map<int, Wanted>, v: Value)
    requires Asked(e, func, argIndex, reg, targetEa, q, target) && Reachable(q, target.startEa)
    requires HandedOn(e, q, wanted) && target.startEa in wanted
    requires forall s :: Agrees(s, wanted[target.startEa]) ==>
      Simulate(e, target.startEa, target.endEa, Some(targetEa), func, s, 0).state.Register(reg) == v
    ensures ResolveAt(e, func, argIndex, targetEa, Some(reg)) == v
  {
    AskedIsDecided(e, func, argIndex, reg, targetEa, q, target);
    hide GraphContract, BlockAt, Fixpoint, Reachable, HandedOn, Simulate, Agrees, Enough, Longest, DecodesInPlace, BlockContaining;
    WantedIsStored(e, q, wanted, target.startEa);
  }

  /** A target in a block that no path from the entry leads to has no answer. */
  lemma UnreachableIsNotAnswered(e: Engine, func: int, argIndex: int, reg: int, targetEa: int, q: Query, target: Block)
    requires Asked(e, func, argIndex, reg, targetEa, q, target) && !Reachable(q, target.startEa)
    ensures ResolveAt(e, func, argIndex, targetEa, Some(reg)) == Unk(NO_DEFINITION_FOUND)
  {
    AskedIsDecided(e, func, argIndex, reg, targetEa, q, target);
    BeginKeeps(e, q, map[]);
    hide GraphContract, BlockAt, Iterate, Reachable, Simulate, Enough, Longest, DecodesInPlace, BlockContaining, Invariant, EdgeHandsOn;
    IterateKeepsWhatIsWanted(e, q, Begin(q), map[]);
  }

  // -- a register that is left alone -------------------------------------------------------------------

  /** No instruction in [lo, hi) writes the register or a part of it, or clobbers it as a call. */
  ghost predicate LeftAlone(port: IdaPort, lo: int, hi: int, reg: int) {
    forall ea :: lo <= ea < hi && port.decodeAt(ea).Some? ==>
      Flagged(port.decodeAt(ea).value) && !Touches(port, port.decodeAt(ea).value, reg)
  }

  lemma {:induction false} SimulationLeavesAlone(e: Engine, ea: int, end: int, stop: Option<int>, func: int, s: State, used: int, reg: int)
    requires LayoutContract(e.port) && DecodesInPlace(e.port) && Whole(e.port, reg)
    requires LeftAlone(e.port, ea, if stop.Some? && stop.value < end then stop.value else end, reg)
    ensures Simulate(e, ea, end, stop, func, s, used).state.Register(reg) == s.Register(reg)
    decreases e.maxInstructions - used, end - ea
  {
    hide LayoutContract, Step, Flagged, Touches, Whole;
    if ea < end && !(stop.Some? && ea >= stop.value) {
      match e.port.decodeAt(ea)
      case None => SimulationLeavesAlone(e, ea + 1, end, stop, func, s, used, reg);
      case Some(instr) =>
        if used + 1 <= e.maxInstructions {
          assert instr.NextEa() > ea;
          StepKeepsUntouched(e, func, instr, s, reg);
          SimulationLeavesAlone(e, instr.NextEa(), end, stop, func, Step(e, instr, func, s), used + 1, reg);
        }
    }
  }

  /** A path that does not come back to the entry leads from the block to the target. */
  ghost predicate LeadsTo(q: Query, b: Block, target: Block) {
    exists path: seq<Block> :: PathTo(q, path, b, target)
  }

  ghost predicate PathTo(q: Query, path: seq<Block>, b: Block, target: Block) {
    && IsPath(q.blocks, path) && |path| > 0 && path[0] == b && path[|path| - 1] == target
    && forall i :: 0 < i < |path| ==> path[i].startEa != q.entryStart
  }

  /** The block follows the entry and leads to the target by at least one edge. */
  ghost predicate OnTheWay(q: Query, b: Block, target: Block) {
    && b in q.blocks && Reachable(q, b.startEa)
    && exists path: seq<Block> :: PathTo(q, path, b, target) && |path| > 1
  }

  lemma PredecessorIsOnTheWay(q: Query, p: Block, b: Block, target: Block)
    requires GraphContract(q.blocks) && p in q.blocks && b in q.blocks && p in Predecessors(q.blocks, b)
    requires b.startEa != q.entryStart && LeadsTo(q, b, target) && Reachable(q, p.startEa)
    ensures LeadsTo(q, p, target) && OnTheWay(q, p, target)
  {
    hide Predecessors, Successors, Reachable;
    var path: seq<Block> :| PathTo(q, path, b, target);
    var longer := [p] + path;
    forall i | 0 <= i < |longer| - 1 ensures longer[i + 1] in Successors(q.blocks, longer[i]) {
      if i > 0 { assert path[i - 1 + 1] in Successors(q.blocks, path[i - 1]); }
    }
    assert PathTo(q, longer, p, target);
  }

  /** The argument wanted in its register at every block that leads to the target. */
  ghost function WantedOnTheWay(q: Query, target: Block, wanted: Wanted): map<int, Wanted> {
    map b | b in q.blocks && LeadsTo(q, b, target) :: b.startEa := wanted
  }

  lemma LeadsByItsStart(q: Query, target: Block, wanted: Wanted, b: Block)
    requires GraphContract(q.blocks) && b in q.blocks
    ensures b.startEa in WantedOnTheWay(q, target, wanted) <==> LeadsTo(q, b, target)
    ensures forall start :: start in WantedOnTheWay(q, target, wanted) ==> WantedOnTheWay(q, target, wanted)[start] == wanted
  {
    hide LeadsTo;
    forall c | c in q.blocks && c.startEa == b.startEa ensures c == b {
      BlockIsListedOnce(q.blocks, b);
      BlockIsListedOnce(q.blocks, c);
    }
  }

  lemma LeftAloneIsHandedOn(e: Engine, q: Query, target: Block, reg: int, v: Value)
    requires LayoutContract(e.port) && DecodesInPlace(e.port) && Whole(e.port, reg) && GraphContract(q.blocks)
    requires q.initial.Register(reg) == v
    requires forall b :: OnTheWay(q, b, target) ==> LeftAlone(e.port, b.startEa, b.endEa, reg)
    ensures HandedOn(e, q, WantedOnTheWay(q, target, map[Register(reg) := v]))
  {
    hide LayoutContract, DecodesInPlace, GraphContract, Predecessors, OnTheWay, LeadsTo, LeftAlone, Reachable, Simulate, Whole;
    var only: Wanted := map[Register(reg) := v];
    var wanted := WantedOnTheWay(q, target, only);
    forall p, b | p in q.blocks && b in q.blocks && p in Predecessors(q.blocks, b) ensures EdgeHandsOn(e, q, wanted, p, b) {
      LeadsByItsStart(q, target, only, b);
      LeadsByItsStart(q, target, only, p);
      if b.startEa in wanted && b.startEa != q.entryStart && Reachable(q, p.startEa) {
        PredecessorIsOnTheWay(q, p, b, target);
        forall s | Agrees(s, only) ensures Agrees(OutOf(e, q, p, s).state, only) {
          assert Reading(s, Register(reg)) == v;
          SimulationLeavesAlone(e, p.startEa, p.endEa, None, q.func, s, 0, reg);
        }
      }
    }
  }

  /** An argument register that is left alone by the blocks on the way from the entry, and by the
    target's own block up to the target, is answered with its argument: whatever branches,
    merges and loops there are on the way, and whatever is written elsewhere. */
  lemma ArgumentIsAnswered(e: Engine, func: int, argIndex: int, reg: int, targetEa: int, q: Query, target: Block)
    requires Asked(e, func, argIndex, reg, targetEa, q, target) && Reachable(q, target.startEa)
    requires LayoutContract(e.port) && Whole(e.port, reg)
    requires forall b :: OnTheWay(q, b, target) ==> LeftAlone(e.port, b.startEa, b.endEa, reg)
    requires LeftAlone(e.port, target.startEa, targetEa, reg)
    ensures ResolveAt(e, func, argIndex, targetEa, Some(reg)) == Symbolic(Arg(argIndex))
  {
    var v, only := Symbolic(Arg(argIndex)), map[Register(reg) := Symbolic(Arg(argIndex))];
    AskedIsDecided(e, func, argIndex, reg, targetEa, q, target);
    AskedHolds(e, func, argIndex, reg, targetEa, q, target);
    hide Asked, Reachable, LayoutContract, DecodesInPlace, GraphContract, OnTheWay, LeftAlone, HandedOn, Simulate, ResolveAt, Whole,
         BlockAt, LeadsTo, WantedOnTheWay, Agrees;
    LeftAloneIsHandedOn(e, q, target, reg, v);
    LeadsByItsStart(q, target, only, target);
    TargetLeadsToItself(q, target);
    TargetIsReachedWithIt(e, target, targetEa, func, reg, v);
    WantedIsAnswered(e, func, argIndex, reg, targetEa, q, target, WantedOnTheWay(q, target, only), v);
  }

  lemma TargetIsReachedWithIt(e: Engine, target: Block, targetEa: int, func: int, reg: int, v: Value)
    requires LayoutContract(e.port) && DecodesInPlace(e.port) && Whole(e.port, reg) && targetEa < target.endEa
    requires LeftAlone(e.port, target.startEa, targetEa, reg)
    ensures forall s :: Agrees(s, map[Register(reg) := v]) ==>
      Simulate(e, target.startEa, target.endEa, Some(targetEa), func, s, 0).state.Register(reg) == v
  {
    hide LayoutContract, DecodesInPlace, LeftAlone, Simulate, Whole;
    forall s | Agrees(s, map[Register(reg) := v])
      ensures Simulate(e, target.startEa, target.endEa, Some(targetEa), func, s, 0).state.Register(reg) == v
    {
      assert Reading(s, Register(reg)) == v;
      SimulationLeavesAlone(e, target.startEa, target.endEa, Some(targetEa), func, s, 0, reg);
    }
  }

  lemma AskedHolds(e: Engine, func: int, argIndex: int, reg: int, targetEa: int, q: Query, target: Block)
    requires Asked(e, func, argIndex, reg, targetEa, q, target)
    ensures DecodesInPlace(e.port) && GraphContract(q.blocks) && target in q.blocks && targetEa < target.endEa
    ensures q.initial.Register(reg) == Symbolic(Arg(argIndex))
  {
    hide DecodesInPlace, GraphContract, Enough, Longest;
  }

  lemma TargetLeadsToItself(q: Query, target: Block)
    requires target in q.blocks
    ensures LeadsTo(q, target, target)
  {
    assert PathTo(q, [target], target, target);
  }
}
