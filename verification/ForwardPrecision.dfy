/** What the worklist does not lose.  A merge gives up nothing on which its predecessors agree,
  the loop gives up nothing but what it widens, and a value that every block hands on is
  the answer. */
module ForwardPrecision {
  import opened Values
  import opened Port
  import opened State
  import opened Merge
  import opened Machine
  import opened ForwardSpec
  import opened ForwardFixpoint

  function Reading(s: State, t: Target): Value {
    match t
    case Register(reg) => s.Register(reg)
    case Memory(cell) => s.Slot(cell)
  }

  // -- merging ---------------------------------------------------------------------------------

  /** What is joined before a visit is at or above the out-state of every predecessor simulated
    so far, and at or below whatever else is; there is none only before any was. */
  lemma PredecessorsAreJoinedExactly(q: Query, block: Block, outs: map<int, State>)
    requires block.startEa != q.entryStart
    ensures var joined, preds := JoinPredecessors(q, block, outs), Predecessors(q.blocks, block);
      && (joined.Some? <==> exists p :: p in preds && p.startEa in outs)
      && (joined.Some? ==>
            && (forall p :: p in preds && p.startEa in outs ==> AtOrAbove(outs[p.startEa], joined.value))
            && (forall above :: (forall p :: p in preds && p.startEa in outs ==> AtOrAbove(outs[p.startEa], above)) ==>
                  AtOrAbove(joined.value, above)))
  {
    hide AtOrAbove, JoinStates, Predecessors;
    var preds := Predecessors(q.blocks, block);
    var available := Available(preds, outs);
    assert available != [] ==> available[0] in available;
    if available != [] {
      forall p | p in preds && p.startEa in outs ensures AtOrAbove(outs[p.startEa], JoinStates(available)) {
        JoinIsAbove(available, outs[p.startEa]);
      }
      forall above | forall p :: p in preds && p.startEa in outs ==> AtOrAbove(outs[p.startEa], above)
        ensures AtOrAbove(JoinStates(available), above)
      {
        JoinIsBelow(available, above);
      }
    }
  }

  /** What all the states joined hold, their join holds. */
  lemma JoinKeepsAgreement(states: seq<State>, t: Target, v: Value)
    requires states != [] && forall s :: s in states ==> Reading(s, t) == v
    ensures Reading(JoinStates(states), t) == v
  {
    assert forall i :: 0 <= i < |states| ==> states[i] in states;
    assert Reading(states[0], t) == v;
    match t {
      case Register(r) => JoinOfEquals(RegistersOf(states, r), v);
      case Memory(c) => JoinOfEquals(SlotsOf(states, c), v);
    }
  }

  // -- the loop is exact but for widening ---------------------------------------------------------

  /** The in-state is the join of the predecessors' out-states, location by location, but for
    what was widened, in a block that was visited often enough for that. */
  ghost predicate Exactly(e: Engine, q: Query, w: Work, block: Block)
    requires block.startEa in w.ins
  {
    var joined, input := JoinPredecessors(q, block, w.outs), w.ins[block.startEa];
    joined.Some? && forall t :: Reading(input, t) == Reading(joined.value, t) || WidenedAt(e, w.Visits(block.startEa), input, t)
  }

  predicate WidenedAt(e: Engine, visits: int, s: State, t: Target) { visits > e.loopWidenAfter && Reading(s, t) == WIDENED }

  ghost predicate ExactOrQueued(e: Engine, q: Query, w: Work) {
    forall b :: b in q.blocks && b.startEa in w.ins && b.startEa != q.entryStart ==>
      JoinPredecessors(q, b, w.outs).Some? && (b.startEa in w.worklist || Exactly(e, q, w, b))
  }

  lemma ComputedInIsExact(e: Engine, q: Query, w: Work, block: Block, visit: int, t: Target)
    requires ComputedIn(e, q, w, block, visit).Some?
    ensures JoinPredecessors(q, block, w.outs).Some?
    ensures var input := ComputedIn(e, q, w, block, visit).value;
      Reading(input, t) == Reading(JoinPredecessors(q, block, w.outs).value, t) || WidenedAt(e, visit, input, t)
  {
    hide JoinPredecessors;
  }

  /** A block that does not follow the one simulated joins what it joined before. */
  lemma {:induction false} OtherOutsAreAvailable(preds: seq<Block>, outs: map<int, State>, start: int, out: State)
    requires forall p :: p in preds ==> p.startEa != start
    ensures Available(preds, outs[start := out]) == Available(preds, outs)
  {
    if preds != [] {
      assert preds[|preds| - 1] in preds;
      assert forall p :: p in preds[..|preds| - 1] ==> p in preds;
      OtherOutsAreAvailable(preds[..|preds| - 1], outs, start, out);
    }
  }

  lemma MoreOutsAreAvailable(q: Query, block: Block, outs: map<int, State>, start: int, out: State)
    requires JoinPredecessors(q, block, outs).Some?
    ensures JoinPredecessors(q, block, outs[start := out]).Some?
  {
    hide Predecessors, JoinStates;
    var preds := Predecessors(q.blocks, block);
    assert Available(preds, outs) != [] ==> Available(preds, outs)[0] in Available(preds, outs);
  }

  lemma BlockIsListedOnce(blocks: seq<Block>, b: Block)
    requires GraphContract(blocks) && b in blocks
    ensures BlockAt(blocks, b.startEa) == Some(b)
  {
    BlockIsFoundByItsStart(blocks, b);
  }

  /** A block is queued again whenever the turn changed what it joins. */
  lemma TurnKeepsTheJoin(e: Engine, q: Query, w: Work, w': Work, b: Block)
    requires GraphContract(q.blocks) && w.worklist != [] && (Skipped(e, q, w, w') || Redone(e, q, w, w'))
    requires b in q.blocks && b.startEa != q.entryStart && JoinPredecessors(q, b, w.outs).Some?
    ensures JoinPredecessors(q, b, w'.outs).Some?
    ensures b.startEa in w'.worklist || JoinPredecessors(q, b, w'.outs) == JoinPredecessors(q, b, w.outs)
  {
    hide ComputedIn, JoinStates, Successors, Predecessors;
    var start, preds := w.worklist[0], Predecessors(q.blocks, b);
    if Redone(e, q, w, w') {
      var out := w'.outs[start];
      MoreOutsAreAvailable(q, b, w.outs, start, out);
      if p :| p in preds && p.startEa == start {
        BlockIsListedOnce(q.blocks, b);
        BlockIsListedOnce(q.blocks, p) by { assert p in q.blocks by { PredecessorsAreListed(q.blocks, b); } }
        QueuedAsSuccessor(q, p, b);
      } else {
        OtherOutsAreAvailable(preds, w.outs, start, out);
      }
    }
  }

  lemma QueuedAsSuccessor(q: Query, p: Block, b: Block)
    requires GraphContract(q.blocks) && p in q.blocks && b in q.blocks && p in Predecessors(q.blocks, b)
    ensures b.startEa in Starts(Successors(q.blocks, p))
  {
    hide Predecessors;
    var next := Successors(q.blocks, p);
    var i :| 0 <= i < |next| && next[i] == b;
    assert Starts(next)[i] == b.startEa;
  }

  /** The turn counted the visit. */
  ghost predicate Counted(w: Work, w': Work)
    requires w.worklist != []
  {
    var start := w.worklist[0]; w'.visits == w.visits[start := w.Visits(start) + 1]
  }

  lemma TurnKeepsExactness(e: Engine, q: Query, w: Work, w': Work, b: Block)
    requires GraphContract(q.blocks) && w.worklist != [] && ExactOrQueued(e, q, w)
    requires (Skipped(e, q, w, w') || Redone(e, q, w, w')) && (BlockAt(q.blocks, w.worklist[0]).Some? ==> Counted(w, w'))
    requires BlockAt(q.blocks, w.worklist[0]).None? ==> w'.visits == w.visits
    requires b in q.blocks && b.startEa in w'.ins && b.startEa != q.entryStart
    ensures JoinPredecessors(q, b, w'.outs).Some? && (b.startEa in w'.worklist || Exactly(e, q, w', b))
  {
    hide ComputedIn, Successors, JoinPredecessors, GraphContract, Reading;
    var start := w.worklist[0];
    assert w.worklist == [start] + w.worklist[1..];
    BlockIsListedOnce(q.blocks, b);
    var input := ComputedIn(e, q, w, b, w.Visits(start) + 1);
    JoinIsThere(e, q, w, b, w.Visits(start) + 1);
    if b.startEa == start && input.Some? {
      forall t ensures Reading(input.value, t) == Reading(JoinPredecessors(q, b, w.outs).value, t)
                    || WidenedAt(e, w.Visits(start) + 1, input.value, t) {
        ComputedInIsExact(e, q, w, b, w.Visits(start) + 1, t);
      }
    }
    TurnKeepsTheJoin(e, q, w, w', b);
  }

  lemma JoinIsThere(e: Engine, q: Query, w: Work, block: Block, visit: int)
    ensures ComputedIn(e, q, w, block, visit).Some? <==> JoinPredecessors(q, block, w.outs).Some?
  {
    hide JoinPredecessors;
  }

  lemma {:induction false} IterateIsExact(e: Engine, q: Query, w: Work)
    requires GraphContract(q.blocks) && BlockAt(q.blocks, q.entryStart).Some?
    requires Invariant(e, q, w) && ExactOrQueued(e, q, w) && !w.exceeded
    requires !Iterate(e, q, w).exceeded && !Iterate(e, q, w).capped
    ensures ExactOrQueued(e, q, Iterate(e, q, w))
    decreases VisitsLeft(e, q.blocks, w), |w.worklist|
  {
    hide Turn, Iterate, Invariant, Exactly, JoinPredecessors, Skipped, Redone;
    IterateTurns(e, q, w);
    if w.worklist != [] {
      var next := Turn(e, q, w);
      TurnDecreases(e, q, w);
      TurnWasAllowed(e, q, w);
      TurnKeepsInvariant(e, q, w);
      TurnSkipsOrRedoes(e, q, w);
      TurnCounts(e, q, w);
      forall b | b in q.blocks && b.startEa in next.ins && b.startEa != q.entryStart
        ensures JoinPredecessors(q, b, next.outs).Some? && (b.startEa in next.worklist || Exactly(e, q, next, b))
      {
        TurnKeepsExactness(e, q, w, next, b);
      }
      IterateIsExact(e, q, next);
    }
  }

  lemma TurnWasAllowed(e: Engine, q: Query, w: Work)
    requires w.worklist != [] && !w.exceeded && !Iterate(e, q, w).exceeded && !Iterate(e, q, w).capped
    ensures !Turn(e, q, w).exceeded && !Turn(e, q, w).capped
  {
    hide Turn, Iterate;
    IterateTurns(e, q, w);
    IterateTurns(e, q, Turn(e, q, w));
    FlagsStay(e, q, Turn(e, q, w));
  }

  /** Where the loop ends, every stored in-state but the entry's is the join of the out-states
    of the predecessors, location by location, but for what was widened, in a
    block that was visited more often than widening waits for. */
  lemma FixpointIsExact(e: Engine, q: Query, block: Block)
    requires GraphContract(q.blocks) && BlockAt(q.blocks, q.entryStart).Some?
    requires !Fixpoint(e, q).exceeded && !Fixpoint(e, q).capped
    requires block in q.blocks && block.startEa in Fixpoint(e, q).ins && block.startEa != q.entryStart
    ensures Exactly(e, q, Fixpoint(e, q), block)
  {
    IterateIsExact(e, q, Begin(q));
    hide GraphContract, Iterate, JoinPredecessors, Exactly;
  }

  lemma SimulatedAreAvailable(preds: seq<Block>, outs: map<int, State>, t: Target, v: Value)
    requires forall p :: p in preds && p.startEa in outs ==> Reading(outs[p.startEa], t) == v
    ensures forall s :: s in Available(preds, outs) ==> Reading(s, t) == v
  {
    hide Reading;
  }

  /** What the out-states of all the simulated predecessors agree on, the stored in-state holds,
    unless it was widened there, in a block visited more often than widening waits for. */
  lemma AgreedValueIsStored(e: Engine, q: Query, block: Block, t: Target, v: Value)
    requires GraphContract(q.blocks) && BlockAt(q.blocks, q.entryStart).Some?
    requires !Fixpoint(e, q).exceeded && !Fixpoint(e, q).capped
    requires block in q.blocks && block.startEa in Fixpoint(e, q).ins && block.startEa != q.entryStart
    requires var outs := Fixpoint(e, q).outs;
      forall p :: p in Predecessors(q.blocks, block) && p.startEa in outs ==> Reading(outs[p.startEa], t) == v
    ensures var w := Fixpoint(e, q);
      Reading(w.ins[block.startEa], t) == v || WidenedAt(e, w.Visits(block.startEa), w.ins[block.startEa], t)
  {
    hide GraphContract, Fixpoint, BlockAt, Reading, Predecessors, JoinStates;
    FixpointIsExact(e, q, block);
    var w, preds := Fixpoint(e, q), Predecessors(q.blocks, block);
    SimulatedAreAvailable(preds, w.outs, t, v);
    JoinKeepsAgreement(Available(preds, w.outs), t, v);
  }
}
