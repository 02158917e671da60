/** Which definitions a backward walk stops at.

  `Leaves` follows the walk's own recursion: a set of blocks already on the path, and
  nothing where the path closes a cycle.  `Reaches` is the independent notion: a path of
  any length through the graph, around loops any number of times, from the use back to a
  last definition or to the entry.  The two name the same definitions. */
module ReachingDefs {
  import opened Values
  import opened Port
  import opened State
  import opened Merge
  import opened BackwardSpec
  import opened BackwardBudget

  datatype Flow = Flow(port: IdaPort, target: Target, func: int, blocks: seq<Block>)

  datatype Leaf = Def(ea: int) | Entry

  predicate IsDef(f: Flow, ea: int) {
    var instr := f.port.decodeAt(ea);
    instr.Some? && Decide(f.port, f.target, instr.value, f.func) != Skip
  }

  /** The last definition in [lo, hi). */
  function LastDef(f: Flow, lo: int, hi: int): (r: Option<int>)
    ensures r.Some? ==> lo <= r.value < hi && IsDef(f, r.value)
    ensures forall ea :: (if r.Some? then r.value < ea else lo <= ea) && ea < hi ==> !IsDef(f, ea)
    decreases hi - lo
  {
    if hi <= lo then None
    else if IsDef(f, hi - 1) then Some(hi - 1)
    else LastDef(f, lo, hi - 1)
  }

  ghost predicate UniqueStarts(blocks: seq<Block>) {
    forall a, b :: a in blocks && b in blocks && a.startEa == b.startEa ==> a == b
  }

  function StartSet(blocks: seq<Block>): set<int> { set b | b in blocks :: b.startEa }

  function Unvisited(blocks: seq<Block>, visited: set<int>): nat { |StartSet(blocks) - visited| }

  lemma VisitingShrinks(blocks: seq<Block>, visited: set<int>, block: Block)
    requires block in blocks && block.startEa !in visited
    ensures Unvisited(blocks, visited + {block.startEa}) < Unvisited(blocks, visited)
  {
    var before, after := StartSet(blocks) - visited, StartSet(blocks) - (visited + {block.startEa});
    assert block.startEa in before && before == after + {block.startEa};
  }

  // -- the walk's own leaves ------------------------------------------------------------

  function Leaves(f: Flow, boundary: int, block: Block, visited: set<int>): set<Leaf>
    requires block in f.blocks
    decreases Unvisited(f.blocks, visited), 0
  {
    var def, preds := LastDef(f, block.startEa, boundary), Predecessors(f.blocks, block);
    if def.Some? then {Def(def.value)}
    else if block.startEa in visited then {}
    else if preds == [] then {Entry}
    else
      VisitingShrinks(f.blocks, visited, block);
      LeavesOfAll(f, preds, visited + {block.startEa})
  }

  function LeavesOfAll(f: Flow, preds: seq<Block>, visited: set<int>): (r: set<Leaf>)
    requires forall p :: p in preds ==> p in f.blocks
    ensures forall p :: p in preds ==> Leaves(f, p.endEa, p, visited) <= r
    ensures forall leaf :: leaf in r ==> exists p :: p in preds && leaf in Leaves(f, p.endEa, p, visited)
    decreases Unvisited(f.blocks, visited), 1, |preds|
  {
    if preds == [] then {}
    else
      var front, last := preds[..|preds| - 1], preds[|preds| - 1];
      assert forall p :: p in preds <==> p == last || p in front;
      LeavesOfAll(f, front, visited) + Leaves(f, last.endEa, last, visited)
  }

  // -- paths -------------------------------------------------------------------------------

  /** A path backward from the boundary in its first block: every block but the last is
    free of definitions, and the last holds the leaf. */
  ghost predicate Reaches(f: Flow, boundary: int, path: seq<Block>, leaf: Leaf)
    decreases |path|
  {
    |path| > 0 && path[0] in f.blocks &&
    match LastDef(f, path[0].startEa, boundary)
    case Some(ea) => |path| == 1 && leaf == Def(ea)
    case None =>
      if |path| == 1 then Predecessors(f.blocks, path[0]) == [] && leaf == Entry
      else path[1] in Predecessors(f.blocks, path[0]) && Reaches(f, path[1].endEa, path[1..], leaf)
  }

  lemma {:induction false} LeafHasPath(f: Flow, boundary: int, block: Block, visited: set<int>, leaf: Leaf) returns (path: seq<Block>)
    requires block in f.blocks && leaf in Leaves(f, boundary, block, visited)
    ensures Reaches(f, boundary, path, leaf) && path[0] == block
    decreases Unvisited(f.blocks, visited)
  {
    path := [block];
    if LastDef(f, block.startEa, boundary).None? && Predecessors(f.blocks, block) != [] {
      var preds, next := Predecessors(f.blocks, block), visited + {block.startEa};
      VisitingShrinks(f.blocks, visited, block);
      var p :| p in preds && leaf in Leaves(f, p.endEa, p, next);
      var rest := LeafHasPath(f, p.endEa, p, next, leaf);
      path := [block] + rest;
      assert path[1..] == rest;
    }
  }

  /** Any later block of a path starts a path of its own to the same leaf. */
  lemma {:induction false} SuffixReaches(f: Flow, boundary: int, path: seq<Block>, leaf: Leaf, k: nat)
    requires Reaches(f, boundary, path, leaf) && k < |path|
    ensures path[k] in f.blocks
    ensures k > 0 ==> path[k] in Predecessors(f.blocks, path[k - 1]) && Reaches(f, path[k].endEa, path[k..], leaf)
    decreases k
  {
    if k > 1 {
      SuffixReaches(f, path[1].endEa, path[1..], leaf, k - 1);
      assert path[1..][k - 1..] == path[k..];
    }
  }

  /** The last block but the leaf's own that starts where the path does. */
  lemma LastVisit(path: seq<Block>) returns (j: nat)
    requires |path| > 1
    ensures j < |path| - 1 && path[j].startEa == path[0].startEa
    ensures forall i :: j < i < |path| - 1 ==> path[i].startEa != path[0].startEa
  {
    j := |path| - 2;
    while path[j].startEa != path[0].startEa
      invariant 0 <= j < |path| - 1
      invariant forall i :: j < i < |path| - 1 ==> path[i].startEa != path[0].startEa
      decreases j
    {
      j := j - 1;
    }
  }

  /** A path through blocks other than those already visited leads the walk to its leaf.
    Where the path comes back to the block it leaves, the loop is cut out of it. */
  lemma {:induction false} PathReachesLeaf(f: Flow, boundary: int, path: seq<Block>, leaf: Leaf, visited: set<int>)
    requires UniqueStarts(f.blocks) && Reaches(f, boundary, path, leaf)
    requires forall i :: 0 <= i < |path| - 1 ==> path[i].startEa !in visited
    requires forall b :: b in f.blocks && b.startEa in visited ==> Predecessors(f.blocks, b) != []
    ensures leaf in Leaves(f, boundary, path[0], visited)
    decreases |path|
  {
    hide LastDef, IsDef;
    if |path| > 1 {
      var start := path[0].startEa;
      var j := LastVisit(path);
      SuffixReaches(f, boundary, path, leaf, j);
      SuffixReaches(f, boundary, path, leaf, j + 1);
      assert path[j] == path[0];
      var suffix := path[j + 1..];
      assert forall i :: 0 <= i < |suffix| - 1 ==> suffix[i] == path[j + 1 + i];
      PathReachesLeaf(f, path[j + 1].endEa, suffix, leaf, visited + {start});
    }
  }

  /** Dropping the paths that close a cycle loses nothing: the walk stops at exactly the
    last definitions, and the entry, that some path of any length leads back to. */
  lemma CycleDroppingLosesNothing(f: Flow, boundary: int, block: Block, leaf: Leaf)
    requires UniqueStarts(f.blocks) && block in f.blocks
    ensures leaf in Leaves(f, boundary, block, {}) <==>
      exists path: seq<Block> :: Reaches(f, boundary, path, leaf) && path[0] == block
  {
    if leaf in Leaves(f, boundary, block, {}) {
      var path := LeafHasPath(f, boundary, block, {}, leaf);
    }
    if path: seq<Block> :| Reaches(f, boundary, path, leaf) && path[0] == block {
      PathReachesLeaf(f, boundary, path, leaf, {});
    }
  }

  // -- the budgeted walk and its leaves ------------------------------------------------------

  /** What interpreting the definition at `ea` answers, and the budget it leaves. */
  function DefValue(r: Resolver, f: Flow, ea: int, b: Budget): (Value, Budget)
    requires IsDef(f, ea)
  {
    var instr := f.port.decodeAt(ea).value;
    match Decide(f.port, f.target, instr, f.func)
    case Settle(v) => (v, b)
    case Define(operand) => Interpret(r, instr, operand, b)
  }

  lemma {:induction false} LastDefSkips(f: Flow, lo: int, mid: int, hi: int)
    requires lo <= mid <= hi && forall ea :: mid <= ea < hi ==> !IsDef(f, ea)
    ensures LastDef(f, lo, hi) == LastDef(f, lo, mid)
    decreases hi - mid
  {
    if mid < hi { LastDefSkips(f, lo, mid, hi - 1); }
  }

  ghost predicate HeadsDecode(port: IdaPort) { forall ea :: port.decodeAt(ea).Some? ==> port.isHead(ea) }

  ghost predicate ScanStops(r: Resolver, f: Flow, def: Option<int>, b: Budget, v: Option<Value>, b': Budget) {
    || (v == Some(Unk(BUDGET_EXCEEDED)) && !Granted(b, b'))
    || (def.None? && v.None?)
    || (def.Some? && v.Some? && IsDef(f, def.value) &&
          exists at: Budget :: at.Left() < b.Left() && Advances(b, at) && DefValue(r, f, def.value, at) == (v.value, b'))
  }

  /** Within a block the scan stops at the last definition, or when a step is refused. */
  lemma {:induction false} ScanStopsAtLastDef(r: Resolver, f: Flow, hi: int, lo: int, b: Budget)
    requires f.port == r.port && HeadsDecode(r.port)
    ensures var (v, b') := Scan(r, f.target, r.port.PrevHead(hi, lo), lo, f.func, b);
      ScanStops(r, f, LastDef(f, lo, hi), b, v, b')
    decreases b.Left()
  {
    var ea := r.port.PrevHead(hi, lo);
    if ea.None? {
      assert LastDef(f, lo, hi).None?;
    } else if b.Step().StepsLast() {
      var b1 := b.Step().Touch();
      LastDefSkips(f, lo, ea.value + 1, hi);
      if IsDef(f, ea.value) {
        var (v, b') := Scan(r, f.target, ea, lo, f.func, b);
        assert DefValue(r, f, ea.value, b1) == (v.value, b');
      } else {
        ScanStopsAtLastDef(r, f, ea.value, lo, b1);
      }
    }
  }

  /** The outcome takes the leaf into account: an entry is never joined into a known
    answer, and a known answer is above what the definition was interpreted to. */
  ghost predicate Accounts(r: Resolver, f: Flow, leaf: Leaf, o: Outcome, b: Budget) {
    o != Cycle &&
    match leaf
    case Entry => o.Found? ==> !o.value.IsKnown()
    case Def(ea) =>
      && o.Found? && IsDef(f, ea)
      && (o.value.IsKnown() ==>
            exists at: Budget :: at.Left() < b.Left() && Below(DefValue(r, f, ea, at).0, o.value))
  }

  lemma CombineAccounts(r: Resolver, f: Flow, leaf: Leaf, results: seq<Outcome>, o: Outcome, b: Budget)
    requires o in results && Accounts(r, f, leaf, o, b)
    ensures Accounts(r, f, leaf, Combine(results), b)
  {
    var informative := Informative(results);
    var found := FoundValues(informative);
    assert o in informative;
    JoinAllIsLeastUpperBound(found);
    if o.Found? {
      assert o.value in found;
      assert Below(o.value, JoinAll(found));
      if leaf.Def? && Combine(results).value.IsKnown() {
        var at: Budget :| at.Left() < b.Left() && Below(DefValue(r, f, leaf.ea, at).0, o.value);
        BelowTransitive(DefValue(r, f, leaf.ea, at).0, o.value, JoinAll(found));
      }
    }
  }

  lemma AccountsEarlier(r: Resolver, f: Flow, leaf: Leaf, o: Outcome, later: Budget, b: Budget)
    requires Accounts(r, f, leaf, o, later) && later.Left() <= b.Left()
    ensures Accounts(r, f, leaf, o, b)
  {}

  lemma ScanAccounts(r: Resolver, f: Flow, ea: int, v: Value, b: Budget, b': Budget)
    requires ScanStops(r, f, Some(ea), b, Some(v), b') && IsDef(f, ea)
    ensures Accounts(r, f, Def(ea), Found(v), b)
  {
    if v.IsKnown() {
      var at: Budget :| at.Left() < b.Left() && Advances(b, at) && DefValue(r, f, ea, at) == (v, b');
      BelowReflexive(v);
    }
  }

  lemma EarlyStopAccounts(r: Resolver, f: Flow, leaf: Leaf, def: Option<int>, v: Value, b: Budget, b': Budget)
    requires ScanStops(r, f, def, b, Some(v), b')
    requires if def.Some? then leaf == Def(def.value) && IsDef(f, def.value) else leaf.Def? ==> IsDef(f, leaf.ea)
    ensures Accounts(r, f, leaf, Found(v), b)
  {
    if def.Some? { ScanAccounts(r, f, def.value, v, b, b'); }
  }

  lemma {:induction false} LeavesAreDefinitions(f: Flow, boundary: int, block: Block, visited: set<int>, leaf: Leaf)
    requires block in f.blocks && leaf in Leaves(f, boundary, block, visited)
    ensures leaf.Def? ==> IsDef(f, leaf.ea)
    decreases Unvisited(f.blocks, visited)
  {
    var preds := Predecessors(f.blocks, block);
    if LastDef(f, block.startEa, boundary).None? && preds != [] {
      VisitingShrinks(f.blocks, visited, block);
      var p :| p in preds && leaf in Leaves(f, p.endEa, p, visited + {block.startEa});
      LeavesAreDefinitions(f, p.endEa, p, visited + {block.startEa}, leaf);
    }
  }

  /** Every leaf is accounted for in the walk's outcome, although cycles are dropped. */
  lemma {:induction false} WalkAccounts(r: Resolver, f: Flow, boundary: int, block: Block, visited: set<int>, b: Budget, leaf: Leaf)
    requires f.port == r.port && HeadsDecode(r.port) && block in f.blocks
    requires leaf in Leaves(f, boundary, block, visited)
    ensures Accounts(r, f, leaf, Walk(r, f.target, boundary, block, f.func, f.blocks, visited, b).0, b)
    decreases b.Left(), 0
  {
    ScanStopsAtLastDef(r, f, boundary, block.startEa, b);
    LeavesAreDefinitions(f, boundary, block, visited, leaf);
    hide Combine, DefValue, Interpret, WalkAll, Scan, Predecessors, HeadsDecode, IsDef, Accounts;
    var (v, b1) := Scan(r, f.target, r.port.PrevHead(boundary, block.startEa), block.startEa, f.func, b);
    var def, preds := LastDef(f, block.startEa, boundary), Predecessors(f.blocks, block);
    if v.Some? {
      EarlyStopAccounts(r, f, leaf, def, v.value, b, b1);
    } else if preds != [] && b1.StepBlock().BlocksLast() {
      var next, b2 := visited + {block.startEa}, b1.StepBlock().Expand();
      var p :| p in preds && leaf in Leaves(f, p.endEa, p, next);
      var o := WalkAllAccounts(r, f, preds, next, b2, p, leaf);
      AccountsEarlier(r, f, leaf, o, b2, b);
      CombineAccounts(r, f, leaf, WalkAll(r, f.target, preds, f.func, f.blocks, next, b2).0, o, b);
    }
  }

  lemma {:induction false} WalkAllAccounts(r: Resolver, f: Flow, preds: seq<Block>, visited: set<int>, b: Budget, p: Block, leaf: Leaf)
    returns (o: Outcome)
    requires f.port == r.port && HeadsDecode(r.port) && p in preds && p in f.blocks
    requires leaf in Leaves(f, p.endEa, p, visited)
    ensures o in WalkAll(r, f.target, preds, f.func, f.blocks, visited, b).0 && Accounts(r, f, leaf, o, b)
    decreases b.Left(), 1, |preds|
  {
    var front, last := preds[..|preds| - 1], preds[|preds| - 1];
    var (rest, b1) := WalkAll(r, f.target, front, f.func, f.blocks, visited, b);
    if p == last {
      WalkAccounts(r, f, p.endEa, p, visited, b1, leaf);
      o := Walk(r, f.target, p.endEa, p, f.func, f.blocks, visited, b1).0;
      AccountsEarlier(r, f, leaf, o, b1, b);
    } else {
      o := WalkAllAccounts(r, f, front, visited, b, p, leaf);
    }
  }

  /** Whatever path leads back from a use, the walk from the use accounts for its end. */
  lemma WalkAccountsForEveryPath(r: Resolver, f: Flow, boundary: int, path: seq<Block>, leaf: Leaf, b: Budget)
    requires f.port == r.port && HeadsDecode(r.port) && UniqueStarts(f.blocks)
    requires Reaches(f, boundary, path, leaf)
    ensures Accounts(r, f, leaf, Walk(r, f.target, boundary, path[0], f.func, f.blocks, {}, b).0, b)
  {
    PathReachesLeaf(f, boundary, path, leaf, {});
    WalkAccounts(r, f, boundary, path[0], {}, b, leaf);
  }

  /** A location written on some paths to the use but not on others is never known, and
    never silently taken for unwritten. */
  lemma PartlyDefinedIsUnknown(r: Resolver, f: Flow, boundary: int, written: seq<Block>, unwritten: seq<Block>, ea: int, b: Budget)
    requires f.port == r.port && HeadsDecode(r.port) && UniqueStarts(f.blocks)
    requires Reaches(f, boundary, written, Def(ea)) && Reaches(f, boundary, unwritten, Entry) && written[0] == unwritten[0]
    ensures var o := Walk(r, f.target, boundary, written[0], f.func, f.blocks, {}, b).0; o.Found? && o.value.Unknown?
  {
    WalkAccountsForEveryPath(r, f, boundary, written, Def(ea), b);
    WalkAccountsForEveryPath(r, f, boundary, unwritten, Entry, b);
  }

  // -- nothing but the leaves -----------------------------------------------------------------

  /** However much budget was left when it was interpreted, the definition's value is
    below `w` unless a step was refused. */
  ghost predicate LeafBelow(r: Resolver, f: Flow, leaf: Leaf, w: Value) {
    && leaf.Def? && IsDef(f, leaf.ea)
    && forall at: Budget :: Granted(at, DefValue(r, f, leaf.ea, at).1) ==> Below(DefValue(r, f, leaf.ea, at).0, w)
  }

  ghost predicate OnlyFrom(leaves: set<Leaf>, o: Outcome, w: Value) {
    && o != NotFound
    && (o == Cycle <==> leaves == {})
    && (o.Found? ==> Below(o.value, w))
  }

  lemma CombineOnlyFrom(results: seq<Outcome>, w: Value)
    requires forall o :: o in results ==> o != NotFound && (o.Found? ==> Below(o.value, w))
    ensures Combine(results) != NotFound
    ensures Combine(results) == Cycle <==> forall o :: o in results ==> o == Cycle
    ensures Combine(results).Found? ==> Below(Combine(results).value, w)
  {
    var informative := Informative(results);
    var found := FoundValues(informative);
    assert informative != [] ==> informative[0] in informative;
    assert forall o :: o in informative ==> o.Found?;
    JoinAllIsLeastUpperBound(found);
    forall v | v in found ensures Below(v, w) { assert Found(v) in informative; }
  }

  /** Unless a step is refused, the walk answers nothing that its leaves do not say. */
  lemma {:induction false} WalkAnswersOnlyFromLeaves(r: Resolver, f: Flow, boundary: int, block: Block, visited: set<int>, b: Budget, w: Value)
    requires f.port == r.port && HeadsDecode(r.port) && block in f.blocks
    requires forall leaf :: leaf in Leaves(f, boundary, block, visited) ==> LeafBelow(r, f, leaf, w)
    requires Granted(b, Walk(r, f.target, boundary, block, f.func, f.blocks, visited, b).1)
    ensures OnlyFrom(Leaves(f, boundary, block, visited), Walk(r, f.target, boundary, block, f.func, f.blocks, visited, b).0, w)
    decreases b.Left(), 0
  {
    hide Scan, WalkAll, Combine, HeadsDecode, Predecessors, LeafBelow, Below, ScanStops, LeavesOfAll, LastDef, DefValue;
    PredecessorsAreListed(f.blocks, block);
    ScanStopsAtLastDef(r, f, boundary, block.startEa, b);
    var (v, b1) := Scan(r, f.target, r.port.PrevHead(boundary, block.startEa), block.startEa, f.func, b);
    var leaves, def, preds := Leaves(f, boundary, block, visited), LastDef(f, block.startEa, boundary), Predecessors(f.blocks, block);
    var o := Walk(r, f.target, boundary, block, f.func, f.blocks, visited, b).0;
    if v.Some? {
      ScanAnswersBelow(r, f, def, v.value, b, b1, w);
    } else if preds != [] && block.startEa !in visited {
      var next, b2 := visited + {block.startEa}, b1.StepBlock().Expand();
      assert leaves == LeavesOfAll(f, preds, next);
      WalkAllAnswersOnlyFromLeaves(r, f, preds, next, b2, w);
      CombineOnlyFrom(WalkAll(r, f.target, preds, f.func, f.blocks, next, b2).0, w);
    } else if preds == [] && block.startEa !in visited {
      EntryIsNotBelow(r, f, w);
    }
  }

  lemma ScanAnswersBelow(r: Resolver, f: Flow, def: Option<int>, v: Value, b: Budget, b': Budget, w: Value)
    requires ScanStops(r, f, def, b, Some(v), b') && Granted(b, b')
    requires def.Some? ==> LeafBelow(r, f, Def(def.value), w)
    ensures def.Some? && Below(v, w)
  {
    var at: Budget :| Advances(b, at) && DefValue(r, f, def.value, at) == (v, b');
  }

  lemma EntryIsNotBelow(r: Resolver, f: Flow, w: Value)
    ensures !LeafBelow(r, f, Entry, w)
  {}

  lemma {:induction false} WalkAllAnswersOnlyFromLeaves(r: Resolver, f: Flow, preds: seq<Block>, visited: set<int>, b: Budget, w: Value)
    requires f.port == r.port && HeadsDecode(r.port) && forall p :: p in preds ==> p in f.blocks
    requires forall leaf :: leaf in LeavesOfAll(f, preds, visited) ==> LeafBelow(r, f, leaf, w)
    requires Granted(b, WalkAll(r, f.target, preds, f.func, f.blocks, visited, b).1)
    ensures var results := WalkAll(r, f.target, preds, f.func, f.blocks, visited, b).0;
      && (forall o :: o in results ==> o != NotFound && (o.Found? ==> Below(o.value, w)))
      && (LeavesOfAll(f, preds, visited) == {} <==> forall o :: o in results ==> o == Cycle)
    decreases b.Left(), 1, |preds|
  {
    hide Walk, HeadsDecode, LeafBelow, Leaves, Below;
    if preds != [] {
      var front, last := preds[..|preds| - 1], preds[|preds| - 1];
      var (rest, b1) := WalkAll(r, f.target, front, f.func, f.blocks, visited, b);
      var o := Walk(r, f.target, last.endEa, last, f.func, f.blocks, visited, b1).0;
      WalkAllAnswersOnlyFromLeaves(r, f, front, visited, b, w);
      WalkAnswersOnlyFromLeaves(r, f, last.endEa, last, visited, b1, w);
      assert WalkAll(r, f.target, preds, f.func, f.blocks, visited, b).0 == rest + [o];
      assert o in rest + [o] && forall x :: x in rest ==> x in rest + [o];
    }
  }
}
