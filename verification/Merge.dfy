/** `join` and `join_all`: the rules by which paths are merged.

  The order `Below` reads "says at least as much as".  `Join` is the least upper
  bound of that order, and everything else about merging follows from it. */
module Merge {
  import opened Values

  function Join(a: Value, b: Value): Value
    decreases a
  {
    if a.Unknown? then a
    else if b.Unknown? then b
    else match (a, b)
      case (Concrete(x, k), Concrete(y, m)) =>
        if x == y && k == m then a else Unknown(DIVERGENT_PATHS, IntsDiffer(x, y))
      case (Symbolic(e), Symbolic(f)) =>
        if e == f then a else Unknown(DIVERGENT_SYMBOLIC, ExprsDiffer(e, f))
      case (MemoryRef(p, u), MemoryRef(q, v)) =>
        if p == q then MemoryRef(p, Join(u, v)) else Unknown(DIVERGENT_PATHS, AddrsDiffer(p, q))
      case (MutatedRegion(p, _), MutatedRegion(q, _)) =>
        if p == q then a else Unknown(DIVERGENT_SYMBOLIC, BasesDiffer(p, q))
      case _ => Unknown(DIVERGENT_PATHS, ShapesDiffer(a, b))
  }

  /** `join_all` as a fold from the left. */
  function JoinAll(values: seq<Value>): Value {
    if |values| == 0 then Unk(NO_DEFINITION_FOUND)
    else if |values| == 1 then values[0]
    else Join(JoinAll(values[..|values| - 1]), values[|values| - 1])
  }

  method ComputeJoinAll(values: seq<Value>) returns (result: Value)
    ensures result == JoinAll(values)
  {
    if |values| == 0 {
      return Unk(NO_DEFINITION_FOUND);
    }
    result := values[0];
    for i := 1 to |values|
      invariant result == JoinAll(values[..i])
    {
      assert values[..i + 1][..i] == values[..i];
      result := Join(result, values[i]);
    }
    assert values[..|values|] == values;
  }

  /** `a` says at least as much as `b`: everything is below `Unknown`, and a memory
    reference is compared by what it found there. */
  predicate Below(a: Value, b: Value)
    decreases b
  {
    match b
    case Unknown(_, _) => true
    case Concrete(_, _) => a == b
    case Symbolic(_) => a == b
    case MemoryRef(p, v) => a.MemoryRef? && a.addr == p && Below(a.inner, v)
    case MutatedRegion(p, _) => a.MutatedRegion? && a.baseExpr == p
  }

  /** Equal but for the reason of an `Unknown` and the `via` of a mutated region. */
  predicate Alike(a: Value, b: Value) { Below(a, b) && Below(b, a) }

  lemma {:induction false} BelowReflexive(a: Value)
    ensures Below(a, a)
  {
    if a.MemoryRef? { BelowReflexive(a.inner); }
  }

  lemma {:induction false} BelowTransitive(a: Value, b: Value, c: Value)
    requires Below(a, b) && Below(b, c)
    ensures Below(a, c)
    decreases c
  {
    if c.MemoryRef? { BelowTransitive(a.inner, b.inner, c.inner); }
  }

  lemma {:induction false} JoinIsLeastUpperBound(a: Value, b: Value)
    ensures Below(a, Join(a, b)) && Below(b, Join(a, b))
    ensures forall c :: Below(a, c) && Below(b, c) ==> Below(Join(a, b), c)
    decreases a
  {
    BelowReflexive(a);
    BelowReflexive(b);
    if a.MemoryRef? && b.MemoryRef? && a.addr == b.addr {
      JoinIsLeastUpperBound(a.inner, b.inner);
    }
  }

  lemma {:induction false} JoinIdempotent(a: Value)
    ensures Join(a, a) == a
  {
    if a.MemoryRef? { JoinIdempotent(a.inner); }
  }

  /** Idempotent, commutative and associative, at any depth of nested references. */
  lemma JoinLaws(a: Value, b: Value, c: Value)
    ensures Join(a, a) == a
    ensures Alike(Join(a, b), Join(b, a))
    ensures Alike(Join(Join(a, b), c), Join(a, Join(b, c)))
  {
    JoinIdempotent(a);
    JoinIsLeastUpperBound(a, b);
    JoinIsLeastUpperBound(b, a);
    JoinIsLeastUpperBound(b, c);
    var left, right := Join(Join(a, b), c), Join(a, Join(b, c));
    JoinIsLeastUpperBound(Join(a, b), c);
    JoinIsLeastUpperBound(a, Join(b, c));
    BelowTransitive(a, Join(a, b), left);
    BelowTransitive(b, Join(a, b), left);
    BelowTransitive(b, Join(b, c), right);
    BelowTransitive(c, Join(b, c), right);
  }

  lemma {:induction false} JoinAllIsLeastUpperBound(values: seq<Value>)
    ensures forall v :: v in values ==> Below(v, JoinAll(values))
    ensures forall c :: |values| > 0 && (forall v :: v in values ==> Below(v, c)) ==> Below(JoinAll(values), c)
  {
    if |values| == 1 {
      BelowReflexive(values[0]);
    } else if |values| > 1 {
      var front, last := values[..|values| - 1], values[|values| - 1];
      assert values == front + [last];
      JoinAllIsLeastUpperBound(front);
      JoinIsLeastUpperBound(JoinAll(front), last);
      forall v | v in values ensures Below(v, JoinAll(values)) {
        if v in front { BelowTransitive(v, JoinAll(front), JoinAll(values)); }
      }
      forall c | forall v :: v in values ==> Below(v, c) ensures Below(JoinAll(values), c) {
        assert forall v :: v in front ==> v in values;
      }
    }
  }

  /** The order and the repetitions of the merged values do not matter. */
  lemma JoinAllDependsOnlyOnTheSet(xs: seq<Value>, ys: seq<Value>)
    requires forall v :: v in xs <==> v in ys
    ensures Alike(JoinAll(xs), JoinAll(ys))
  {
    JoinAllIsLeastUpperBound(xs);
    JoinAllIsLeastUpperBound(ys);
    assert xs != [] ==> xs[0] in ys;
    assert ys != [] ==> ys[0] in xs;
  }

  /** A merge commits to a constant or a symbol exactly when every path gave that one. */
  lemma JoinAllNeverGuesses(values: seq<Value>, answer: Value)
    requires answer.Concrete? || answer.Symbolic?
    ensures JoinAll(values) == answer <==> |values| > 0 && forall v :: v in values ==> v == answer
  {
    JoinAllIsLeastUpperBound(values);
    if |values| > 0 && forall v :: v in values ==> v == answer {
      BelowReflexive(answer);
      assert values[0] in values && Below(values[0], JoinAll(values)) && Below(JoinAll(values), answer);
    }
  }

  lemma {:induction false} JoinOfEquals(values: seq<Value>, v: Value)
    requires |values| > 0 && forall i :: 0 <= i < |values| ==> values[i] == v
    ensures JoinAll(values) == v
  {
    if |values| > 1 {
      JoinOfEquals(values[..|values| - 1], v);
      JoinIdempotent(v);
    }
  }

  /** An unknown absorbs, the first of two; known values that disagree diverge symbolically if both
    are symbols or both are mutated regions, and as paths otherwise; nothing at all has no
    definition. */
  lemma DisagreementsAreNamed(a: Value, b: Value)
    ensures a.Unknown? ==> Join(a, b) == a
    ensures !a.Unknown? && b.Unknown? ==> Join(a, b) == b
    ensures a.IsKnown() && b.IsKnown() && Join(a, b).Unknown? ==>
      Join(a, b).reason ==
        if (a.Symbolic? && b.Symbolic?) || (a.MutatedRegion? && b.MutatedRegion?) then DIVERGENT_SYMBOLIC else DIVERGENT_PATHS
    ensures JoinAll([]) == Unk(NO_DEFINITION_FOUND)
  {}
}
