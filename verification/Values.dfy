/** The value lattice shared by both dataflow engines.

  A resolution answers `Concrete`, `Symbolic`, `MemoryRef`, `MutatedRegion`, or an
  `Unknown` that carries its reason.  The text of an `Unknown`'s detail is kept as
  structure rather than as characters, because the forward engine compares whole
  states, details included, to decide whether a block has to be simulated again. */
module Values {

  datatype Option<+T> = None | Some(value: T)

  datatype UnknownReason =
    | NO_DEFINITION_FOUND
    | DIVERGENT_PATHS
    | DIVERGENT_SYMBOLIC
    | BUDGET_EXCEEDED
    | UNSUPPORTED_INSTRUCTION
    | UNSUPPORTED_OPERAND_SHAPE
    | INDIRECT_CONTROL_FLOW
    | MEMORY_READ_FAILED
    | LOOP_NON_CONVERGENT
    | ADAPTER_ERROR
    | INTERNAL_ERROR
    | MUTATED_MEMORY_CONTENT

  datatype ValueKind = IntKind | PointerKind | StringKind | BytesKind | UnknownKind

  /** A symbolic expression: `arg<i>`, `ret(<ea>)`, or the text of a client's own. */
  datatype Expr = Arg(index: int) | Ret(ea: int) | Text(text: string)

  /** What a join puts in the detail of the `Unknown` it answers. */
  datatype Detail =
    | Blank
    | IntsDiffer(leftInt: int, rightInt: int)
    | ExprsDiffer(leftExpr: Expr, rightExpr: Expr)
    | AddrsDiffer(leftAddr: int, rightAddr: int)
    | BasesDiffer(leftBase: string, rightBase: string)
    | ShapesDiffer(left: Value, right: Value)

  datatype Value =
    | Unknown(reason: UnknownReason, detail: Detail)
    | Concrete(value: int, kind: ValueKind)
    | MemoryRef(addr: int, inner: Value)
    | Symbolic(expr: Expr)
    | MutatedRegion(baseExpr: string, via: string)
  {
    predicate IsKnown() { !Unknown? }
  }

  function Unk(reason: UnknownReason): Value { Unknown(reason, Blank) }

  method AnyOf<T(==)>(s: set<T>) returns (x: T)
    requires s != {}
    ensures x in s
  {
    x :| x in s;
  }
}
