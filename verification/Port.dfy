/** The disassembler behind both engines, and the control-flow graph it reports.

  The port is an oracle: a record of total functions.  Only `PrevHead` has a
  definition here, because every listing of instruction heads obeys it. */
module Port {
  import opened Values
  import opened InsnModel

  datatype RegisterView = RegisterView(
    parent: int,
    bitOffset: nat,
    bitSize: nat,
    parentBitSize: nat,
    writeDefinesParent: bool)

  datatype Block = Block(startEa: int, endEa: int, succStarts: seq<int>, predStarts: seq<int>)

  datatype IdaPort = IdaPort(
    decodeAt: int -> Option<Instruction>,
    isHead: int -> bool,
    codeRefsTo: int -> seq<int>,
    funcStart: int -> Option<int>,
    flowchart: int -> seq<Block>,
    readInt: (int, int) -> Option<int>,
    spDelta: (int, int) -> Option<int>,
    registerView: (int, int) -> Option<RegisterView>,
    pointerSize: nat,
    stackPointerReg: Option<int>,
    framePointerReg: Option<int>,
    returnValueReg: Option<int>,
    callClobbered: set<int>,
    registerByName: string -> Option<int>)
  {
    /** The last head strictly before `ea` and not below `minEa`. */
    function PrevHead(ea: int, minEa: int): (r: Option<int>)
      ensures r.Some? ==> minEa <= r.value < ea && isHead(r.value)
      ensures forall h :: (if r.Some? then r.value < h else minEa <= h) && h < ea ==> !isHead(h)
      decreases ea - minEa
    {
      if ea <= minEa then None
      else if isHead(ea - 1) then Some(ea - 1)
      else PrevHead(ea - 1, minEa)
    }
  }

  /** The block of that start address; the last one listed wins. */
  function BlockAt(blocks: seq<Block>, start: int): (r: Option<Block>)
    ensures r.Some? ==> r.value in blocks && r.value.startEa == start
    ensures r.None? ==> forall b :: b in blocks ==> b.startEa != start
  {
    if blocks == [] then None
    else if blocks[|blocks| - 1].startEa == start then Some(blocks[|blocks| - 1])
    else BlockAt(blocks[..|blocks| - 1], start)
  }

  /** The first block listed whose address interval holds `ea`. */
  function BlockContaining(blocks: seq<Block>, ea: int): (r: Option<Block>)
    ensures r.Some? ==> r.value in blocks && r.value.startEa <= ea < r.value.endEa
    ensures r.None? ==> forall b :: b in blocks ==> !(b.startEa <= ea < b.endEa)
  {
    if blocks == [] then None
    else if blocks[0].startEa <= ea < blocks[0].endEa then Some(blocks[0])
    else BlockContaining(blocks[1..], ea)
  }

  function BlocksAt(blocks: seq<Block>, starts: seq<int>): (r: seq<Block>)
    ensures |r| <= |starts|
    ensures forall c :: c in r <==> c.startEa in starts && BlockAt(blocks, c.startEa) == Some(c)
  {
    if starts == [] then []
    else
      var rest := BlocksAt(blocks, starts[1..]);
      match BlockAt(blocks, starts[0])
      case None => rest
      case Some(b) => [b] + rest
  }

  /** In the order of the starts, as often as they are listed. */
  lemma {:induction false} BlocksAtKeepsOrder(blocks: seq<Block>, xs: seq<int>, ys: seq<int>)
    ensures BlocksAt(blocks, xs + ys) == BlocksAt(blocks, xs) + BlocksAt(blocks, ys)
    ensures forall s :: BlocksAt(blocks, [s]) == (if BlockAt(blocks, s).Some? then [BlockAt(blocks, s).value] else [])
  {
    hide BlockAt;
    forall s ensures BlocksAt(blocks, [s]) == (if BlockAt(blocks, s).Some? then [BlockAt(blocks, s).value] else []) {
      assert [s][1..] == [];
    }
    if xs == [] {
      assert xs + ys == ys;
    } else {
      assert (xs + ys)[1..] == xs[1..] + ys;
      BlocksAtKeepsOrder(blocks, xs[1..], ys);
    }
  }

  function Predecessors(blocks: seq<Block>, b: Block): seq<Block> { BlocksAt(blocks, b.predStarts) }

  lemma PredecessorsAreListed(blocks: seq<Block>, b: Block)
    ensures forall p :: p in Predecessors(blocks, b) ==> p in blocks
  {}

  function Successors(blocks: seq<Block>, b: Block): seq<Block> { BlocksAt(blocks, b.succStarts) }

  /** The instructions that decode in [lo, hi), in address order. */
  function Code(port: IdaPort, lo: int, hi: int): seq<Instruction>
    decreases hi - lo
  {
    if hi <= lo then []
    else
      var front := Code(port, lo, hi - 1);
      match port.decodeAt(hi - 1)
      case None => front
      case Some(instr) => front + [instr]
  }

  /** What the adapter promises of decoding: an instruction sits at its own address,
    the address is a head, and the bytes it covers start no other instruction. */
  ghost predicate DecodesInPlace(port: IdaPort) {
    forall ea :: port.decodeAt(ea).Some? ==>
      && port.decodeAt(ea).value.ea == ea
      && port.isHead(ea)
      && port.decodeAt(ea).value.size > 0
      && forall other :: ea < other < ea + port.decodeAt(ea).value.size ==> port.decodeAt(other).None?
  }

  function Decoded(port: IdaPort, ea: int): seq<Instruction> {
    match port.decodeAt(ea)
    case None => []
    case Some(instr) => [instr]
  }

  lemma {:induction false} CodeFromTheFront(port: IdaPort, lo: int, hi: int)
    requires lo < hi
    ensures Code(port, lo, hi) == Decoded(port, lo) + Code(port, lo + 1, hi)
    decreases hi - lo
  {
    if lo + 1 < hi { CodeFromTheFront(port, lo, hi - 1); }
  }

  lemma {:induction false} CodeSkipsGaps(port: IdaPort, lo: int, mid: int, hi: int)
    requires lo <= mid && forall ea :: lo <= ea < mid ==> port.decodeAt(ea).None?
    ensures Code(port, lo, hi) == Code(port, mid, hi)
    decreases mid - lo
  {
    if lo < mid && lo < hi {
      CodeFromTheFront(port, lo, hi);
      CodeSkipsGaps(port, lo + 1, mid, hi);
    }
  }

  lemma {:induction false} CodeSplits(port: IdaPort, lo: int, mid: int, hi: int)
    requires lo <= mid <= hi
    ensures Code(port, lo, hi) == Code(port, lo, mid) + Code(port, mid, hi)
    decreases hi - mid
  {
    if mid < hi { CodeSplits(port, lo, mid, hi - 1); }
  }
}
