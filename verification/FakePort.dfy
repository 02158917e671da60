/** The in-memory port that doubles as the specification of the adapter: the promises the
  analyses rely on are promises it keeps. */
module FakePort {
  import opened Values
  import opened InsnModel
  import opened Port
  import opened MemoryImage
  import opened Machine

  /** The 8-bit views, 16 to 23, have numbers of their own: the low and then the high
    bytes of the first four registers. */
  function SubRegister(reg: int): Option<(int, nat)> {
    if 16 <= reg < 20 then Some((reg - 16, 0)) else if 20 <= reg < 24 then Some((reg - 20, 8)) else None
  }

  datatype Fake = Fake(
    pointerSize: nat,
    registers: map<string, int>,
    instructions: map<int, Instruction>,
    bounds: seq<(int, int)>,
    references: map<int, seq<int>>,
    blocks: map<int, seq<Block>>,
    memory: map<int, Byte>,
    deltas: map<(int, int), int>)

  function Get<K, V>(m: map<K, V>, k: K): Option<V> { if k in m then Some(m[k]) else None }

  /** Only the whole register, and a 32-bit part of a 64-bit one, is defined by a write. */
  function RegisterViewOf(f: Fake, reg: int, sizeBytes: int): Option<RegisterView> {
    var parentBits := 8 * f.pointerSize;
    var sub := SubRegister(reg);
    if sub.Some? then Some(RegisterView(sub.value.0, sub.value.1, 8, parentBits, false))
    else if reg !in f.registers.Values then None
    else
      var bitSize := if sizeBytes > 0 then 8 * sizeBytes else parentBits;
      Some(RegisterView(reg, 0, bitSize, parentBits, bitSize >= parentBits || (bitSize == 32 && parentBits == 64)))
  }

  function FuncStart(bounds: seq<(int, int)>, ea: int): Option<int> {
    if bounds == [] then None
    else if bounds[0].0 <= ea < bounds[0].1 then Some(bounds[0].0)
    else FuncStart(bounds[1..], ea)
  }

  /** 64-bit names on a pointer size of eight, 32-bit names otherwise. */
  function Named(f: Fake, wide: string, narrow: string): Option<int> {
    Get(f.registers, if f.pointerSize == 8 then wide else narrow)
  }

  const WIDE_CLOBBERED := {"rax", "rcx", "rdx", "r8", "r9"}
  const NARROW_CLOBBERED := {"eax", "ecx", "edx"}

  function AsPort(f: Fake): IdaPort {
    var clobbered := if f.pointerSize == 8 then WIDE_CLOBBERED else NARROW_CLOBBERED;
    IdaPort(
      ea => Get(f.instructions, ea),
      ea => ea in f.instructions,
      ea => if ea in f.references then f.references[ea] else [],
      ea => FuncStart(f.bounds, ea),
      func => if func in f.blocks then f.blocks[func] else [],
      (addr, size) => ReadInt(f.memory, addr, size),
      (func, ea) => Get(f.deltas, (func, ea)),
      (reg, size) => RegisterViewOf(f, reg, size),
      f.pointerSize,
      Named(f, "rsp", "esp"), Named(f, "rbp", "ebp"), Named(f, "rax", "eax"),
      set name | name in clobbered && name in f.registers :: f.registers[name],
      name => Get(f.registers, name))
  }

  /** Instructions sit where they are filed and do not overlap. */
  ghost predicate FiledInPlace(f: Fake) {
    forall ea :: ea in f.instructions ==>
      && f.instructions[ea].ea == ea && f.instructions[ea].size > 0
      && forall other :: ea < other < ea + f.instructions[ea].size ==> other !in f.instructions
  }

  /** The registers with parts are there, and the names of whole registers name them. */
  ghost predicate RegistersAreWhole(f: Fake) {
    && (forall r :: SubRegister(r).Some? ==> SubRegister(r).value.0 in f.registers.Values)
    && (forall name :: name in WIDE_CLOBBERED + NARROW_CLOBBERED && name in f.registers ==> SubRegister(f.registers[name]).None?)
  }

  /** A write defines the whole parent exactly when it is 32 bits or wider: 16-bit and
    8-bit writes leave the rest of the register, and a 32-bit write on a 64-bit machine
    clears it, as section 3.4.1.1 of the Intel SDM, Volume 1 has it. */
  lemma ViewIsLaidOut(f: Fake, r: int, n: int)
    requires f.pointerSize in {4, 8} && RegistersAreWhole(f)
    ensures var port, v := AsPort(f), ViewOf(AsPort(f), r, n);
      && (port.registerView(r, n).Some? <==> port.registerView(r, 0).Some?)
      && v.parent == Parent(port, r) && Whole(port, v.parent) && v.parentBitSize == Bits(port, v.parent)
      && (port.registerView(r, n).Some? ==> port.registerView(v.parent, 0).Some?)
      && (v.writeDefinesParent ==> v.parent == r && v.bitOffset == 0)
      && (v.bitOffset == 0 && v.bitSize >= v.parentBitSize ==> v.writeDefinesParent)
      && (port.registerView(r, n).Some? && n in {1, 2, 4, 8} ==>
            (v.writeDefinesParent <==> SubRegister(r).None? && n >= 4))
  {
    var sub := SubRegister(r);
    assert sub.Some? ==> SubRegister(sub.value.0).None?;
  }

  lemma ClobberedAreWhole(f: Fake)
    requires f.pointerSize > 0 && RegistersAreWhole(f)
    ensures var port := AsPort(f);
      && (forall r :: r in port.callClobbered ==> Whole(port, r))
      && (port.returnValueReg.Some? ==> Whole(port, port.returnValueReg.value))
  {
    assert "rax" in WIDE_CLOBBERED && "eax" in NARROW_CLOBBERED;
  }

  lemma WholeReadsAll(f: Fake, r: int)
    requires f.pointerSize in {4, 8} && RegistersAreWhole(f) && Whole(AsPort(f), r)
    ensures var v := ViewOf(AsPort(f), r, 0); v.bitOffset == 0 && v.bitSize == v.parentBitSize
  {}

  lemma InstructionsAreInPlace(f: Fake)
    requires FiledInPlace(f)
    ensures DecodesInPlace(AsPort(f))
  {}

  /** The layout and decoding promises hold of the specification port, so nothing proved
    from them is proved of no port at all. */
  lemma FakePortKeepsItsPromises(f: Fake)
    requires f.pointerSize in {4, 8} && FiledInPlace(f) && RegistersAreWhole(f)
    ensures DecodesInPlace(AsPort(f)) && LayoutContract(AsPort(f))
  {
    hide AsPort, RegisterViewOf, RegistersAreWhole, SubRegister, FiledInPlace, DecodesInPlace, ViewOf;
    InstructionsAreInPlace(f);
    ClobberedAreWhole(f);
    forall r, n { ViewIsLaidOut(f, r, n); }
    forall r | Whole(AsPort(f), r) { WholeReadsAll(f, r); }
  }
}
