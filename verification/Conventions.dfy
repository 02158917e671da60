/** The calling conventions: in which slot each argument of a call is passed. */
module Conventions {
  import opened Values

  datatype Slot = InRegister(reg: Option<int>) | Pushed(position: nat) | AtOffset(offset: int)

  datatype Convention = Convention(registerNames: seq<string>, pushes: bool, stackBaseOffset: int, stackArgSize: int)

  function SlotFor(c: Convention, register: string -> Option<int>, index: nat): Slot {
    if index < |c.registerNames| then InRegister(register(c.registerNames[index]))
    else if c.pushes then Pushed(index - |c.registerNames|)
    else AtOffset(c.stackBaseOffset + (index - |c.registerNames|) * c.stackArgSize)
  }

  /** The registers come first, in the order they are named; then the pushes by their
    position, or words from the base offset on, each one size above the one before. */
  predicate LaidOut(c: Convention, register: string -> Option<int>, slots: seq<Slot>) {
    var named := |c.registerNames|;
    && (forall i :: 0 <= i < |slots| && i < named ==> slots[i] == InRegister(register(c.registerNames[i])))
    && (c.pushes ==> forall i :: named <= i < |slots| ==> slots[i].Pushed? && slots[i].position == i - named)
    && (!c.pushes ==> forall i :: named <= i < |slots| ==> slots[i].AtOffset?)
    && (!c.pushes && named < |slots| ==> slots[named].offset == c.stackBaseOffset)
    && (!c.pushes ==> forall i, j :: named <= i < |slots| && j == i + 1 < |slots| ==> slots[j].offset == slots[i].offset + c.stackArgSize)
  }

  /** `RegisterThenStackConvention.slots`. */
  method Slots(c: Convention, register: string -> Option<int>, numArgs: nat) returns (slots: seq<Slot>)
    ensures |slots| == numArgs && LaidOut(c, register, slots)
    ensures forall i :: 0 <= i < numArgs ==> slots[i] == SlotFor(c, register, i)
  {
    slots := [];
    for index := 0 to numArgs
      invariant |slots| == index && forall i :: 0 <= i < index ==> slots[i] == SlotFor(c, register, i)
    {
      if index < |c.registerNames| {
        slots := slots + [InRegister(register(c.registerNames[index]))];
      } else {
        var stackIndex := index - |c.registerNames|;
        slots := slots + [if c.pushes then Pushed(stackIndex) else AtOffset(c.stackBaseOffset + stackIndex * c.stackArgSize)];
      }
    }
    NextSlotIsOneAbove(c, register);
  }

  lemma NextSlotIsOneAbove(c: Convention, register: string -> Option<int>)
    ensures !c.pushes ==> SlotFor(c, register, |c.registerNames|) == AtOffset(c.stackBaseOffset)
    ensures !c.pushes ==> forall i: nat :: i >= |c.registerNames| ==>
      SlotFor(c, register, i + 1).offset == SlotFor(c, register, i).offset + c.stackArgSize
  {}

  // -- the built-in templates ----------------------------------------------------------------------

  const CDECL := Convention([], true, 0, 4)
  const STDCALL := Convention([], true, 0, 4)
  const FASTCALL := Convention(["ecx", "edx"], true, 0, 4)
  const THISCALL := Convention(["ecx"], true, 0, 4)
  const MS_X64 := Convention(["rcx", "rdx", "r8", "r9"], false, 0x20, 8)
  const SYSV_X64 := Convention(["rdi", "rsi", "rdx", "rcx", "r8", "r9"], false, 0, 8)
}
