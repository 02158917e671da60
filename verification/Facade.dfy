/** `ParamExtractor`: the raw value of every argument of one call. */
module Facade {
  import opened Values
  import opened BackwardSpec
  import opened BackwardEngine
  import opened PushSequence
  import opened Conventions
  import opened Arguments

  class ParamExtractor {
    const resolver: BackwardResolver

    ghost predicate Valid()
      reads resolver, resolver.cache
    {
      resolver.Valid()
    }

    /** A fresh budget for every slot of every call. */
    function Answer(callEa: int, slot: Slot): Value
      reads resolver.registry
    {
      Arguments.ResolveSlot(resolver.Spec(), callEa, slot, CollectPushes(resolver.port, callEa),
                            NewBudget(resolver.maxSteps, resolver.maxBlocks))
    }

    constructor (resolver: BackwardResolver)
      requires resolver.Valid()
      ensures Valid() && this.resolver == resolver
    {
      this.resolver := resolver;
    }

    /** `pushes` matters only to a slot that was pushed. */
    method ResolveSlot(callEa: int, slot: Slot, pushes: seq<int>) returns (value: Value)
      requires Valid() && (slot.Pushed? ==> pushes == CollectPushes(resolver.port, callEa))
      modifies resolver, resolver.cache
      ensures Valid() && value == Answer(callEa, slot)
    {
      match slot {
        case InRegister(None) => value := Unk(UNSUPPORTED_OPERAND_SHAPE);
        case InRegister(Some(reg)) => value := resolver.ResolveRegister(reg, callEa);
        case Pushed(position) =>
          var ea := PushForPosition(pushes, position);
          if ea.None? {
            return Unk(NO_DEFINITION_FOUND);
          }
          value := resolver.ResolveAtInstruction(ea.value, 0);
        case AtOffset(offset) =>
          value := resolver.ResolveMemory(resolver.port.stackPointerReg, offset, callEa, resolver.port.pointerSize);
      }
    }

    /** Scans for pushes only when some argument was pushed. */
    method ExtractOneCall(callEa: int, c: Convention, register: string -> Option<int>, numArgs: nat) returns (arguments: seq<Value>)
      requires Valid()
      modifies resolver, resolver.cache
      ensures Valid() && |arguments| == numArgs
      ensures forall i :: 0 <= i < numArgs ==> arguments[i] == Answer(callEa, SlotFor(c, register, i))
    {
      hide CollectPushes, SlotFor, Arguments.ResolveSlot;
      var slots := Slots(c, register, numArgs);
      var needsPushes := exists slot :: slot in slots && slot.Pushed?;
      var pushes := [];
      if needsPushes {
        pushes := resolver.CollectPushSequence(callEa);
      }
      arguments := [];
      for i := 0 to numArgs
        invariant Valid() && |arguments| == i
        invariant forall k :: 0 <= k < i ==> arguments[k] == Answer(callEa, SlotFor(c, register, k))
      {
        var raw := ResolveSlot(callEa, slots[i], pushes);
        arguments := arguments + [raw];
      }
    }
  }
}
