/** The forward engine's abstract state, as a value and as the object it updates. */
module State {
  import opened Values

  /** The region a memory reference is relative to, and the cell within the region. */
  datatype Space = Absolute | StackPointer | StackUnknown(ea: int) | FramePointer | Based(reg: int) | Segment(name: string, inner: Space)

  datatype Cell = Cell(space: Space, offset: int)

  /** What a query can be about. */
  datatype Target = Register(reg: int) | Memory(cell: Cell)

  datatype State = State(registers: map<int, Value>, stack: map<Cell, Value>)
  {
    function Register(reg: int): Value {
      if reg in registers then registers[reg] else Unk(NO_DEFINITION_FOUND)
    }

    function RegisterOf(reg: Option<int>): Value {
      if reg.Some? then Register(reg.value) else Unk(NO_DEFINITION_FOUND)
    }

    function Slot(cell: Cell): Value {
      if cell in stack then stack[cell] else Unk(NO_DEFINITION_FOUND)
    }

    function With(reg: Option<int>, value: Value): State {
      if reg.Some? then this.(registers := registers[reg.value := value]) else this
    }

    function WithSlot(cell: Cell, value: Value): State { this.(stack := stack[cell := value]) }
  }

  const EMPTY := State(map[], map[])

  class AbstractState {
    var registers: map<int, Value>
    var stack: map<Cell, Value>

    function View(): State
      reads this
    {
      State(registers, stack)
    }

    constructor (view: State)
      ensures View() == view
    {
      registers, stack := view.registers, view.stack;
    }

    /** A state of its own that reads the same. */
    constructor Copy(other: AbstractState)
      ensures View() == other.View()
    {
      registers, stack := other.registers, other.stack;
    }

    method SetRegister(reg: Option<int>, value: Value)
      modifies this
      ensures View() == old(View()).With(reg, value)
    {
      if reg.Some? {
        registers := registers[reg.value := value];
      }
    }

    method InvalidateRegister(reg: Option<int>, reason: UnknownReason)
      modifies this
      ensures View() == old(View()).With(reg, Unk(reason))
    {
      SetRegister(reg, Unk(reason));
    }

    method SetStack(cell: Cell, value: Value)
      modifies this
      ensures View() == old(View()).WithSlot(cell, value)
    {
      stack := stack[cell := value];
    }
  }
}
