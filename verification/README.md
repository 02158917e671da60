# Static value analysis for x86 code: a verified model

The repository finds out what value a register, a memory cell or a call's argument has at a
point of an x86 function. It has two dataflow engines over one instruction model, one value
lattice and one set of rules per instruction form:

* a **forward** engine, a worklist fixpoint over the control-flow graph that starts from an
  argument's register and carries abstract states from block to block;
* a **backward** resolver, a recursive walk from a use to its definitions that is driven by
  demand and bounded by one shared budget.

This project models both, with the parts they rest on, and proves what they are for: an answer
is never a guess, and what every path agrees on is answered. It is laid out as the program is.

| files | content |
|---|---|
| `Values`, `Merge`, `InsnModel`, `Port`, `MemoryImage`, `FakePort`, `InsnCache`, `State` | values and their join, decoded instructions, the disassembler and the graph it reports, the bytes of the image, the in-memory port that specifies it, the decode cache, abstract states |
| `Arithmetic`, `Locators`, `Registry`, `Meanings`, `Addressing`, `Addresses`, `StackEffects` | wrapping, the rules per instruction form in both directions, their dispatch, the one table both directions follow, the names of memory cells, the addresses those names stand for, what instructions do to the stack without naming it |
| `Machine`, `Progress` | a concrete machine: fixed-width registers read and written through their views, memory cells, writes that no operand names, runs through the graph; and that every supported instruction can be executed |
| `ForwardSpec`, `ForwardStep`, `ForwardFixpoint`, `ForwardSoundness`, `ForwardPrecision`, `ForwardCompleteness`, `Widening`, `StackSlots`, `NoStaleBits`, `ForwardEngine` | the worklist semantics, its soundness over all runs, the post-fixpoint and how exact it is, what is sure to be answered, both termination arguments, what states keep, and the engine as an object proved equal to the semantics |
| `BackwardSpec`, `Decisions`, `BackwardBudget`, `ReachingDefs`, `BackwardSoundness`, `StaticMemory`, `BackwardEngine` | the budgeted walks, exactly what they pass by, independence of the budget, walks against paths, soundness over all runs, memory that no path writes, and the resolver as an object proved equal to the semantics |
| `Agreement`, `Folding` | the two engines against each other, and exact modular folding in both |
| `Conventions`, `PushSequence`, `Balance`, `Arguments`, `Facade` | the layout of conventions, arguments passed by push, by register and by stack offset, up to the word the callee receives, and when the push scan keeps its promise |
| `Skips`, `EntryEdges`, `Widths`, `ConditionalMoves`, `Limits` | guarantees that fail, and the exact conditions under which they hold |
| `Programs`, `Unseen`, `Parts`, `VisitCap`, `Diamond`, `ReturnedValue`, `OverflowArguments` | concrete programs on the in-memory port: the inputs on which those guarantees fail, programs that meet all the hypotheses, and answers to typical queries |

## How it is modelled

The port is a record of total functions, so that one query sees one program. Each engine is
given twice: as functions (`ForwardSpec`, `BackwardSpec`) about which the theorems are proved,
and as classes with the source's fields, loops and in-place updates (`ForwardEngine`,
`BackwardEngine`), each method of which is proved to do what the function says. The budget of
the backward resolver is an object there and an argument and a result in the functions.

The register walk and the memory walk differ in what counts as a definition and in what
reaching the entry means, so they are one walk for a `Target`. A locator calls back into the
resolver at most once, so a backward `extract` is a `Plan`: the one callback and how its answer
is folded. The detail of an `Unknown` is kept as structure for joins, because the forward engine
compares whole states; other details are left blank. The expressions `arg<i>` and `ret(<ea>)`
are constructors. Integers are unbounded as in the source, and every wrap is written out.

The machine names memory cells by region and offset: the stack and frame pointers, absolute
addresses, other base registers and segments are separate regions, which is the approximation
the source documents. Within a region the names are checked against addresses:
`Addresses.OneCellIsOneAddress` compares them with base register plus displacement as the
processor adds them, modulo the address space. A write that defines only part of a register leaves the register
unspecified. An instruction without a rule may write anything its operand flags say it writes.
Beyond the flags, an instruction may write what `Machine.HiddenlyWrites` says: a push fills the
word below the stack pointer and moves it, other stack instructions the same or more, a call
leaves only the caller's frame alone (`Machine.CallerFrame`), `mul`, `cdq`, string instructions
and their like write registers they do not name, and once a base register is written its cells
have other names. The engines look at the flags alone.

## What the theorems assume

Every hypothesis is a named predicate.

* `Port.DecodesInPlace`: an instruction is decoded at its own address, has a length, and no
  other starts inside it.
* `Machine.LayoutContract`: views of one register agree on parent and size, and a write defines
  the parent only through the parent's own number. `FakePort.FakePortKeepsItsPromises` shows
  that the repository's in-memory port meets both of these.
* `Machine.GraphContract`: block starts are unique and every edge is listed at both of its ends.
  Edges back to the entry are allowed.
* For the forward engine, `ForwardSoundness.Trusted`: the queried register can be trusted at the
  target. Trust is a set of locations before every address of a block. It follows the edges; it
  passes an instruction only for locations the instruction does not write unseen and that are
  computed from trusted ones; where an instruction is not `Machine.Supported` and
  `ForwardStep.ForwardSupported`, only for locations it leaves alone; and it includes the seed on
  entry only if no instruction on a cycle through the entry writes it. So an instruction the
  rules do not fit spoils what depends on it and nothing else.
* For the backward resolver, `BackwardSoundness.BackwardHypotheses` (the port and graph
  conditions, and that every address of a block belongs to the function and to that block alone)
  and `BackwardSoundness.Clear`: on every path from the query back to a definition no instruction
  that is passed by writes the target unseen, the definition itself is `Machine.Supported` and
  `Machine.MemorySupported`, a path back to the entry without a definition ends where nothing
  precedes, and the same holds of all that the definitions' locators ask in turn. Queries name
  whole registers. For symbols, `ClearOfSums`: besides, no addition or subtraction of a constant
  is among the definitions.
* `Addresses.StackAsTold`: the stack pointer stands as far from where it stood on entry as the
  stack deltas say. Only what compares cells with addresses assumes it.
* `Machine.Supported`: operands as the decoder promises them (`WellDecoded`), flags of the
  instruction's form (`FlagsFit`), register sources whole and constants that fit (`WidthsFit`).
  `Machine.MemorySupported` and the corresponding part of `ForwardSupported`: a load or store
  that names one cell, and whose value is taken over, moves a whole word. So `movzx` and narrow
  loads are excluded where they define what is asked for, and nowhere else;
  `Unseen.NarrowLoadIsTakenWhole` shows what becomes of one.
* That no visit was skipped because of the visit cap, which `Widening.Enough` discharges.

The forward hypotheses can be met together (`VisitCap.ForwardHypothesesCanBeMet`), and so can the
backward ones (`Unseen.BackwardHypothesesCanBeMet`, `ReturnedValue.ReturnedValueIsAnswered`).
Without what they ask, an answer can be wrong; beside each input that shows it stands the lemma
with the exact condition:

| without | a wrong answer | exactly right when |
|---|---|---|
| enough visits | `VisitCap.CappedAnswersCanBeWrong` | no condition beyond a sufficient cap is proved |
| quiet pushes | `Unseen.PushIsPassedBy` | `Skips.PushesAreSkippedExactly` |
| cells in the caller's frame across calls | `Unseen.CallIsPassedBy` | `Skips.CallsAreSkippedExactly` |
| base registers that stay | `Unseen.RebaseIsPassedBy` | `Skips.BasesAreMatchedExactly` |
| any other unseen write | `Skips.HiddenWriteHappens` | `Skips.SkipsAreRightExactly` |
| a seed that survives, forward | `EntryEdges.SeedIsAnsweredOnReturn` | `EntryEdges.SeedSurvivesExactly` |
| a first entry, backward | `EntryEdges.EntryIsAnsweredFromTheBackEdge` | `EntryEdges.ConstantsHoldExactly` |
| register sources that are whole | `Parts.PartsAreReadWhole` | `Widths.MovesPassExactlyTheWideSources` |
| queries of whole registers | `Parts.PartsAreReadWhole`, `Limits.LowByteIsTakenForHigh` | `Widths.PartsAreAnsweredWithTheWhole`, `Limits.CoverageIsTestedOnlyFromBitZero` |
| loads of whole words | `Unseen.NarrowLoadIsTakenWhole` | `Widths.LoadsPassExactlyWholeWords` |
| conditional moves between registers, forward | `ConditionalMoves.CmovIsTakenForItsBase` | `ConditionalMoves.CmovsAreRightExactly` |
| stores that write one place, forward | `Limits.XchgWithMemoryKeepsTheOldValue` | `Limits.StoresForgetOnlyPartialWrites` |
| plain moves on the load path, forward | `Limits.ImulIsTakenForALoad` | the same lemma, for `imul` |
| constants only, backward | `Limits.SymbolsSurviveOnlyZeroSums` | the same lemma |
| a balanced stretch before the call | `Balance.LeaveIsPassedOver` | `Balance.SlotsMatchExactlyWhenBalanced` |

## Where code and documentation disagree

The model follows the code.

* `src/idanalysister/core/engine_backward.py:451-454` says that a stack reference without a known delta matches nothing,
  including itself. Round a loop it matches itself (`Limits.UnknownDeltaMatchesItself`).
* `src/idanalysister/core/engine_backward.py:163-171` says that the push scan skips only what does not touch the stack
  pointer. It looks at operands, so it also skips `pop`, `leave`, `pushfd` and the like
  (`Balance.PopsAreTransparent`, `Balance.LeaveIsPassedOver`).
* `src/idanalysister/core/state.py:24` calls the keys of the tracked stack frame-relative offsets. They are pairs of a
  region and an offset.
* `src/idanalysister/locators/register_locators.py:136-149` is about `cmov reg, reg2`, but its test leaves the kind of the
  source open (`ConditionalMoves.CmovIsTakenForItsBase`).

## Model

| member | source | states |
|---|---|---|
| `ForwardSoundness.ForwardAnswersAreSound` | src/idanalysister/core/engine_forward.py:81-156 | for a register that can be trusted at the target, and with no visit skipped, every run from the entry to the target, round loops any number of times and back through the entry too, has a constant answer in the register; `arg i` is what it held on entry, `ret(ea)` a value some executed call at `ea` returned |
| `Widening.UncappedAnswersAreSound` | src/idanalysister/core/engine_forward.py:81-156 | the same without assuming that no visit was skipped: the visit cap only has to be as large as `Enough`, a number computed from the query and the graph |
| `VisitCap.CappedAnswersCanBeWrong` | src/idanalysister/core/engine_forward.py:117-118 | with one visit per block and every other hypothesis met, a concrete two-block loop is answered 1 where a run holds 2 |
| `VisitCap.ForwardHypothesesCanBeMet` | src/idanalysister/core/engine_forward.py:117-118 | the same program with the cap raised to `Enough` meets every hypothesis of both forward theorems at once, and has a run to the target |
| `ForwardSoundness.InStateDescribesEntry` | src/idanalysister/core/engine_forward.py:110-134 | wherever a run enters a block, the in-state stored for the block describes the machine at every location trusted there |
| `ForwardSoundness.SimulationIsSound` | src/idanalysister/core/engine_forward.py:193-215 | simulating a block, or the part of it before the target, describes every execution of the same addresses at every location trusted afterwards |
| `ForwardSoundness.CyclesKeepTheSeed` | src/idanalysister/core/engine_forward.py:159-161 | a location that no instruction on a cycle through the entry writes still holds its first value whenever a run comes back to the entry |
| `ForwardStep.StepIsSound` | src/idanalysister/core/engine_forward.py:218-240 | one step carries the description of the machine across one execution, for every location the instruction does not write unseen |
| `ForwardStep.TransferIsSound` | src/idanalysister/core/engine_forward.py:242-274 | whichever of the five ways a transfer takes, it owes a right description of every register that is not partially written and of every slot, unless written unseen |
| `ForwardStep.CallIsSound` | src/idanalysister/core/engine_forward.py:276-290 | a call keeps what was known of preserved registers and tracked cells and names the return value |
| `Decisions.CallsAreSteppedExactly` | src/idanalysister/core/engine_forward.py:276-290 | forward, a call names what it returns, gives up exactly what it clobbers, and keeps every other register and every slot |
| `Decisions.CmovsAreSteppedExactly` | src/idanalysister/locators/register_locators.py:158-167 | forward, a conditional move leaves a constant or symbol if and only if both operands hold it |
| `ForwardStep.StoreIsSound` | src/idanalysister/core/engine_forward.py:306-321 | a store leaves the stored value in its cell, and every cell it may alias unknown |
| `ForwardStep.LoadIsSound` | src/idanalysister/core/engine_forward.py:323-339 | a plain load takes over what is known of its cell |
| `Decisions.LastMemoryOperandIsTaken` | src/idanalysister/core/engine_forward.py:255-265 | of several written (or unwritten) memory operands the last is taken |
| `ForwardStep.InvalidationIsSound` | src/idanalysister/core/engine_forward.py:299-304 | an instruction without a rule leaves nothing known of the registers it writes |
| `ForwardStep.PartialWritesAreDropped` | src/idanalysister/core/engine_forward.py:222-240 | after the step, exactly the registers written in part, and their parents, are unknown for that reason; all others are as the transfer left them |
| `ForwardStep.WrittenRegistersAreDropped` | src/idanalysister/locators/base.py:118-134 | the inherited rule makes exactly the written registers unknown |
| `ForwardFixpoint.WorklistEndsInPostFixpoint` | src/idanalysister/core/engine_forward.py:110-134 | if nothing was skipped or exceeded, the loop ends with the entry and all it leads to simulated, every out-state the simulation of its in-state, and every in-state at or above the join of all its predecessors |
| `ForwardFixpoint.TurnKeepsInvariant` | src/idanalysister/core/engine_forward.py:111-134 | whatever block a turn visits, every edge out of a simulated block is still queued or already accounted for, although joins were partial and repeats skipped |
| `ForwardFixpoint.JoinIsAbove` | src/idanalysister/core/engine_forward.py:168-180 | the joined state is at or above each state joined, location by location |
| `ForwardFixpoint.JoinIsBelow` | src/idanalysister/core/engine_forward.py:168-180 | and it is the least such state |
| `ForwardPrecision.PredecessorsAreJoinedExactly` | src/idanalysister/core/engine_forward.py:159-166 | what a visit joins is at or above the out-state of every predecessor simulated so far and at or below every other state that is; there is none exactly when none was |
| `ForwardPrecision.FixpointIsExact` | src/idanalysister/core/engine_forward.py:110-134 | where the loop ends, every stored in-state but the entry's equals the join of its predecessors' out-states at every location, but for locations widened in a block visited more often than widening waits for |
| `ForwardPrecision.AgreedValueIsStored` | src/idanalysister/core/engine_forward.py:159-166 | a value that the out-states of all simulated predecessors hold at a location is in the stored in-state, unless widened there |
| `ForwardCompleteness.WantedIsStored` | src/idanalysister/core/engine_forward.py:110-134 | if values are wanted at the starts of some blocks, the seed having them at the entry and every reachable predecessor handing on what is wanted at its successor, the loop stores them all: no merge, widening or order of visits loses them |
| `ForwardCompleteness.WantedIsAnswered` | src/idanalysister/core/engine_forward.py:81-156 | and the value that they come to before the target is the answer |
| `ForwardCompleteness.ArgumentIsAnswered` | src/idanalysister/core/engine_forward.py:81-156 | an argument register that no block between the entry and the target touches is answered `arg i` at every reachable target, whatever branches, merges and loops lie between and whatever is written elsewhere |
| `ForwardCompleteness.UnreachableIsNotAnswered` | src/idanalysister/core/engine_forward.py:145-147 | a target that no path from the entry leads to is answered that no definition was found |
| `Diamond.ArgumentSurvivesTheMerge` | src/idanalysister/core/engine_forward.py:159-166 | an argument carried round both arms of an if/else is answered where they meet |
| `Decisions.UnanswerableQueriesAreNamed` | src/idanalysister/core/engine_forward.py:81-100 | forward queries without a register, without their blocks, or whose fixpoint was cut short are answered with those reasons |
| `ForwardFixpoint.WidenIsAbove` | src/idanalysister/core/engine_forward.py:182-191 | widening only loses information |
| `ForwardSpec.TurnDecreases` | src/idanalysister/core/engine_forward.py:111-134 | for any graph, decoder and cap, a turn uses up an allowed visit or shortens the worklist |
| `Widening.WideningAloneTerminates` | src/idanalysister/core/engine_forward.py:122-135 | for every visit cap the worklist empties, or the budget stops it, within a number of turns that does not depend on the cap |
| `Widening.TurnBringsTheEndNearer` | src/idanalysister/core/engine_forward.py:122-135 | every turn lowers one bound on the turns still to come, made of the visits before widening and of what each in-state can still lose |
| `Widening.WideningLoses` | src/idanalysister/core/engine_forward.py:182-191 | a widened in-state is the same or has a location less to introduce or to give up |
| `Widening.UniverseCovers` | src/idanalysister/core/engine_forward.py:182-191 | the locations a function can come to track are finitely many: the seed, the calls and the operands of its blocks name them all |
| `Widening.LargeCapNeverFires` | src/idanalysister/core/engine_forward.py:117-118 | a visit cap at or above the bound never skips a visit |
| `Widening.LargeLimitsSuffice` | src/idanalysister/core/engine_forward.py:110-134 | with the cap at `Enough` and that many times the longest block for a budget, the loop empties its worklist, skips nothing, and no answer is refused |
| `ForwardEngine.ForwardSymbolicEngine.ResolveAt` | src/idanalysister/core/engine_forward.py:81-156 | the object, with its worklist, maps of stored states and instruction cache, answers exactly what the worklist semantics answers |
| `ForwardEngine.ForwardSymbolicEngine.RunWorklist` | src/idanalysister/core/engine_forward.py:110-134 | the loop ends with the in-states of the fixpoint and its budget verdict |
| `ForwardEngine.ForwardSymbolicEngine.VisitBlock` | src/idanalysister/core/engine_forward.py:116-134 | one visit is one turn of the semantics: skipped, or stored, simulated and queued |
| `ForwardEngine.ForwardSymbolicEngine.JoinPredecessorStates` | src/idanalysister/core/engine_forward.py:159-166 | the entry starts from the seed, another block from a new state that holds the join of the simulated predecessors' states; that this is their least upper bound is `ForwardPrecision.PredecessorsAreJoinedExactly` |
| `ForwardEngine.ForwardSymbolicEngine.JoinAvailable` | src/idanalysister/core/engine_forward.py:168-180 | a new state that joins the given ones location by location |
| `ForwardEngine.ForwardSymbolicEngine.WidenStates` | src/idanalysister/core/engine_forward.py:182-191 | a new state that keeps what did not change and gives up the rest |
| `ForwardEngine.ForwardSymbolicEngine.SimulateBlock` | src/idanalysister/core/engine_forward.py:193-215 | works on a copy: the stored in-state reads as before, and the copy ends as the semantics says, budget included |
| `ForwardEngine.ForwardSymbolicEngine.StepInPlace` | src/idanalysister/core/engine_forward.py:218-220 | updates the state in place to the step of the semantics |
| `ForwardEngine.ForwardSymbolicEngine.TransferInPlace` | src/idanalysister/core/engine_forward.py:242-274 | takes the same of the five ways as the semantics and leaves the state it says |
| `ForwardEngine.ForwardSymbolicEngine.ApplyMemoryStore` | src/idanalysister/core/engine_forward.py:306-321 | updates one slot, or gives up all slots for a stack-relative address that is not fixed |
| `ForwardEngine.ForwardSymbolicEngine.ApplyMemoryLoad` | src/idanalysister/core/engine_forward.py:323-339 | updates the destination register from the slot or gives it up |
| `StackSlots.StoredValueIsLoadedBack` | src/idanalysister/core/engine_forward.py:306-339 | a store to a slot and a later load of it give back what was stored, whatever code lies between that cannot have written the slot |
| `StackSlots.UnsureStoresAreForgotten` | src/idanalysister/core/engine_forward.py:306-321 | a store whose operand is read as well, or whose read flags are missing, leaves its slot unknown |
| `StackSlots.UnsureLoadsAreForgotten` | src/idanalysister/core/engine_forward.py:323-339 | and such a load its register |
| `NoStaleBits.KnownRegistersWereWrittenWhole` | src/idanalysister/core/engine_forward.py:218-240 | after any instructions, a known value sits under a whole register and is the one left by the last instruction to touch that register, which wrote all of it, or the one it started with |
| `NoStaleBits.TouchedIsWholeOrLost` | src/idanalysister/core/engine_forward.py:222-240 | an instruction that touches a register loses its value unless it writes all of it; a number that names only a part never gains a value |
| `Addressing.StackKey` | src/idanalysister/core/engine_forward.py:362-382 | a key, where there is one, is the cell of a frame region that the backward engine gives the operand; which operands have one, and which share one, is `Addresses.OneSlotIsOneAddress` |
| `Addresses.OneCellIsOneAddress` | src/idanalysister/core/engine_backward.py:436-459 | two operands without an index are given one cell if and only if they are relative to one base (the stack pointer at told distances, an unchanged register, or nothing) in one segment, and base plus displacement is one address, less than the whole address space apart |
| `Addresses.RegionsAreBases` | src/idanalysister/core/engine_backward.py:436-459 | two operands are given one region if and only if they have one base register and one segment; the stack pointer without a told distance has a region at each instruction |
| `Addresses.OperandIsAtItsCell` | src/idanalysister/core/engine_backward.py:449-459 | counted from where the region begins, the cell an operand is given lies at the address the processor computes, if the stack pointer stands where the stack deltas say |
| `Addresses.OneSlotIsOneAddress` | src/idanalysister/core/engine_forward.py:362-382 | the forward engine tracks exactly the operands at a told distance from the stack pointer or relative to the frame pointer, with neither index nor segment, and two of them as one slot if and only if they point to one address off one register |
| `Addresses.PushKeepsTheStackAsTold` | src/idanalysister/core/engine_backward.py:436-459 | a push keeps the stack deltas true if the next is one word less, and its word lies where the stack pointer then points |
| `BackwardSoundness.RegisterIsSound` | src/idanalysister/core/engine_backward.py:195-261 | a constant answer to a clear query is what the register holds in every run to the queried point |
| `BackwardSoundness.ReturnValueIsSound` | src/idanalysister/core/engine_backward.py:195-261 | `ret(ea)`, answered for a query that comes back to no addition or subtraction, is a word that the call at `ea` returned, in every run to the queried point |
| `BackwardSoundness.CallIsAnsweredByItsSymbol` | src/idanalysister/locators/call_return_locators.py:30-34 | a call defines the register it returns in and is interpreted as its own symbol |
| `ReturnedValue.ReturnedValueIsAnswered` | src/idanalysister/core/engine_backward.py:263-272 | `call f; mov rcx, rax` meets the hypotheses, and `rcx` is answered `ret` of the call |
| `BackwardSoundness.MemoryIsSound` | src/idanalysister/core/engine_backward.py:320-434 | a constant answer to a clear query is what the cell holds in every run to the queried point, for stack, frame and absolute cells and for register-relative ones whose base is not written in between |
| `StaticMemory.UnwrittenMemoryIsStatic` | src/idanalysister/core/engine_backward.py:154-160 | a reference that no path writes, whose base is absent or resolves to a constant, is answered with its address and the little-endian integer that the bytes there spell, or with the failed read if one is missing |
| `StaticMemory.LoadsReadTheirOperand` | src/idanalysister/locators/memory_locators.py:23-35 | a `mov`, `movzx`, `movsx` or `movsxd` from such memory reads at its operand's own address as many bytes as the operand is wide, or a pointer if it is not sized |
| `StaticMemory.SearchFindsNoWrite` | src/idanalysister/core/engine_backward.py:358-398 | a granted search for a cell that no path writes finds nothing, whatever joins and cycles the graph has |
| `StaticMemory.UnwrittenMemoryFallsBack` | src/idanalysister/core/engine_backward.py:320-339 | and the query is answered by the fallback read on what budget is left |
| `StaticMemory.UnknownBasesAreNotRead` | src/idanalysister/core/engine_backward.py:464-471 | through a base register that holds no constant nothing is read |
| `Unseen.BackwardHypothesesCanBeMet` | src/idanalysister/core/engine_backward.py:142-144 | a store and a load with a bystander between meet every hypothesis of the backward theorem at once, with a constant for an answer and a run to the queried point |
| `BackwardSoundness.SearchHolds` | src/idanalysister/core/engine_backward.py:225-261 | the walk answers the value of the definition that the run executed last, whichever path it took |
| `BackwardSoundness.EveryRunHasAnOrigin` | src/idanalysister/core/engine_backward.py:225-261 | every run got the value from a last definition, or came from the entry without one, at the end of a path of the graph, and nothing on a quiet path changed it since |
| `BackwardSoundness.SkippedKeepsTheValue` | src/idanalysister/core/engine_backward.py:263-308 | an instruction the walk passes over and that writes nothing unseen leaves the register, or the cell, as it was |
| `BackwardSoundness.RegisterPlanHolds` | src/idanalysister/core/engine_backward.py:483-491 | what a locator asks for at a register definition, folded as it folds it, is the word the instruction leaves there |
| `BackwardSoundness.CellPlanHolds` | src/idanalysister/core/engine_backward.py:400-434 | what a locator asks for at a store is the word the store leaves in the cell |
| `BackwardSoundness.InterpretationHolds` | src/idanalysister/core/engine_backward.py:483-491 | a constant, or where no sum passed it on the symbol of a call, that a definition is interpreted to is what executing it leaves in the target |
| `Meanings.InterpretationFollowsTheTable` | src/idanalysister/core/engine_backward.py:483-492 | with all built-in locators registered, in any order, every instruction is interpreted as one table by mnemonic and operand kinds says: a value, a register's value, it moved by a constant modulo the width, or memory |
| `Meanings.AddressIsAnsweredByTheTable` | src/idanalysister/core/engine_backward.py:474-481 | asked at an address, the resolver answers the instruction there by the table, and has no answer where nothing decodes |
| `Meanings.ForwardFollowsTheTable` | src/idanalysister/core/engine_forward.py:252-260 | and the forward rules leave in a register written whole what the same table says, over the state before |
| `Decisions.SkipsExactlyWhatIsNotWritten` | src/idanalysister/core/engine_backward.py:263-308 | the walk passes by an instruction if and only if neither its operands nor a call say that it may write the target |
| `Decisions.RegistersAreDecidedExactly` | src/idanalysister/core/engine_backward.py:263-308 | a call defines its return register and settles what it clobbers; a single write of a register defines it if it writes all of it and settles it otherwise |
| `Decisions.ClobberedPartsAreSettled` | src/idanalysister/core/engine_backward.py:310-317 | a call settles a register, or a part of one, if and only if it clobbers what that is part of |
| `Decisions.CellsAreDecidedExactly` | src/idanalysister/core/engine_backward.py:400-434 | a single write that may land on a cell defines it, or settles it if it is indexed |
| `Decisions.SearchWithoutABlock` | src/idanalysister/core/engine_backward.py:212-223 | where no block holds the use, the search answers the last definition between the function's start and the use, or that there is none |
| `Decisions.PathsAreCombinedExactly` | src/idanalysister/core/engine_backward.py:384-398 | if some paths write the cell and some do not, they diverge; if all that close no cycle do, a constant or symbol is answered exactly when each comes to it |
| `Decisions.SpentBudgetsAreNamed` | src/idanalysister/core/engine_backward.py:154-156 | a query on a spent budget is refused as such, whatever it is about |
| `ReachingDefs.CycleDroppingLosesNothing` | src/idanalysister/core/engine_backward.py:225-261 | the definitions, and the entry, at which the walk stops are exactly those some path of any length leads back to, although every path that closes a cycle is dropped |
| `ReachingDefs.PathReachesLeaf` | src/idanalysister/core/engine_backward.py:250-261 | a path that comes back to a block can be cut short and still leads to the same definition |
| `ReachingDefs.ScanStopsAtLastDef` | src/idanalysister/core/engine_backward.py:234-243 | within a block the scan stops at the last definition, or when a step is refused |
| `ReachingDefs.WalkAccountsForEveryPath` | src/idanalysister/core/engine_backward.py:225-261 | the definition at the end of any path is joined into a known answer, and a path from the entry is never joined into one |
| `ReachingDefs.PartlyDefinedIsUnknown` | src/idanalysister/core/engine_backward.py:387-398 | a location defined on one path to the use and not on another is answered unknown |
| `StaticMemory.UndefinedRegisterIsNotFound` | src/idanalysister/core/engine_backward.py:195-261 | a register that no path to the use defines is answered that no definition was found, whatever the graph |
| `ReachingDefs.WalkAnswersOnlyFromLeaves` | src/idanalysister/core/engine_backward.py:250-261 | unless a step is refused, the answer says no less than what those definitions have in common, and is a closed cycle only if there are none |
| `BackwardBudget.KnownAnswersIgnoreTheBudget` | src/idanalysister/core/engine_backward.py:103-120 | a register query that answers a known value was refused neither a step nor a block and answers the same under every larger pair of limits |
| `BackwardBudget.KnownMemoryAnswersIgnoreTheBudget` | src/idanalysister/core/engine_backward.py:320-339 | the same of a memory query, its fallback read included |
| `BackwardBudget.InterpretIsStable` | src/idanalysister/core/engine_backward.py:483-491 | no locator turns the unknown of a refused step back into a known value |
| `BackwardBudget.CombineIsFirm` | src/idanalysister/core/engine_backward.py:253-261 | nor does a join |
| `BackwardBudget.QueriesAreMetered` | src/idanalysister/core/engine_backward.py:103-120 | one query decodes and reads at most `max_steps` times and expands at most `max_blocks` blocks, on every graph |
| `BackwardSpec.Walk` | src/idanalysister/core/engine_backward.py:225-261 | the mutual recursion of walks and locators ends on every graph, spends from one budget, and keeps its decodes, reads and expansions within the limits |
| `BackwardSpec.Interpret` | src/idanalysister/core/engine_backward.py:483-491 | so does the interpretation of a definition, wherever the walk was when it met it |
| `BackwardEngine.ResolutionBudget.Step` | src/idanalysister/core/engine_backward.py:114-116 | counts a step and grants it while the limit lasts |
| `BackwardEngine.ResolutionBudget.StepBlock` | src/idanalysister/core/engine_backward.py:118-120 | counts a block and grants it while the limit lasts |
| `BackwardEngine.BackwardResolver.ResolveRegister` | src/idanalysister/core/engine_backward.py:142-144 | a fresh budget, and then exactly the answer of the budgeted semantics |
| `BackwardEngine.BackwardResolver.ResolveMemory` | src/idanalysister/core/engine_backward.py:146-148 | a fresh budget, and then exactly the answer of the budgeted semantics |
| `BackwardEngine.BackwardResolver.ResolveAtInstruction` | src/idanalysister/core/engine_backward.py:474-481 | a fresh budget, and then the interpretation of the instruction itself |
| `BackwardEngine.BackwardResolver.Dereference` | src/idanalysister/core/engine_backward.py:154-160 | one step and one read; which bytes are read is `StaticMemory.UnwrittenMemoryIsStatic` |
| `BackwardEngine.BackwardResolver.ResolveRegisterImpl` | src/idanalysister/core/engine_backward.py:195-210 | the shared budget ends where the semantics leaves it |
| `BackwardEngine.BackwardResolver.ResolveMemoryImpl` | src/idanalysister/core/engine_backward.py:320-339 | writes shadow the static bytes: memory is read only when no path has a write |
| `BackwardEngine.BackwardResolver.FallbackDereferenceImpl` | src/idanalysister/core/engine_backward.py:464-471 | an absolute address is read, a based one only if its base is a constant |
| `BackwardEngine.BackwardResolver.ScanBack` | src/idanalysister/core/engine_backward.py:212-223 | the loop over instruction heads, last to first, answers as the semantics does and spends the same budget |
| `BackwardEngine.BackwardResolver.WalkBlock` | src/idanalysister/core/engine_backward.py:225-261 | scan, then cycle, then entry, then budget, then the predecessors, in that order |
| `BackwardEngine.BackwardResolver.WalkPredecessors` | src/idanalysister/core/engine_backward.py:250-253 | walks the predecessors in order on what budget the earlier ones left |
| `BackwardEngine.BackwardResolver.CombineResults` | src/idanalysister/core/engine_backward.py:384-398 | cycles are dropped, a cell written on some paths only is divergent, the rest is joined; that no write at all is no answer is `StaticMemory.SearchFindsNoWrite` |
| `BackwardEngine.BackwardResolver.InterpretDefinition` | src/idanalysister/core/engine_backward.py:483-491 | dispatches to a locator, makes the one callback it asks for and folds the answer |
| `BackwardEngine.BackwardResolver.FuncEaFor` | src/idanalysister/core/engine_backward.py:511-516 | the memo of function starts never answers other than the port |
| `BackwardEngine.BackwardResolver.CfgFor` | src/idanalysister/core/engine_backward.py:518-523 | nor does the memo of graphs |
| `BackwardEngine.BackwardResolver.CollectPushSequence` | src/idanalysister/core/engine_backward.py:162-192 | the pushes before the call, oldest first, within both caps |
| `BackwardEngine.BackwardResolver.PushesBefore` | src/idanalysister/core/engine_backward.py:176-191 | the scan itself, nearest push first |
| `Agreement.EnginesAgreeOnStraightLines` | src/idanalysister/core/engine_forward.py:193-304 | up to any point of a straight-line block that nothing leads to, the backward walk answers a constant for a whole register exactly when forward simulation from the empty state does, and the same one |
| `Agreement.StretchesAgree` | src/idanalysister/locators/base.py:107-134 | without budgets: over any sequence of such instructions both directions give the same constant or neither gives one |
| `Agreement.InstructionStepsAlike` | src/idanalysister/locators/base.py:107-134 | for each instruction, what `extract` asks of the values before it is what `apply_forward` leaves after it |
| `Agreement.ResolveIsBackward` | src/idanalysister/core/engine_backward.py:195-210 | two steps for every instruction head and one more are enough for the walk to follow its chain to the end |
| `Folding.ChainsFoldExactly` | src/idanalysister/locators/arithmetic_locators.py:49-106 | in both engines a chain of `add`, `sub` and `lea [base+disp]` of any length on a constant gives (start + sum of the signed amounts) modulo two to the width |
| `Folding.ForwardFoldsTheChain` | src/idanalysister/locators/arithmetic_locators.py:59-106 | the forward rules wrap at every step and the result is as if wrapped once |
| `Folding.EveryReadingFoldsAlike` | src/idanalysister/adapters/ida_operand_decode.py:92-111 | unsigned bit patterns, sign-extended integers and amounts as decoded all fold to the same word |
| `PushSequence.PushArgumentsMatchTheStack` | src/idanalysister/core/engine_backward.py:162-192 | the argument taken from push position k is resolved at the push that put the word k places above the stack pointer at the call, and at none only if fewer words were pushed |
| `PushSequence.PushedWordsAreOnTheStack` | src/idanalysister/core/engine_backward.py:162-192 | executing pushes and whatever the scan may pass that keeps them, word k above the stack pointer is the k-th pushed from the end |
| `Decisions.TransparentExactly` | src/idanalysister/core/engine_backward.py:46-65 | the push scan passes exactly the instructions that transfer no control and whose operands write neither the stack pointer nor a cell of its region |
| `PushSequence.ScanIsLongest` | src/idanalysister/core/engine_backward.py:162-192 | heads are passed if and only if they run down from the call without one that may not be, and all but the last hold fewer than 64 pushes and fewer than 16 others |
| `PushSequence.PushesUnderTheCapsAreFound` | src/idanalysister/core/engine_backward.py:162-192 | pushes that run up to the call under those caps are all found, each at its position counted from the call |
| `Conventions.Slots` | src/idanalysister/conventions/templates.py:33-48 | the named registers come first, in their order; then push positions from 0 up, or an offset at `stackBaseOffset` and each next one `stackArgSize` above it |
| `Arguments.ArgumentIsSound` | src/idanalysister/api/facade.py:185-201 | a constant resolved for an argument by clear queries is the word the convention's own layout gives the callee in every run to the call: the named register, the k-th word above the stack pointer, or the word `stackBaseOffset` and k times `stackArgSize` above it |
| `Arguments.AboveTheStackIsAbove` | src/idanalysister/api/facade.py:196-201 | the cell of an argument at an offset lies that far above the stack pointer, if the stack deltas are true |
| `Arguments.OffsetsAreOnTheStackExactly` | src/idanalysister/api/facade.py:196-201 | it is looked for on the stack if and only if the port knows a stack pointer, and at an absolute address otherwise |
| `OverflowArguments.OverflowArgumentsAreAnswered` | src/idanalysister/conventions/templates.py:67-73 | after `mov [rsp+20h], 5; mov [rsp+28h], 6` the fifth and sixth arguments of a Microsoft x64 call are answered 5 and 6 |
| `OverflowArguments.UnwrittenArgumentIsStatic` | src/idanalysister/api/facade.py:196-201 | an argument at an offset for which nothing was stored, with a constant stack pointer, is answered with the pointer-sized word of static memory there |
| `Arguments.SlotsWithoutAnswer` | src/idanalysister/api/facade.py:185-195 | a register name the port does not know, and a push position beyond the pushes found, are answered with their reasons |
| `Arguments.PushOperandIsSound` | src/idanalysister/locators/stack_locators.py:24-40 | resolving at a push answers the operand's word in every run that reaches it |
| `Facade.ParamExtractor.ResolveSlot` | src/idanalysister/api/facade.py:185-201 | every kind of slot is resolved by its own query with a fresh budget |
| `Facade.ParamExtractor.ExtractOneCall` | src/idanalysister/api/facade.py:153-161 | every argument of the call in order, the push scan made only when some argument was pushed |
| `Balance.SlotsMatchExactlyWhenBalanced` | src/idanalysister/core/engine_backward.py:162-192 | whatever was pushed and whatever else the stack effects of the passed instructions put there, word k above the stack pointer is the k-th pushed from the end if and only if what follows a push gives back what it takes, never takes the stack pointer above the push, and does not set it from elsewhere |
| `Balance.ScannedSlotsMatchExactly` | src/idanalysister/core/engine_backward.py:162-192 | the same for what the scan passes over before a call of a function |
| `Balance.LeaveIsPassedOver` | src/idanalysister/core/engine_backward.py:46-65 | the scan passes over `leave`, and `push` followed by `leave` breaks the promise |
| `Balance.FlagsMustBeGivenBack` | src/idanalysister/core/engine_backward.py:46-65 | `pushfd` after a push breaks the promise and `popfd` restores it |
| `Balance.BareInstructionsAreTransparent` | src/idanalysister/core/engine_backward.py:46-65 | an instruction without operands that is no control transfer is passed over, whatever it does to the stack |
| `Balance.PopsAreTransparent` | src/idanalysister/core/engine_backward.py:46-65 | a `pop` of another register is passed over |
| `Merge.JoinLaws` | src/idanalysister/core/merge.py:26-49 | idempotent, commutative and associative up to the reason of an unknown and the `via` of a mutated region, at any depth of memory references |
| `Merge.JoinIsLeastUpperBound` | src/idanalysister/core/merge.py:26-49 | an upper bound of both values and below every other |
| `Merge.JoinAllIsLeastUpperBound` | src/idanalysister/core/merge.py:52-59 | the least value that claims no more than any of the inputs |
| `Merge.JoinAllDependsOnlyOnTheSet` | src/idanalysister/core/merge.py:52-59 | neither the order nor the repetitions of the inputs matter |
| `Merge.JoinAllNeverGuesses` | src/idanalysister/core/merge.py:52-59 | a constant or a symbol is answered if and only if every input is that value and there is one |
| `Merge.DisagreementsAreNamed` | src/idanalysister/core/merge.py:27-59 | an unknown absorbs; known values that disagree are unknown as diverging paths, or as diverging symbols where both are symbols or mutated regions |
| `Merge.ComputeJoinAll` | src/idanalysister/core/merge.py:52-59 | the loop computes the fold that those lemmas are about |
| `InsnCache.InstructionCache.Get` | src/idanalysister/core/insn_cache.py:31-37 | answers what the port answers, a cached `None` included, and makes the key the most recent |
| `InsnCache.InstructionCache.CodeRefsTo` | src/idanalysister/core/insn_cache.py:39-45 | the same for cross-references, without touching the decoded instructions |
| `InsnCache.InstructionCache.Invalidate` | src/idanalysister/core/insn_cache.py:47-55 | drops one key, or everything, and keeps the order of the rest |
| `InsnCache.InstructionCache.Lookup` | src/idanalysister/core/insn_cache.py:57-61 | tells a cached `None` from an absent key and moves a hit to the end |
| `InsnCache.InstructionCache.Store` | src/idanalysister/core/insn_cache.py:63-67 | appends and, when full, evicts the least recent key alone |
| `InsnCache.CacheHoldsTheMostRecent` | src/idanalysister/core/insn_cache.py:31-67 | after any uses the cache holds the most recently used distinct keys in order of use, and left something out only because it was full |
| `InsnCache.CacheResumesFrom` | src/idanalysister/core/insn_cache.py:47-55 | after an invalidation the surviving keys count as the uses that came first |
| `State.AbstractState.Copy` | src/idanalysister/core/state.py:26-27 | a copy is a state of its own that reads the same |
| `State.AbstractState.SetRegister` | src/idanalysister/core/state.py:32-33 | changes one register and nothing else |
| `State.AbstractState.SetStack` | src/idanalysister/core/state.py:43-44 | changes one slot and nothing else |
| `Registry.LocatorRegistry.Register` | src/idanalysister/locators/base.py:151-153 | the table stays sorted and the newcomer goes after its equals |
| `Registry.LocatorRegistry.Match` | src/idanalysister/locators/base.py:155-162 | answers the first entry of the table that matches |
| `Registry.HighestPriorityWins` | src/idanalysister/locators/base.py:151-162 | after any registrations, dispatch answers the matching entry of highest priority, the earliest among equals, and none only if none matches |
| `Registry.BuiltinsAreDisjoint` | src/idanalysister/locators/base.py:168-189 | no two built-in locators match the same instruction |
| `Registry.RegistrationOrderDoesNotMatter` | src/idanalysister/locators/base.py:168-189 | so the default dispatch depends on neither the order nor the priorities of registration |
| `Locators.ApplyForwardTo` | src/idanalysister/locators/register_locators.py:47-167 | the in-place rules of the register and arithmetic locators leave the state the pure rules say |
| `Machine.LocatorWordIsLeft` | src/idanalysister/locators/register_locators.py:42-105 | wherever the write defines its register, the value each rule names is the word the instruction leaves |
| `Machine.XchgSwaps` | src/idanalysister/locators/register_locators.py:121-133 | each side of an exchange ends with the other's word |
| `Machine.CmovMovesOrNot` | src/idanalysister/locators/register_locators.py:136-167 | a conditional move leaves the destination's own word, or the other register's, or what it loads from a cell |
| `Machine.WrappedAddIsExact` | src/idanalysister/locators/_common.py:24-33 | wrapping the sum with the whole register is the hardware's sum of the part it reads |
| `Port.IdaPort.PrevHead` | src/idanalysister/adapters/fake_port.py:90-92 | the last head in the interval, and none only if it holds none |
| `Port.BlockContaining` | src/idanalysister/core/cfg_model.py:30-34 | the first listed block around the address, and none only if there is none |
| `Decisions.FirstBlockIsTaken` | src/idanalysister/core/cfg_model.py:30-34 | of several blocks listed around an address the first is taken |
| `Port.BlocksAt` | src/idanalysister/core/cfg_model.py:36-42 | exactly the listed blocks those starts name |
| `Port.BlocksAtKeepsOrder` | src/idanalysister/core/cfg_model.py:36-42 | in the order of the starts and as often as they are listed |
| `InsnModel.Instruction.OperandAt` | src/idanalysister/core/insn_model.py:107-111 | an operand of the instruction that has the number asked for, and none only if there is none |
| `InsnModel.FirstIsFound` | src/idanalysister/core/insn_model.py:107-111 | and the first of them |
| `FakePort.FakePortKeepsItsPromises` | src/idanalysister/adapters/fake_port.py:87-219 | the in-memory port meets the layout and decoding hypotheses, so they are not empty |
| `MemoryImage.ReadIntSpells` | src/idanalysister/adapters/fake_port.py:125-138 | the integer read is there exactly when all its bytes are, and then has them as its bytes, least significant first, and no more |
| `MemoryImage.ReadBytes` | src/idanalysister/adapters/fake_port.py:131-138 | the loop reads the bytes in order and gives up at the first that is missing |
| `FakePort.ViewIsLaidOut` | src/idanalysister/adapters/fake_port.py:194-216 | views of one register agree on their parent, and a write defines the parent exactly when it is 32 bits or wider |
| `Widths.MovesPassExactlyTheWideSources` | src/idanalysister/locators/register_locators.py:22-50 | passing a register source through, the whole register's value where the source is a part, is right for every machine if and only if the source is read to its last bit and neither cut off nor filled up |
| `Widths.LoadsPassExactlyWholeWords` | src/idanalysister/locators/memory_locators.py:23-35 | answering a load with the word of its cell is right for every word if and only if the destination takes a whole word and a widening load reads one |
| `Widths.PartsAreAnsweredWithTheWhole` | src/idanalysister/core/engine_backward.py:278-293 | a write that defines a register decides a query for a part of it like one for the whole, which is what the part holds for every word if and only if the part spans the whole |
| `Parts.PartsAreReadWhole` | src/idanalysister/core/engine_backward.py:278-293 | after `mov rax, 0x1234` a query of `al`, and one of what `movzx ecx, al` leaves, is answered 0x1234 where both hold 0x34 |
| `Unseen.NarrowLoadIsTakenWhole` | src/idanalysister/locators/memory_locators.py:23-35 | after a store of 0x1234, `movzx eax, byte ptr` of the cell is answered 0x1234 by both engines where `eax` holds 0x34 |
| `ConditionalMoves.CmovsAreRightExactly` | src/idanalysister/locators/register_locators.py:158-167 | the forward rule is right, whatever was known and whatever is moved, if and only if the source is a register, or nothing can be known of the register in its address |
| `ConditionalMoves.CmovIsTakenForItsBase` | src/idanalysister/locators/register_locators.py:158-167 | a program ending in `cmovz rax, [rbx+8]` is answered the 1 that `rax` and `rbx` were set to, where a run has loaded another word |
| `Skips.SkipsAreRightExactly` | src/idanalysister/core/engine_backward.py:263-434 | what the backward walk passes by keeps its value in every execution if and only if the instruction does not write it unseen, or pushes a word to where the word is |
| `Skips.PushesAreSkippedExactly` | src/idanalysister/core/engine_backward.py:400-434 | passing by a push of a register or constant is right for a stack cell if and only if the cell is no part of the word just below the stack pointer |
| `Skips.CallsAreSkippedExactly` | src/idanalysister/core/engine_backward.py:400-434 | passing by a call is right for a cell if and only if it lies in the frame of the caller and the call keeps the register it is relative to |
| `Skips.BasesAreMatchedExactly` | src/idanalysister/core/engine_backward.py:436-462 | matching a cell by the name of its base register and its displacement is right past an instruction if and only if the instruction does not write the register |
| `Unseen.PushIsPassedBy` | src/idanalysister/core/engine_backward.py:400-434 | `mov [rsp-8], 1; push rax; mov rcx, [rsp]` is answered 1 by both engines, and a run holds 2 |
| `Unseen.CallIsPassedBy` | src/idanalysister/core/engine_backward.py:400-434 | `mov [G], 5; call f; mov rax, [G]` is answered 5, and a run holds another word |
| `Unseen.RebaseIsPassedBy` | src/idanalysister/core/engine_backward.py:436-462 | `mov [rcx+8], 1; mov rcx, rdx; mov rax, [rcx+8]` is answered 1, and a run holds another word |
| `Limits.SymbolsSurviveOnlyZeroSums` | src/idanalysister/locators/arithmetic_locators.py:86-106 | passing a symbol through a backward `add` or `sub` is right if and only if the amount is zero modulo the width; forward drops it |
| `Limits.CoverageIsTestedOnlyFromBitZero` | src/idanalysister/core/engine_backward.py:290-293 | partial writes are matched to a query exactly when they cover it if and only if the query starts at bit 0 |
| `Limits.LowByteIsTakenForHigh` | src/idanalysister/core/engine_backward.py:290-293 | a write of `al` is taken for a definition of `ah` |
| `Limits.StoresForgetOnlyPartialWrites` | src/idanalysister/core/engine_forward.py:306-321 | on the store path a register the instruction also writes is given up if and only if the write is partial |
| `Limits.XchgWithMemoryKeepsTheOldValue` | src/idanalysister/core/engine_forward.py:266-267 | after `xchg [rbp-8], rax` the old value of `rax` is still reported |
| `Limits.ImulIsTakenForALoad` | src/idanalysister/core/engine_forward.py:323-339 | `imul rax, [rbp-8], k` is taken for a load, which is right for every word if and only if k is one modulo the width |
| `Limits.UnknownDeltaMatchesItself` | src/idanalysister/core/engine_backward.py:448-454 | a stack reference without a known delta is matched by a write at its own address and offset, and by no other |
| `Limits.NothingElseMatchesAnUnknownDelta` | src/idanalysister/core/engine_backward.py:400-434 | no instruction at another address settles such a query |
| `EntryEdges.EntryKeepsTheSeed` | src/idanalysister/core/engine_forward.py:159-161 | throughout the fixpoint the entry block starts from the seed state |
| `EntryEdges.EntryIsAnsweredWithTheSeed` | src/idanalysister/core/engine_forward.py:81-156 | so at the start of the entry the engine answers the argument itself, whatever leads back there, given limits that suffice |
| `EntryEdges.SeedSurvivesExactly` | src/idanalysister/core/engine_forward.py:159-161 | the seed is right wherever a run comes back to the entry, whatever the instructions leave in what they write, if and only if no instruction on a cycle through the entry writes the location |
| `EntryEdges.SeedIsAnsweredOnReturn` | src/idanalysister/core/engine_forward.py:159-161 | a one-block loop `add rax, 1` is answered `arg 0` where a run that has been round once holds one more |
| `EntryEdges.ConstantsHoldExactly` | src/idanalysister/core/engine_backward.py:225-261 | given that the definitions fit, a constant the walk answers is what every run holds if and only if no path leads from the entry to the use without a definition |
| `EntryEdges.EntryIsAnsweredFromTheBackEdge` | src/idanalysister/core/engine_backward.py:244-261 | at the head of a one-block loop `mov rax, 5` the walk answers the 5 that comes back over the edge, where a run that has just entered holds 0 |

## Left out

- ForwardSoundness.ForwardAnswersAreSound: assumes the hypotheses above; the table there names the input that fails without each, and the exact condition.
- VisitCap.CappedAnswersCanBeWrong: a cap at or above `Widening.Enough` is enough and no cap at all would be; no least sufficient cap is given.
- BackwardSoundness.ReturnValueIsSound: a symbol is claimed only where no `add` or `sub` of a constant was come back to, because those pass it on unadjusted (`Limits.SymbolsSurviveOnlyZeroSums`).
- BackwardSoundness.MemoryIsSound: for answers that come from a write; `StaticMemory.UnwrittenMemoryIsStatic` is about those read from the image. That the image still has those bytes when the code runs is not claimed.
- Agreement.EnginesAgreeOnStraightLines: constants in whole registers; not symbols, which the engines treat differently, and not memory cells, which only the backward engine names in full.
- PushSequence.PushArgumentsMatchTheStack: assumes that what the scan passes keeps the pushed words; `Balance.SlotsMatchExactlyWhenBalanced` is about the instructions that do not.
- Arguments.ArgumentIsSound: a pushed argument is a word of a separate model of the stack, addressed by bytes, since the machine's cells do not move with the stack pointer; an argument at an offset is the machine's cell at that address (`Arguments.AboveTheStackIsAbove`).
- ForwardCompleteness.ArgumentIsAnswered: asks for limits at or above `Widening.Enough`; under smaller ones the answer may be refused.
- EntryEdges.SeedSurvivesExactly: the condition is exact for runs in which each instruction may leave anything in what it writes; an instruction that writes back what it found is not told apart.
- EntryEdges.ConstantsHoldExactly: needs every instruction of the function supported and the paths without a definition undisturbed, so that the machine can take them.
- Balance.SlotsMatchExactlyWhenBalanced: stores through other registers are taken to miss the pushed words, as cells of separate regions do.
- Facade.ParamExtractor.ExtractOneCall: stops at the raw value of each argument; the fallback to a decompiler and the post-processing that follow it are not modelled.
- Writes that no operand names, beyond those listed in `Machine.HiddenlyWrites` and `StackEffects.EffectOf`: flags, floating-point and vector registers, system calls and interrupts. `enter` may leave the stack pointer anywhere, and a push stores a whole word.
- True aliasing between regions, the bytes of memory cells that accesses of different sizes share, and what a segment base is.
- The walks without a control-flow graph are modelled, with their budget and termination, but not as sound: they ignore control flow by design.
- Locators supplied by a client, and what is caught when one raises: the built-in rules are total.
- A register operand without a register number, which the decoder does not produce: its state entry under no number is not kept.
- Values other than integers inside a `Concrete`, which only post-processing makes.
- The texts of details and log messages, except for what a join records.
- Decoding of SIB and REX bytes, and the foreign disassembler and decompiler calls.
- Choosing a convention from a prototype, the fallback to a decompiler, post-processing of arguments and grouping of results: thin steps around the resolution of one slot.
- Performance targets.
