# Verification of L^ (lhat): its compiled code, its debugger and its editor arithmetic

A Dafny model of the parts of the L^ implementation whose correctness is least
visible from reading any one function, and proofs of what those parts are for.
Check everything with `dafny verify dfyconfig.toml`.

## What is modelled

**The copy-and-patch compiler** (`jit/jit.c`, `jit/stencils.c`). A chunk of
bytecode becomes pieces of code copied from stencils, laid one after another,
their holes filled in.

| module | what it holds |
|---|---|
| `Bytecode`, `Machine` | values (tag and 64-bit payload), instructions, bodies; slots, frames, the heap's parts, the slice's steps, the collector and what it holds back |
| `Interpreter` | the reference: one instruction, or one slice poll, a turn |
| `Stencils`, `Choosing` | each stencil as `state -> (state, Continue, Target, Moved or Leave)`; which stencil an instruction gets, fused pairs included |
| `HoleWriting`, `Layout`, `LayingOut` | holes and their fields as bytes; the layout said without loops; `lay_out` as it runs, over arrays |
| `Meanings`, `CallMeanings` | what each stencil, call and return makes, said in plain numbers, slots and frames |
| `Calls` | `enter_at`, `jit_call`, `jit_return`, the remembered callees, `jit_return` addresses |
| `Preservation`, `Refinement`, `CallRefinement` | every turn keeps a machine well formed; every stencil, call and return against the interpreter's turns |
| `CompiledRuns`, `WholeRuns`, `ReturnDiscipline` | runs of compiled code of any length; the slice's budget; machines that go back and forth for their whole life |
| `Parting`, `Witnesses` | exactly where compiled code and the interpreter part; a small program whose machines reach each of the places they differ |
| `Unseen` | what skipping the collector's steps changes of a run |
| `Delegates` | reading a member along a chain of delegates |
| `LaidRuns` | what a run reads of an instruction, and where it goes on, against the bytes that were laid |
| `Sharing`, `Publication` | many machines on one chunk: relaxed site caches, and code published once |
| `InPlaceStencils`, `InPlaceCalls` | stencils, `jit_call` and `jit_return` as they are written, changing two arrays, frames and counters in place |

The models of the interpreter and of the stencils share helpers (an exact sum, a
frame's scratch cleared, places closed), so that the two agree says nothing of those. `Meanings` and `CallMeanings` do: they say
without them what every stencil writes and where it goes on, what a frame's
registers hold when a body begins, and what a return leaves. `LaidRuns.FieldsAreLaid`
does the same for the bytes of every field that was laid.

The main claim: from wherever the interpreter enters compiled code, however long
it runs and whatever other machines store at the call sites meanwhile, compiled
code goes through states the interpreter goes through, and leaving hands over
one of them, unless the two part (`WholeRuns.RunRefines`,
`WholeRuns.JitRunRefines`). `HandsOver` names the three ways a handing over is
not the very state, each with its exact effect and a machine it happens to:

- a body entered with its slice about to end, or with the traps word set, is left
  to the interpreter *after* the place where the interpreter would have polled.
  The next turn is the same exactly when the slice has no bound
  (`CallRefinement.EntryPollIsSkipped`, `Witnesses.SomeCallLeftAtEntry`);
- a `CALLMEMBER` whose call is refused has already read its member into A, and is
  run again. It stands where it stood: what is now in the receiver's slot, lender
  or not, answers the same member (`RereadIsHarmless`,
  `Witnesses.SomeMemberReadTwice`), because what lent a member has it as its own
  (`Delegates.LenderHasItself`);
- work refused after a step of the collector is done after the disposal of what
  that held back, where the interpreter does it before (`HeldBack`,
  `Witnesses.SomePollHoldsBack`).

And `Parts` names the three places where they part, each again exactly:

- the interpreter asks the traps word between any two instructions
  (`src/vm.c:661-697`) and first enters the frame of a disposal that waits
  (`src/vm.c:929-957`). Compiled code asks it only where it polls, and its own
  polls of the collector (`jit/jit.c:75-82`, `src/gc.c:369-385`) may set it
  (`PassesTrap`, `Witnesses.SomeRunGoesAstray`);
- the interpreter polls the collector at every call (`src/vm.c:2089`); `jit_call`,
  which allocates nothing, does not (`jit/jit.c:759-761`). Where a step is due,
  the interpreter's collector goes ahead, and where that step holds a coroutine
  back, its disposal comes before the callee's first instruction
  (`SkipsStep`, `Witnesses.SomeStepSkipped`);
- `jit_return` does not ask whether the register it answers heads a run of several
  values, which the interpreter lays out in its drain (`HandsBackRun`,
  `ReturnOfRunDiffers`, `Witnesses.SomeRunHandedBack`). The compiler writes no such
  `RETURN`: it carries a run's count in B (`src/compile.c:6084`, `:6104`), and then
  compiled code refuses; its one-slot returns (`:1167`, `:6114`, `:6130`) name
  single values.

A stencil does what some number of the interpreter's turns do if and only if it is
none of these (`Parting.AdvanceAgreesIff`), and a run of any length is in step with
the interpreter all along if and only if none of its stencils is
(`Parting.RunAgreesIff`, `Parting.JitRunAgreesIff`). Run past a disposal, it is not
where the interpreter comes to at its end either, whatever it does afterwards
(`Parting.RunEndsIff`). A skipped step, on the other hand, is not noticed: however
many a run skips, the interpreter comes to where it ends but for the collector,
unless it first comes to where a step of its own has held something back
(`Unseen.RunUnnoticed`).

The discipline, budget and termination theorems need no such hypothesis; in
`ReturnDiscipline` a disposal's frame may be pushed at any boundary
(`DisposalMoves`).

**Floyd's chain iterator** (`src/chain.h`): module `Chain`. A successor function
over a finite set, its shape (prefix and ring) proved to exist, the meeting
proved to come before a node could be answered twice, and the iterator as a
class whose calls enumerate the chain.

**The debug session** (`dap/adapter.c`): `Debugging` is a state machine whose steps
are what happens under the session's one lock; `DebuggingRuns` its invariant;
`DebuggingSafety` and `DebuggingEnds` what follows for whole runs;
`DebuggingSteps` what each request comes to at a machine's next line, in the
session's fields alone; `DebugAdapter` the session as an object changed in place,
proved against it.
What a reader of the code might not expect, each stated exactly:

- a machine let go is still `parked` until its thread wakes; a `variables` request
  for one of its scopes in between hands out table references that outlive the
  wake, and reading one then touches a machine that runs. It can happen exactly
  when the request is not made while stopped (`StrandsIff`, `StrandedRun`), and
  a debugger that asks only while stopped is safe in every run
  (`AskingAtStopsIsSafe`);
- `continue` leaves a step mode in place (`StaleStepStops`, `StaleStepRun`);
- a detach lets go of the lock before births stop being heard
  (`dap/adapter.c:1630-1631`). A machine of the old run born in between is
  recorded and hooked, and its record is left when the session is bound to its
  next run exactly where it is still followed then (`LeftAtRebindIff`,
  `LateIsBornLate`): it is then parked with the new run's machines instead of
  sent off to panic (`LateBirthRun`). Dead meanwhile, nothing takes its record
  off the list, and the next detach or end waits for ever (`LateDeathRun`);
- a wait for the workers can end exactly where no two records are fixed: the main
  machine's, a dead one's, any once deaths are not heard (`WaitEndsIff`);
- a detach does not wait for the workers once the debugger has ended the session,
  and no death is heard after it: `dap_session_end` then waits for ever exactly
  when more than one record is left (`EndsAfterDetachIff`, `StuckForEver`);
- a scope's reference comes back to its scope exactly when the frame is less than
  a thousand deep and the reference is below the tables
  (`ScopeComesBack`).

**Listing disabled code** (`lsp/ast_json.c`) is for listing each piece once. The
children of a block are visited statements first, then arms, then clauses
(`src/ast.c:158`), though `prolog^`, `pre^` and `first^` are written before
`main^`. Disabled code inside such a clause is taken by the block's walk as it
comes to `main^`'s first statement, and listed again by the clause
(`ListedOnce.LeadingClauseTwice`). For any tree, disabled code that some list marks
is listed exactly once if and only if no list takes it before visiting a child in
which another list has it (`ListedOnce.OutListsOnce`, `ListedOnce.WholeTree`).

**Path folding** (`absolute_textual`): `PathFolding`, in place over one buffer,
against a stack of segments, and what each kind of segment does to the text that
comes out (`FoldingMeans`).

**The language server's text algorithms**: `Globs` (`lsp/settings.c`), `Utf16` and
`Coordinates` (`lsp/position.c`, `lsp/ast_json.c`), `DisabledCode`
(`lsp/disabled_code.c`), `Listing` and `ListedOnce` (`lsp/ast_json.c`),
`RelativePaths` (`lsp/completion.c`). Each algorithm is written as it runs and
proved equal to an independent definition of what it is for. Behind a leading
"**/" a pattern need not begin where a segment does: "**/build" excludes
`rebuild/` as well (`Globs.AnywhereNames`, `Globs.EndsInTheName`), where the comment
beside it speaks of segments (`lsp/settings.c:84`).

`Witnesses.SomeMachineLives` exhibits a machine that meets the hypotheses of the
theorems about compiled code.

Every `hide` in a proof only keeps a definition out of the solver's way.

## Model

| member | source | states |
|---|---|---|
| Chain.EveryChainHasAShape | src/chain.h:22-24 | every chain over a finite set of nodes ends, or runs a prefix into a ring, no node before that repeating |
| Chain.FirstOccurrence | src/chain.h:22-24 | the nodes before prefix+ring are pairwise different, and any later one equals exactly one of them |
| Chain.MeetIff | src/chain.h:33-38 | two indices of a rho chain name one node exactly when they first occurred at the same place |
| Chain.LapsApartIff | src/chain.h:33-50 | that is, exactly when they are one, or both are in the ring and whole laps apart |
| Chain.SlowMeetsFastIff | src/chain.h:33-38 | after n calls the two cursors stand on one node exactly when n is at or past the prefix and a multiple of the ring |
| Chain.MeetsInTime | src/chain.h:22-38 | the first meeting comes at a call no later than prefix+ring, before any node could be answered twice |
| Chain.MeetFromStart | src/chain.h:39-46 | from the start and from the meeting, equal steps first meet after exactly prefix steps |
| Chain.MeetFromEntry | src/chain.h:47-50 | from the ring's entry, the first return to it is after exactly ring steps |
| Chain.Walk.MeasureRing | src/chain.h:39-51 | both counting loops end, the first with exactly the prefix and the second with exactly the ring |
| Chain.Walk.Next | src/chain.h:24-55 | one call answers the next node of the chain or none for ever after, and keeps the walk's invariant; `next` is applied to nodes only |
| Chain.Enumerate | src/chain.h:16-55 | repeated calls answer each reachable node exactly once, in order |
| Chain.Drain | src/chain.h:27-29 | calling until none has answered the chain's nodes in order, and leaves the walk at its end, where `Next` answers none for ever |
| Choosing.SettledBounds | jit/jit.c:569-579 | a settled choice goes on and jumps inside the chunk, and takes in at most one instruction |
| Choosing.TakenInTakesNothing | jit/jit.c:288-303 | what a fused comparison or CALLMEMBER takes in takes in nothing itself |
| Choosing.LayoutClosure | jit/jit.c:558-592 | from a laid piece, both the instruction it goes on in and the one it jumps to were laid: no hole carries the mark of an absent entry |
| Meanings.CompiledIff | jit/jit.c:305-472 | an instruction is left to the interpreter exactly where no stencil was written for it, it divides by an integer constant, compares with a constant that is none, jumps out of the chunk, is a CALLMEMBER without its call or returns several values; a comparison takes in the JUMP_FALSE after it exactly where that reads its register and goes forward |
| Meanings.ConstantsMean | jit/jit.c:320-400 | compiled, it carries the constant it names, and has the stencil of that constant's kind |
| Meanings.LaidIff | jit/jit.c:580-592 | only what the instruction before took in has no code of its own, and not where some jump of the chunk goes there |
| HoleWriting.ConstantFromHalves | jit/stencils.c:72-80 | a constant's two halves and its tag's number determine it |
| HoleWriting.FieldReadsBack | jit/jit.c:516-542 | a field written in any of the four forms reads back, where it stands, as the value it was given |
| HoleWriting.FieldRefusesIff | jit/jit.c:516-542 | a field refuses a value exactly where no bytes of its size would say it |
| Layout.CutFallsIn | jit/jit.c:600-616 | where a piece is cut, the byte after it is the entry of the instruction it goes on in |
| Layout.PiecesInOrder | jit/jit.c:600-616 | pieces are laid in the order of their instructions and never overlap |
| Layout.EntryNamesOne | jit/jit.c:607-616 | an offset is the start of at most one laid instruction |
| Layout.PiecesTile | jit/jit.c:607-652 | every byte of the code belongs to a laid piece |
| Layout.PatchedSays | jit/jit.c:634-651 | a piece whose holes are written says each value where its hole is, and the stencil's own bytes everywhere else |
| Layout.HolesSay | jit/jit.c:625-652 | the same of every piece of a laid chunk, in its memory |
| Layout.PieceRefusesIff | jit/jit.c:637-651 | a piece is refused exactly where some field of what would be laid of it refuses its value |
| Layout.CutIff | jit/jit.c:600-616 | a piece loses its last jump exactly where nothing is laid between it and the instruction it goes on in |
| Layout.GoesOnAtNext | jit/jit.c:600-652 | whether the last jump was cut or kept, the processor arrives at the entry of the instruction the choice goes on in |
| Layout.JumpsAtTarget | jit/jit.c:482-509 | a TARGET hole is never cut, and its jump arrives at the entry of the target, which was laid |
| LaidRuns.ContinueArrives | jit/jit.c:600-652 | reading the laid bytes, a piece goes on at the address a run's CONTINUE goes to, cut or kept |
| LaidRuns.TargetArrives | jit/jit.c:482-509 | and its jump arrives at the address a run's TARGET goes to |
| LaidRuns.OperandsAreLaid | jit/jit.c:482-542 | and every operand a run takes from the instruction is what the bytes at its hole read back as |
| LaidRuns.FieldsAreLaid | jit/jit.c:482-542 | every field of a laid piece, whatever its kind and form, reads back as the number it is for: the instruction's own registers and their byte offsets, the halves and tag of its constant, where its next and its target begin, the call helper for calls, the return helper for returns, the helper of the work it names; plus the addend, and modulo the word where the form takes it whole |
| LaidRuns.BytesSay | jit/jit.c:516-542 | what four or eight laid bytes say to the processor, lowest first, in each of the four forms |
| LayingOut.LayOut | jit/jit.c:547-690 | for code whose size a 32-bit offset holds, the arrays and the buffer lay_out fills are the layout the definitions say, or the chunk is refused for a field that cannot say its value (`Layout.PieceRefusesIff`); what every field says is `LaidRuns.FieldsAreLaid` |
| LayingOut.ShortChunksFit | jit/jit.c:607-616 | which every chunk's size is whose instructions times the longest stencil stay below the mark of an absent entry, and every chunk's of up to 65535 instructions |
| LayingOut.MarkLanded | jit/jit.c:558-568 | the landed marks are exactly the targets of the chunk's jumps |
| LayingOut.FindAfter | jit/jit.c:600-606 | the next laid instruction, or the end |
| LayingOut.CopyHole | jit/jit.c:637-651 | one hole written into the copy, skipped where it was cut, or the chunk refused |
| LayingOut.FindResumes | jit/jit.c:667-672 | each call's resume address is the entry of the instruction after it, where that may be entered |
| Preservation.StepKeeps | src/vm.c:925-1420 | every turn of the interpreter keeps frames, windows, links and places well formed; at a boundary where a disposal waits there is none |
| Preservation.CallKeeps | src/vm.c:2646-2869 | so do a call that pushes a frame and one that takes a frame over |
| Preservation.ReturnKeeps | src/vm.c:2892-2920 | and so does a return |
| Refinement.StencilRefines | jit/stencils.c:8-11 | at an instruction the interpreter would run next, every stencil that stays in its frame goes on where the interpreter would be after its turns, or leaves with its own pc and nothing changed but by a step of the collector |
| Refinement.WriterRefines | jit/stencils.c:82-171 | the same for loads, moves, arithmetic, reads and tests |
| Refinement.CompareRefines | jit/stencils.c:173-379 | the same for comparisons, a fused one counting as its two instructions |
| Refinement.JumpRefines | jit/stencils.c:210-268 | the same for jumps and loops, a jump back counting as the jump and the poll |
| Refinement.InPlaceRefines | jit/stencils.c:385-392 | the same for work done in C: done, it is the interpreter's turn, with what that does to the collector; refused, the collector's step and what it held back is all that may have changed |
| Refinement.TurnsAdd | src/vm.c:556-564 | turns compose |
| Meanings.ArithmeticMeans | jit/stencils.c:104-129 | of integers b and c in the registers, an addition writes b + c, a subtraction the d with d + c = b, a multiplication b * c, exactly where 64 bits hold it; otherwise, and for every division, the instruction is left with nothing changed |
| Meanings.ConstantArithmeticMeans | jit/stencils.c:131-142 | the same with an integer constant on the right |
| Meanings.RealArithmeticMeans | jit/stencils.c:104-126 | two reals make the machine's answer as a real, and an operand of any other kind leaves |
| Meanings.OrderMeans | jit/stencils.c:173-208 | of integers, the truth written is that of <, <=, > or >= between them, and a fused comparison jumps where it is false |
| Meanings.OrderLeaves | jit/stencils.c:173-181 | anything but integers is left |
| Meanings.EqualityMeans | jit/stencils.c:340-379 | nil^, bool^s and integers are equal where of one kind and one value, the rest is left; a fused comparison jumps where the answer is false |
| Meanings.ConstantEqualityMeans | jit/stencils.c:349-350 | against an integer constant, equal where the register is that integer |
| Meanings.MovesMean | jit/stencils.c:87-99 | loads, moves and tests write their value into A and nothing else |
| Meanings.IndexMeans | jit/stencils.c:285-302 | a read of a table's dense half writes the element there, and leaves where there is none |
| Meanings.PlaceMeans | jit/stencils.c:272-279 | a shared place read is the slot it aims at while open and its own value once closed |
| Meanings.JumpsMean | jit/stencils.c:210-243 | which jumps are taken; a jump back leaves with one turn left, a disposal waiting or the hook on, and otherwise takes a turn of a bounded slice |
| Meanings.LoopMeans | jit/stencils.c:248-268 | a counted loop's focus takes its step, goes round while it is on its side of the bound, and is over where 64 bits do not hold it |
| Meanings.JumpsGo | jit/jit.c:407-425 | a jump's target is its sixteen bits, less 0x8000, past the next instruction, and it polls where that is not forward |
| Meanings.WorkMeans | jit/stencils.c:385-392 | work done in C is asked with the instruction's three operands of the machine standing at it, and refused leaves the collector's step alone |
| Meanings.ClosingMeans | src/vm_call.c:136-167 | closing takes every open place from A's slot on, or the one at it, to its slot's value, and changes no other place |
| CallRefinement.EnterCallRefines | jit/jit.c:793-881 | a call refuses with nothing changed or moves the machine exactly as the interpreter's call does, up to the slice's poll, but for the collector's poll, which only that makes |
| CallRefinement.EnterCallIs | jit/jit.c:820-840 | a call goes through exactly where the site's checks pass and there is room: skipping them for a remembered body changes nothing |
| CallRefinement.JitCallRefines | jit/jit.c:759-881 | every call compiled code makes where the interpreter would make it, plain, method, tail or through a remembered member, is the interpreter's, once the collector's poll of `src/vm.c:2089` is added to it |
| CallRefinement.ReturnRefines | jit/jit.c:887-921 | every return compiled code makes there is the interpreter's, but of the head of a run of several values |
| CallMeanings.CallStepMeans | src/vm.c:2646-2869 | the interpreter's call: made exactly of a closure whose parameters the arguments fill, with none spread or collected and room for its frame; the body then starts with its parameters the arguments, slot by slot, its other registers nil^ over what lay there, every slot outside its window as it was, and a frame more, or its caller's, the arguments moved down and its places closed with the values the registers had |
| CallMeanings.EnterCallMeans | jit/jit.c:793-881 | compiled code's call, in the same words: exactly there, into exactly that state, with a turn of a bounded slice taken where the code goes on |
| CallMeanings.CallGoesOnIff | jit/jit.c:862-881 | a call made goes on at the body's entry exactly where that is compiled and the slice lets it, and exactly then the site remembers the body; a frame pushed knows where to go back to, and a frame taken over keeps what it knew |
| CallMeanings.EnterAtMeans | jit/jit.c:734-757 | code is entered, no trap set, exactly at what is laid and compiled, where its piece begins |
| CallMeanings.ResumeIff | jit/jit.c:667-672 | a compiled call leaves its return the place its caller's code goes on in exactly where there is one |
| CallMeanings.MemberStepMeans | src/vm.c:1537-1606 | a member read puts it into A and what lent it into B, and nothing else |
| CallMeanings.ReadMemberMeans | jit/jit.c:779-792 | so does compiled code's read of a remembered one |
| CallMeanings.ReturnStepMeans | src/vm.c:2892-2920 | the interpreter's return: made exactly where the frame can be popped and the answer is one value or dropped; it leaves the caller's frame on top, going on where it stood, the answer in the register it asked for it in or nil^, and closed what pointed into the body's kept registers on |
| CallMeanings.JitReturnMeans | jit/jit.c:887-921 | compiled code's return, in the same words |
| CallMeanings.ReturnGoesOnIff | jit/jit.c:907-921 | a return made goes on in its caller, no trap set, exactly where the frame was left a place to go on in or the caller has code there |
| CallMeanings.TurnMeans | src/vm.c:661-697 | a turn of the interpreter is the slice's poll where one is due, none where the hook is on or a disposal waits and none is under way, and otherwise the instruction |
| CallRefinement.EntryPollIsSkipped | jit/jit.c:862-870 | left at a body's entry, the interpreter goes on without the poll it would have made: the same exactly where the slice has no bound |
| CallRefinement.RereadIsHarmless | jit/jit.c:779-792 | a refused CALLMEMBER run again stands where it stood and goes on as it went on, whether its member was lent or not, remembered or found anew |
| Delegates.LenderHasItself | src/object.c:2264-2322 | what lent a member has it as its own: read from it, the same member is found at once and nothing lends it |
| Delegates.LendsMeans | src/object.c:2238-2258 | a table lends to what stands under the key its definition declares, in the table or the definition, where that has members; a definition and a host value lend to nothing |
| Delegates.Locate | src/object.c:2264-2322 | the read along a chain of delegates, a list or a ring, asks each once and gives the first answer along it, found or blocked |
| Delegates.LocatedMeans | src/object.c:2264-2322 | what is answered is what the nearest object of the chain has that has the member at all: found there, lent where that is not the object asked, or blocked where it takes no receiver and is lent or inherited by what is no definition |
| Delegates.HeldMeans | src/object.c:2286-2304 | a table has what the nearest of it and the definitions behind it has |
| CallRefinement.RereadGoesWrong | jit/jit.c:779-792 | why A and B must differ: of an instruction with both in one slot, which the compiler does not write, a refused call run again goes somewhere else |
| CallRefinement.ReturnOfRunDiffers | jit/jit.c:899-906 | compiled code returns the head of a run as one value; the interpreter makes that return exactly when it is none |
| Witnesses.SomeCallLeftAtEntry | jit/jit.c:862-870 | a machine whose call is left at its callee's entry with one turn left, where the interpreter would have suspended |
| Witnesses.SomeMemberReadTwice | jit/jit.c:779-792 | a machine whose CALLMEMBER, its member lent, is refused with other registers than it had, and whose next turn comes to where its first did |
| Witnesses.SomePollHoldsBack | jit/jit.c:78-90 | a machine whose work is refused after the collector's step held a coroutine back |
| Witnesses.SomeRunHandedBack | jit/jit.c:899-906 | a machine whose RETURN heads a run: compiled code pops the frame, and no number of turns does the same |
| CompiledRuns.PcAtIs | jit/jit.c:734-745 | an address in a body's code names one instruction |
| CompiledRuns.AdvanceRefines | jit/stencils.c:8-11 | whatever the stencil and wherever the processor stands, unless the two part there, what it does is the interpreter's next turns, or a handing over |
| CompiledRuns.AdvanceKeeps | jit/jit.c:765-921 | every stencil keeps each jit_return the code of its caller's chunk at its caller's saved pc, and every remembered body one that passes its site's checks |
| CompiledRuns.ResumeIs | jit/jit.c:667-672 | a site's resume address is the code its frame's caller goes on in |
| CompiledRuns.EnterBodyKeeps | jit/jit.c:862-880 | a body entered unasked has code to enter at 0, and one newly remembered passes the checks |
| CompiledRuns.CallKeeps | jit/jit.c:834-881 | calls that push, reuse or refuse keep the return discipline |
| CompiledRuns.ReturnKeepsReturns | jit/jit.c:887-921 | returns keep it, through the frame's jit_return or by asking |
| WholeRuns.AdvanceStands | jit/jit.c:923-938 | wherever a stencil goes on it stands as compiled code must, and where it leaves the machine is well formed |
| WholeRuns.AdvanceSpends | jit/stencils.c:57-71 | with a bound on the slice, no stencil brings the count to zero, and each brings leaving nearer |
| WholeRuns.RunSpends | jit/stencils.c:215-268 | which stencils spend a turn, and that none spends the last |
| WholeRuns.EnterCallSpends | jit/jit.c:862-871 | a call spends one turn where the code goes on |
| WholeRuns.RunRefines | jit/jit.c:923-938 | a run of any length that parts nowhere, whatever other machines remember meanwhile, is the interpreter's turns from where it began, and leaving is a handing over of a state it reaches |
| WholeRuns.RunLeaves | jit/stencils.c:57-71 | with a bound on the slice, compiled code leaves after finitely many stencils, with turns left |
| WholeRuns.JitRunRefines | jit/jit.c:923-938 | both together, from where lhat_jit_run comes in |
| Parting.AdvanceTraps | src/machine.h:388-404 | no stencil takes what waits for disposal, only work done in place moves the collector or adds to it, and with something waiting a stencil that goes on stays in its frame and goes forward |
| Parting.AdvanceAgreesIff | src/vm.c:661-697 | one stencil does what some number of the interpreter's turns do if and only if it neither runs past a disposal that waits, nor makes a call at which the collector was due a step, nor hands back a run |
| Parting.RunAgreesIff | jit/jit.c:923-938 | a run of any length is in step with the interpreter, each stencil some number of turns further and the last a handing over, if and only if none of its stencils is one of those |
| Parting.RunEndsIff | src/vm.c:929-957 | a run from a machine with no trap set that can part only past a disposal ends where some number of turns does, or in a handing over after some number, if and only if it runs past none |
| Parting.JitRunAgreesIff | jit/jit.c:923-938 | both, of the whole of lhat_jit_run with a bound on the slice, up to where it leaves |
| Unseen.StencilUnnoticed | jit/jit.c:759-761 | from the same machine with its collector elsewhere, what the interpreter comes to is the stencil's own end but for the collector, or one where something is held back |
| Unseen.RunUnnoticed | src/vm.c:2089 | so a run that holds nothing back and hands back no run ends, however many steps its calls skip, where the interpreter comes to but for the collector, unless that first comes to hold something back |
| Witnesses.SomeRunGoesAstray | jit/jit.c:75-82 | a run of two stencils from an untrapped machine, after which no number of turns is where it is |
| Witnesses.SomeStepSkipped | src/vm.c:2089 | a machine whose call skips a step that holds a coroutine back: the interpreter's turn leaves it waiting, and no number of turns is where compiled code is |
| Witnesses.SomeMachineLives | jit/jit.c:923-938 | a machine of a small program that the interpreter may bring into compiled code |
| ReturnDiscipline.TurnTouchesTop | src/vm_internal.h:101-125 | a turn of the interpreter changes no frame below the top, and a frame it pushes carries no jit_return |
| ReturnDiscipline.MoveKeeps | jit/jit.c:657-673 | interpreter turns, what lies beyond them, compiled stencils, entries and exits all keep the discipline |
| ReturnDiscipline.DisposalMoves | src/vm.c:929-957 | the frame pushed at a boundary for a disposal that waits is such a move |
| ReturnDiscipline.LifeKeeps | jit/jit.c:765-921 | so a machine's whole life does, whatever the mix |
| ReturnDiscipline.ReturnResumes | jit/jit.c:907-920 | a compiled return goes on at the caller's saved pc, in the code of the caller's own chunk |
| Sharing.SeenIsOk | jit/jit.c:820-826 | whatever a relaxed load finds at a site passes the site's checks |
| Sharing.SystemRuns | jit/jit.c:862-880 | under any interleaving of machines and publications, every site's guess stays sound, every machine stands, and code once published stays |
| Sharing.GoodStays | jit/jit.c:712-730 | code published for one body disturbs no machine in another |
| Publication.NextKeeps | jit/jit.c:712-730 | each step of asking for code keeps every layout live, freed, held by one asker or the chunk's |
| Publication.WrittenOnce | jit/jit.c:712-730 | a chunk's pointer changes at most once, under any interleaving |
| Publication.AnswersAgree | jit/jit.c:712-730 | every machine is answered the one pointer the chunk ends with |
| Publication.LosersAreFreed | jit/jit.c:695-730 | once nobody is asking, every layout made but the chunk's own has been freed, each once |
| InPlaceStencils.Context.ForLoop | jit/stencils.c:248-268 | the loop stencil's writes and count are those Run says (`Meanings.LoopMeans`) |
| InPlaceStencils.Context.ArithPair | jit/stencils.c:104-126 | so are arithmetic's, with overflow (`Meanings.ArithmeticMeans`) |
| InPlaceStencils.Context.ArithInt | jit/stencils.c:131-142 | and arithmetic's with an integer constant (`Meanings.ConstantArithmeticMeans`) |
| InPlaceStencils.Context.Order | jit/stencils.c:173-208 | and an ordering's, plain and fused (`Meanings.OrderMeans`) |
| InPlaceStencils.Context.Equality | jit/stencils.c:333-379 | and an equality's, plain and fused (`Meanings.EqualityMeans`) |
| InPlaceStencils.Context.JumpBack | jit/stencils.c:215-220 | and a jump back's |
| InPlaceStencils.Context.JumpFalse | jit/stencils.c:222-243 | and a conditional jump's, both ways |
| InPlaceStencils.Context.GetIndex | jit/stencils.c:285-302 | and a dense read's |
| InPlaceStencils.Context.GetUpval | jit/stencils.c:272-279 | and a shared place's, open or closed |
| InPlaceStencils.Context.Move | jit/stencils.c:94-99 | and a move's |
| InPlaceCalls.Runtime.Call | jit/jit.c:793-881 | jit_call over the arrays ends in the state, links and remembered body EnterCall says, which `CallMeanings.EnterCallMeans` says slot by slot |
| InPlaceCalls.Runtime.Return | jit/jit.c:887-921 | and jit_return in the one JitReturn says (`CallMeanings.JitReturnMeans`) |
| InPlaceCalls.Runtime.MoveWindow | jit/jit.c:838-848 | a tail call's window copied upward over one it may overlap arrives whole |
| InPlaceCalls.Runtime.ClearRegisters | src/vm_internal.h:31-38 | a callee's scratch, past its parameters, loses its tags and keeps its payloads (`CallMeanings.EnterCallMeans`) |
| Debugging.OthersStay | dap/adapter.c:968-985 | every other source's breakpoint is kept, as often as it was, and none of this one |
| DebuggingSteps.LineMeans | dap/adapter.c:1398-1448 | a machine at a line parks for a fault, a stop under way, a pause asked for, its own step due (in: always; over: at its depth or less; out: at less) or a breakpoint, the last two never at a host point; and as what it is announced |
| DebuggingSteps.OverMeans | dap/adapter.c:1405-1412 | once the session has ended or is between runs it panics |
| DebuggingSteps.StepAskedStops | dap/adapter.c:1321-1338 | a parked machine asked to step, let go and woken parks at its next line exactly where it steps in, over to the depth it was asked at or less, or out to less, and never at a host point |
| DebuggingSteps.StepOfOthers | dap/adapter.c:1321-1338 | a machine that is not parked keeps the depth of the step before |
| DebuggingSteps.PauseStops | dap/adapter.c:1338-1342 | a pause stops the next machine that comes to a line or a host point, as a pause |
| DebuggingSteps.BreakpointsMean | dap/adapter.c:968-1010 | a source has the lines it was set, each as often, and every other source its own |
| DebuggingSteps.BirthMeans | dap/adapter.c:189-233 | a birth heard is recorded, hooked and said under the next number, below the cap |
| DebuggingSteps.DeathMeans | dap/adapter.c:210-245 | a death heard takes that machine's record and hook and no other, and is said under its number |
| DebuggingSteps.ReachesIff | dap/adapter.c:760-790 | a request by a thread's number or a frame's reaches the machine recorded under it, where that is parked, and no other |
| DebuggingSteps.TableReaches | dap/adapter.c:1215-1254 | a table's reference reaches the machine it was handed out on |
| DebuggingRuns.NextKeeps | dap/adapter.c:190-245 | every step of every thread, births as a detach returns included, keeps: the hook exactly on recorded machines, the main one recorded while it must be and there is room, all-stop, and no record of an earlier run but of a machine born late |
| DebuggingRuns.TouchedIsParked | dap/adapter.c:760-790 | the reader touches a machine's frames only while it is parked, and its tables while stopped |
| DebuggingRuns.RemovedFollows | dap/adapter.c:210-224 | removing a record forgets that machine and no other |
| DebuggingRuns.OneLeftIsMain | dap/adapter.c:1547-1567 | the one record left at the end is the main machine's, unless there was no room for it |
| DebuggingRuns.BetweenIsClean | dap/adapter.c:1600-1631 | when the session is bound to its next run no reference is left, and a record or a hook is left exactly where a machine born late is still followed |
| DebuggingRuns.RebindKeeps | dap/adapter.c:1633-1662 | rebinding follows the new main machine, and besides it only machines born late |
| DebuggingSafety.EveryTouchIsParked | dap/adapter.c:1398-1461 | in every run, whatever the reader touches is parked, and a table touched while stopped was handed out since the last stopped event |
| DebuggingSafety.AskingAtStopsIsSafe | dap/adapter.c:1086-1092 | a debugger that asks for variables only while stopped never has a running machine touched |
| DebuggingSafety.StrandsIff | dap/adapter.c:760-776 | a scope asked for can strand a table on a running machine exactly when it is not asked for while stopped |
| DebuggingSafety.StrandedRun | dap/adapter.c:572-591 | such a run from the beginning |
| DebuggingSafety.OneEventAStop | dap/adapter.c:1442-1447 | in every run, one stopped event each time the machines come to be stopped |
| DebuggingSafety.StaleStepStops | dap/adapter.c:1314-1320 | after a continue, a machine that runs under a step asked of it before stops at its next line exactly where that step is due: always stepping in, at its depth or less stepping over, at less stepping out |
| DebuggingSafety.StaleStepRun | dap/adapter.c:1321-1338 | such a run from the beginning |
| DebuggingEnds.DetachedKeeps | dap/adapter.c:1376-1384 | between runs nothing is dispatched; breakpoints stay and thread numbers never go back |
| DebuggingEnds.OldRunsPanic | dap/adapter.c:1405-1412 | a machine of an earlier run is sent off to panic at its next line or wake, unless it was born late and the session is bound again |
| DebuggingEnds.IdsAreNotReused | dap/adapter.c:199-201 | a thread's number names that machine or nothing for the session's whole life |
| DebuggingEnds.LateIsBornLate | dap/adapter.c:1628-1631 | in every run, born late is born after the last detach let go of the lock and before births were no longer heard |
| DebuggingEnds.LeftAtRebindIff | dap/adapter.c:1633-1662 | a record of an earlier run is left at rebind, hooked and not told to panic, exactly where a machine born late is still followed |
| DebuggingEnds.LateBirthRun | dap/adapter.c:1628-1631 | such a run from the beginning, in which the old run's machine is parked as the new run's would be |
| DebuggingEnds.FreedIsClean | dap/adapter.c:1568-1598 | no record and no hook is left when the session is freed |
| DebuggingEnds.WorkersCanGo | dap/adapter.c:1554-1567 | from any waiting state without two fixed records there is a run of wakes and deaths that ends the wait, leaving the main machine alone where it was recorded |
| DebuggingEnds.WaitEndsIff | dap/adapter.c:1561-1563 | the wait can come to one record at most if and only if no two records are fixed: the main machine's, a dead one's, any where deaths are not heard |
| DebuggingEnds.LateDeathRun | dap/adapter.c:1630-1631 | a run from the beginning in which the end comes to wait for ever, a late birth having died unheard |
| DebuggingEnds.EndsAfterDetachIff | dap/adapter.c:1609-1631 | left by the debugger in a detach, the session can be ended exactly where at most one record is left |
| DebuggingEnds.StuckForEver | dap/adapter.c:1561-1563 | and otherwise never is |
| DebuggingEnds.StuckRun | dap/adapter.c:1609-1612 | such a run from the beginning |
| DebuggingEnds.ScopeComesBack | dap/adapter.c:760-772 | a scope's reference decodes to its scope exactly when the frame is shallow and the reference below the tables |
| DebuggingEnds.ScopesApart | dap/adapter.c:170-173 | two scopes of shallow frames never share a reference |
| DebuggingEnds.ScopeTouches | dap/adapter.c:760-790 | a request about a scope touches the machine of the thread the reference was made for, where parked, or for a frame a thousand deep another thread's |
| DebuggingEnds.DecodeIsScopeThread | dap/adapter.c:760-772 | the thread a reference decodes to is the one requests look up |
| DebugAdapter.DapSession.Hook | dap/adapter.c:1398-1448 | the hook's fields change as the state machine says, which `DebuggingSteps.LineMeans` says field by field, and the invariant holds |
| DebugAdapter.DapSession.Woken | dap/adapter.c:1449-1461 | so do they when its wait ends |
| DebugAdapter.DapSession.RemoveThread | dap/adapter.c:210-224 | removing swaps the last record in |
| DebugAdapter.DapSession.ClearBreakpointsFor | dap/adapter.c:968-985 | closing the list up in place keeps exactly the other sources' breakpoints, in order |
| DebugAdapter.DapSession.AnswerVariables | dap/adapter.c:1215-1254 | tables answered are handed out on the machine they live on, numbered from the first free reference |
| DebugAdapter.DapSession.RebindTo | dap/adapter.c:1633-1662 | rebinding is refused exactly when ended, and otherwise keeps every breakpoint and leaves one record, but for machines born late |
| DebugAdapter.DapSession.EndFinishes | dap/adapter.c:1561-1567 | no record is left |
| PathFolding.FoldInPlace | dap/adapter.c:355-386 | the buffer's answer is the rendered stack of segments, for every absolute path (`PathFolding.FoldingMeans`) |
| PathFolding.FoldingMeans | dap/adapter.c:359-386 | for every absolute path, a segment written after it comes after its folding, a '..' after that takes it off again, '.' and an empty segment do nothing, and '..' at the root stays there |
| PathFolding.FoldingGoesOn | dap/adapter.c:359-386 | and what folds alike folds alike with anything written after it |
| PathFolding.TakeStep | dap/adapter.c:359-385 | each segment does to what is written what it does to the stack, the write cursor staying behind |
| PathFolding.FoldOne | dap/adapter.c:357-386 | one segment and the separator after it: what is kept and what is still to be read fold to what they did |
| PathFolding.Back | dap/adapter.c:367-374 | '..' takes the last segment and its separator, and nothing more; at the root nothing (`PathFolding.FoldingMeans`) |
| PathFolding.AbsoluteTextual | dap/adapter.c:343-392 | any path: a relative one from where the process stands, one too long as it was given |
| PathFolding.RelativeMeans | dap/adapter.c:343-354 | a relative path names what it does below where the process stands, and stays as it is without such a place |
| PathFolding.FoldedIsClean | dap/adapter.c:337-342 | no empty, '.' or '..' segment and no trailing separator is left |
| PathFolding.FoldingIsIdempotent | dap/adapter.c:337-342 | folding twice is folding once |
| PathFolding.AskingAgain | dap/adapter.c:343-392 | what a path was made, relative or not, is absolute and made itself again |
| PathFolding.SameSpelling | dap/adapter.c:337-342 | two spellings fold alike exactly when they name the same segments |
| Globs.GlobMatch | lsp/settings.c:78-121 | the matcher ends, and answers true exactly when the path or a directory it is under is in the pattern's language |
| Globs.PatternMeans | lsp/settings.c:78-121 | a pattern read from its front: a character is itself, '*' any run that crosses no '/', '**' with the '/' after it any run, and its end the end of a segment |
| Globs.PlainNames | lsp/settings.h:48-51 | without a '*' it names one path and what is under it |
| Globs.AnywhereNames | lsp/settings.c:80-98 | behind "**/" it names every path in which it ends where a segment does, wherever it begins |
| Globs.EndsInTheName | lsp/settings.c:80-98 | so "**/build" names rebuild/x too |
| Globs.Wildcard | lsp/settings.c:80-111 | a '*' or '**' matches exactly where some run of its own does |
| Globs.MatchesUnder | lsp/settings.c:74-77 | naming a path is naming everything under it |
| Globs.GlobstarIsAlsoNothing | lsp/settings.c:82-88 | "**/name" is also "name" |
| Globs.NormalisePattern | lsp/settings.c:24-49 | the tidying loops compute Normalised |
| Globs.NormalisedMeans | lsp/settings.c:24-49 | what is left lies between every leading "./", then every leading separator, and every trailing one, with '/' for '\\' and nothing else changed; none where nothing lies there |
| Globs.NormalisedIsTidy | lsp/settings.c:20-23 | a tidied pattern holds something, has no outer separator and only '/'; of a leading "./" see the next |
| Globs.NormalisedAgainIff | lsp/settings.c:24-32 | it still has a leading "./", and tidying it again changes it, exactly where the text, its "./"s and then its outer separators off, begins '.' and either separator |
| Globs.HereOnlyHere | lsp/settings.c:78-121 | a pattern that begins "./" matches exactly the paths spelled with that in front whose rest its rest matches |
| Globs.KeepsHereExcludesNothing | lsp/settings.c:234-253 | so a pattern written in such a way excludes no path written from the root, whatever else is set |
| Globs.BackslashHere | lsp/settings.c:26-31 | one such pattern, written ".\\build", and the path it does not match |
| Globs.ExcludesRelative | lsp/settings.c:234-253 | excluded exactly when not forced and some pattern matches |
| Globs.SettingsMean | lsp/settings.c:234-253 | a pattern more excludes what it matches but for what is named by hand, and a name more only that path less |
| Globs.ExcludesUnder | lsp/settings.c:234-253 | excluding a directory excludes what is in it, but for what is forced |
| Utf16.FindPosition | lsp/position.c:76-103 | the three loops compute PositionAt on any bytes |
| Utf16.FindOffset | lsp/position.c:45-74 | the two loops compute OffsetAt on any bytes |
| Utf16.DecodeAndAdvance | lsp/position.c:12-43 | one code point, or one byte of a malformed one |
| Utf16.BuildMap | lsp/ast_json.c:46-79 | the table's loops compute Table on any bytes |
| Coordinates.Decodes | lsp/position.c:12-43 | a well-formed character decodes to its code point, by its own length |
| Coordinates.PositionIs | lsp/position.c:76-103 | at a character's boundary: the lines before it, and the UTF-16 units on its line |
| Coordinates.LinesAre | lsp/position.c:76-90 | lines are counted by line feeds, and a line starts past the last of them |
| Coordinates.UnitsAre | lsp/position.c:76-103 | the units counted between two characters are the length of what is between them in UTF-16, section 2.1 of RFC 2781 |
| Coordinates.BrokenOff | lsp/position.c:28-43 | a byte whose sequence is cut or broken off is one unit, and the next is read anew |
| Coordinates.OffsetIs | lsp/position.c:45-74 | any line and character asked for name a character's boundary, the first far enough or the line's end |
| Coordinates.OutsideMeans | lsp/position.c:45-103 | offsets past the end, and lines and characters before the first or after the last, are taken as the nearest there is |
| Coordinates.RoundTripIff | lsp/position.c:45-103 | an offset comes back from its position exactly where a character begins |
| Coordinates.ComesBackIff | lsp/position.c:45-103 | on any bytes, an offset comes back exactly where offset_at's walk along its line may stop, having counted fewer units before than position_at's decoding, and as many there or the line's last |
| Coordinates.WholeComesBackIff | lsp/position.c:45-103 | and where nothing malformed stands before it on its line, exactly where that walk may stop |
| Coordinates.MalformedDiffers | lsp/position.c:28-43 | a malformed text, two bytes long, where it does not come back |
| Coordinates.CharacterFromTable | lsp/ast_json.c:46-85 | a position's character is the table there less the table at its line's start |
| Coordinates.InsideMapsToStart | lsp/ast_json.c:30-36 | a byte inside a character maps to where the character is |
| DisabledCode.SkipBlockComment | src/lexer.c:299-333 | the lexer's loop ends a nested comment where Scan says |
| DisabledCode.PairsUp | lsp/disabled_code.c:279-294 | the loop computes Pairs |
| DisabledCode.PairingMeans | lsp/disabled_code.c:279-294 | markers pair up as brackets do: a text without any, and what is opened before one that pairs and closed after it; one too many of either does not |
| DisabledCode.EndsThereIff | lsp/disabled_code.c:274-294 | the comment put around a text ends at its own marker exactly when the text pairs up |
| DisabledCode.OneComment | lsp/disabled_code.c:279-321 | in both modes, so what the second toggle unwraps is what the first wrapped |
| DisabledCode.RemoveMarker | lsp/disabled_code.c:162-180 | the edit is the marker's line where it is alone there, or the marker and the space beside it; what it leaves of the text is `DisabledCode.RemovalMeans` |
| DisabledCode.RemovalMeans | lsp/disabled_code.c:162-180 | of any text whose marker stands between x and y on its line, what the edit leaves: without the line where x and y are blank, otherwise without the marker and one space inside it, where there is one |
| DisabledCode.AddMarkers | lsp/disabled_code.c:298-321 | each marker on its own line, indented as the first line is |
| DisabledCode.DisabledLinesAreEdits | lsp/disabled_code.c:298-321 | those two edits make the text that the second toggle is given back in LinesRoundTrip |
| DisabledCode.Trim | lsp/disabled_code.c:97-106 | the space around a span goes and nothing else |
| DisabledCode.ExactRoundTrip | lsp/disabled_code.c:424-449 | off and on again, a statement's text comes back byte for byte |
| DisabledCode.SpacedRoundTrip | lsp/disabled_code.c:173-177 | code written off by hand with a space inside each marker comes back without them |
| DisabledCode.LinesRoundTrip | lsp/disabled_code.c:323-402 | off and on again, whole lines come back exactly when a line feed follows them, and with one more otherwise |
| DisabledCode.WholeLines | lsp/disabled_code.c:370-388 | the lines taken begin and end where lines do |
| Listing.NodeToJson | lsp/ast_json.c:364-402 | for any tree, marking, filtering and listing in one walk give the tree Out says and leave exactly the marks |
| Listing.MarkListed | lsp/ast_json.c:269-311 | the marks are the disabled code the cursor passes by itself between the children, past no other place, in whatever order they are visited |
| Listing.WriteGap | lsp/ast_json.c:191-219 | the listing cursor moves exactly as the marking one, and never back |
| ListedOnce.MarkedInGapIff | lsp/ast_json.c:269-311 | a comment passed between two children is marked exactly where it is disabled code and the child before it, if any, is a statement of the list |
| ListedOnce.GapLies | lsp/ast_json.c:239-301 | and where what was passed lies in order, the comments passed there are those written between the two |
| Listing.FirstCommentAt | lsp/ast_json.c:175-188 | the binary search finds the first comment at or after an offset |
| ListedOnce.OutListsOnce | lsp/ast_json.c:191-219 | disabled code some list marks is listed by exactly one list where none takes it before visiting a child in which another has it, and by more than one otherwise; what none marks, by none |
| ListedOnce.TimesOut | lsp/ast_json.c:191-219 | in what is written a comment is listed as often as there are lists that have it in a gap once it has been marked |
| ListedOnce.TakesEarlyIff | lsp/ast_json.c:239-301 | a list takes it early, visiting among its statements a child written later before the child it stands in, exactly where it marks it and a list below has it in a gap too |
| ListedOnce.InOrderTakesNone | src/ast.c:158-163 | where lists visit their children in the order they are written, none does |
| ListedOnce.LeadingClauseTwice | src/parser.c:3346-3413 | repeat^ with a prolog^ clause holding disabled code, which the block and the clause both list |
| ListedOnce.ListedByItsMarker | lsp/ast_json.c:257-311 | a node's own items name a comment exactly where it is in a gap of theirs and marked by then: by that node itself, where none above has marked it |
| ListedOnce.MarkedIsNotShown | lsp/ast_json.c:313-341 | a comment some list marks is nobody's comment, where nothing written before that list holds it |
| ListedOnce.AttachedIsHeld | src/parser.c:5325-5367 | nothing does where comments went to the node in whose gap they stand or to a child beside it, and each is reached in one child only |
| ListedOnce.NestedIsShaped | src/ast.c:98-163 | trees of spans inside spans in the order they are written meet all the hypotheses here |
| ListedOnce.UnmarkedIsShown | lsp/ast_json.c:313-341 | any other is shown wherever it is attached |
| ListedOnce.WholeTree | lsp/ast_json.c:364-402 | the whole tree: what some list marks is never a comment, and is code exactly once if and only if no list takes it early; anything else is code never, and a comment as often as it was attached |
| RelativePaths.RelativePath | lsp/completion.c:564-599 | the path written is '../' for each separator past what is shared, then the rest; the room is exactly filled |
| RelativePaths.SharedPrefix | lsp/completion.c:549-562 | the longest directory both paths begin with |
| RelativePaths.NamesTheTargetIff | lsp/completion.c:564-599 | read from the directory it is for, it names the target, exactly when what is past the shared directory begins no '../' |
| RelativePaths.FewestUps | lsp/completion.c:577-583 | no way of writing it has fewer '../' |
| RelativePaths.FoldedNamesTheTarget | lsp/completion.c:564-599 | for a target that is a folded path, and whatever directory it is read from, the path written names the target |

## Left out

- The stencils' x86 bytes: a stencil is its bytes, its tail and its holes as data, with what the generator promises of them (`HoleWriting.DataOk`); that the bytes do what `Stencils.Run` says is not part of this model.
- Memory protection, instruction caches, platform conditionals and the environment variable that turns the compiler off (a chunk is then refused).
- Allocation failures everywhere, but for the refusal of a whole chunk.
- Real arithmetic, a member cache's answer, and work done in C (tables, closures, concatenation, member reads) are functions the interpreter and the stencils share. Of the collector there is how far it has come and what it holds back: that it frees only what nothing reaches, and empties weak caches, is not modelled.
- What the interpreter does beyond the stencils (faults, widening, operators a type carries, hosts, coroutines, cleanups) is a turn out of reach; over a machine's life it may leave any well-formed state that keeps to `ReturnDiscipline.TouchesTop`.
- Calls.JitCall: what a member cache remembers is taken to be what the lookup finds (`Machine.MembersOk`); the versions and layouts it checks are not modelled.
- Delegates.Locate: a table's definitions are taken not to run in a ring; integer keys and the built-in members, which are made and not found, are left out.
- Unseen.RunUnnoticed: work done in C is taken to come to the same wherever the collector is (`Unseen.Blind`), which a host's weak table need not.
- Host values of several slots, and upvalue numbers past those a closure has, which no compiler writes.
- The interpreter's own fused compare-and-jump dispatch: the reference runs the two instructions.
- LayingOut.LayOut: asks that the code's size stay below the mark of an absent entry, because offsets are 32 bits and lay_out does not check; `LayingOut.ShortChunksFit` says which chunks surely meet it.
- WholeRuns.RunRefines: only of runs that part nowhere (`KeepsTogether`), which `Parting.RunAgreesIff` shows to be exactly those that agree.
- Parting.RunEndsIff: only of runs that skip no step and hand back no run (`OnlyTrapsPart`): past a skipped step the two collectors may come to be where they would have been, and the ends agree again.
- WholeRuns.RunLeaves: only with a bound on the slice; without one a loop may run for ever, as it may in the interpreter.
- Sharing.SystemRuns: a stencil is one step; its loads from shared sites are relaxed, its store is seen whole. The plain read of a remembered callee's code pointer (`jit/jit.c:872-874`) is taken to see what was published before the site's store that named the callee, though the load of the site is relaxed and orders nothing by itself.
- Publication.NextKeeps: a layout is a name; what it contains is `LayingOut`'s.
- Debugging.OthersStay: sources compare as names; conditions on breakpoints are an input of the hook.
- The session's handshake before configurationDone, its sockets, messages and JSON, and the exit events it sends last.
- DebuggingRuns.NextKeeps: a machine's own thread runs it unless parked, the main one lives through the caller's calls and runs in none of them.
- DebuggingEnds.WorkersCanGo: that a worker which has woken to panic does die is the host's; nothing in the session holds it.
- PathFolding.FoldInPlace: the last lines of the C, which take a trailing separator off, are stated instead of run: there is proved never to be one.
- `realpath` and the Windows resolution of paths; PATH_MAX is a parameter.
- The parse of lhat-lsp.json; named files with '..' segments are refused before they reach `Globs.Settings`.
- A `.lton` file's shift of positions, and 32-bit overflow of lines and columns.
- DisabledCode.LinesRoundTrip: which statements a selection takes (`find_run`, over the parse tree) is not modelled; `DisabledCode.WholeLines` covers what is done with their spans.
- DisabledCode.ExactRoundTrip: a statement begins and ends on what is written, as a whole statement's span does.
- Listing.NodeToJson: the tree inside a disabled node, and the shortcut for a text without disabled code, are left out.
- ListedOnce.WholeTree: asks that a comment inside a list stands in one child only (`Shaped`), which a `when^` does not meet whose subject holds a list, since the parser hangs that subject in the tree once a pattern; and that a marked comment is held below its marker (`HeldBelow`), which `ListedOnce.AttachedIsHeld` derives from how the parser attaches comments.
- The lexer beyond block comments, the parser, the checker and the compiler are not part of this model.
- Document store, dirty queue, URI coding, semantic tokens, outline, hover and completion rendering: presentation, or easy.
