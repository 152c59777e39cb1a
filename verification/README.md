# A verified model of the bytecode virtual machine

The program loads a container of compiled bytecode, keeps its vtables and types in an intrusive hash
table, and interprets the code on a machine whose call frames are overlapping windows of one growable
slot array. This project models these three parts and the data structures under them, and proves what
they promise. `dafny verify dfyconfig.toml` checks everything.

**The hash table** (`uthash.h`). Elements are heap objects that sit on two doubly linked lists at once.
`HashSort.dfy` is the in-place bottom-up merge sort, proved against the pure merge passes of
`RunMerge.dfy`; `HashChains.dfy`, `HashExpand.dfy` and `HashTables.dfy` are the bucket chains, the
doubling of the bucket array, and the operations with their invariant `Valid`, which says more than
HASH_FSCK checks. `HashLoad.dfy` is the arithmetic of the load bound, `HashMapModel.dfy` the finite map
that the table stands for, `JenkinsMix.dfy` the default hash function. Everywhere else the hash is an
arbitrary function of the key.

**The call machine** (`execute.c`, `vm.c`, `slots.c`, `stack.c`). `SlotWords.dfy` has the tagged 64-bit
words; `SlotArrays.dfy` and `ContextStacks.dfy` are the resizing arrays; `SlotGrowth.dfy` proves the
amortised cost of resizing. `Machine.dfy` is a specification machine on plain sequences, and
`VirtualMachine.dfy` the machine on resizing arrays, which does step for step what the specification
does. `InstructionSet.dfy` and `CallInstructions.dfy` say what each opcode does, by number and bytes, and
`ProgramLaws.dfy` what short programs and the global table do. On the specification, `CallDiscipline.dfy` states once which bytecode is well-formed
(`WellFormed`), and proves the invariant of all reachable states and the matched-call theorem;
`BulkMoves.dfy`, `SlotReuse.dfy` and `Arithmetic.dfy` prove what block moves, reused slots and integer
arithmetic amount to, and `SampleRun.dfy` follows a compiled sample through a call.

**The loader** (`loader.c`). `Loader.dfy` is the parser as a cursor over bytes, the loops as methods and
what they compute as functions; `LoaderPrint.dfy` is a printer for the same format; `LoaderReadBack.dfy`
and `LoaderRoundTrip.dfy` prove that parsing undoes printing, and `LoaderContents.dfy` that the recorded
positions hold the printed program, constants and keys; `LoaderDrift.dfy` says what the parser records
when a TYPES section is not the last one; `LoaderDebug.dfy` says when a debugging build parses like a
normal one; `ByteOrder.dfy` has the byte swaps.

Some behaviour is surprising, and the model follows the code:

- Two `if` statements in the INSTRUCTIONS case of `parse` end in commented-out `printf` calls, so they
  swallow the next statement. Without debug output the case never reaches its `break` and falls into
  CINT. `LoaderDebug.DebugAgreesIff` says exactly when that matters, and `LoaderDrift.FallThroughShows`
  has a container where it does.
- The TYPES case never moves the cursor. `LoaderRoundTrip.CursorInStepIff` says exactly when the cursor
  still meets every section. For the result of the parse, that TYPES comes last is sufficient, but not
  necessary: `LoaderDrift.TypesBeforeNoStrings` has a container that comes out right all the same, and
  `LoaderDrift.TypesBeforeCode` one that does not. `LoaderDrift.PositionRightIff` says exactly which
  recorded positions are right.
- Encoding a negative integer or function address sign-extends over the tag, so the word classifies as
  a pointer. `SlotWords.SmallIntRoundTrip` and `Arithmetic.NegativeIsLost` say what is lost.
- Compiled top-level code calls with localbase 0, so well-formedness asks for localbase 1 or more only
  inside functions.
- A CALL that finds no function ends the process with status 0; here it is the exit `NoFunction`.

In the hash table, elements with equal keys are allowed; the map theorems ask for distinct ones, as the
table's users are expected to ensure.

## Model

| member | source | states |
|---|---|---|
| HashTables.HashTable.Sort | uthash.h:736-821 | for fewer than 2^32 elements the in-place sort ends with the list the merge passes define, a permutation of the old one, with head, tail and all `next` and `prev` links right, and writes no bucket or chain field; for a total preorder the result is sorted and stable |
| HashSort.SortList | uthash.h:736-821 | the relinking loop with its 32-bit run length terminates with exactly the result of the pure passes, as a complete doubly linked list |
| HashSort.SortPass | uthash.h:746-811 | one pass over the links merges consecutive pairs of runs as the pure pass does, and counts its merges |
| HashSort.MergeRuns | uthash.h:762-807 | merging two runs by relinking appends their stable merge to the list built so far and leaves the rest of the list as it was |
| HashSort.MeasureRun | uthash.h:752-760 | stepping over the first run stops after `insize` elements or at the end of the list, with the length counted |
| RunMerge.PassDoublesRuns | uthash.h:745-818 | the pass invariant: a list made of sorted runs of length k becomes one made of sorted runs of length 2k |
| RunMerge.PassStable | uthash.h:745-818 | a pass over sorted runs keeps the relative order of all elements that compare equal |
| RunMerge.PassesSort | uthash.h:736-821 | starting from sorted runs, the passes end sorted, with equal elements in their old order |
| RunMerge.PassesRearrange | uthash.h:736-821 | whatever the comparison function answers, the result is a permutation |
| RunMerge.OneMergeMeansDone | uthash.h:812-817 | the loop's test, at most one merge in the last pass, holds exactly when the runs span the whole list |
| RunMerge.StableSortUnique | uthash.h:731-736 | sorted and stable leave no choice: two such lists are equal, so the promise determines the result |
| HashTables.HashTable.Add | uthash.h:185-208 | the element becomes the last in application order, the whole invariant and the load bound are kept through any expansion, and for a fresh key the map gains exactly that binding; the table expands exactly when the bucket reaches 10 times its multiplier plus one, so never with fewer than ten elements, and only a second ineffective expansion in a row inhibits further ones |
| HashTables.HashTable.Delete | uthash.h:227-260 | the element alone disappears, whether head, tail, middle or last one left; the whole invariant is kept, the sizing does not change while the table lives, and with distinct keys the map loses exactly its key |
| HashTables.HashTable.Find | uthash.h:106-117 | finds an element with the key if there is one and nothing otherwise; with distinct keys, exactly what the map holds |
| HashTables.HashTable.constructor | uthash.h:185-195 | the empty table is valid |
| HashTables.Table.constructor | uthash.h:153-170 | a new table has 32 empty buckets, no expansions behind it, expansion not inhibited, and satisfies the invariant |
| HashTables.Table.AddToBucket | uthash.h:628-639 | the element goes to the front of the chain its hash value selects; the table expands exactly when that bucket reaches 10 times its multiplier plus one and expansion is not inhibited, and otherwise no other chain and no sizing field changes |
| HashTables.Table.DelInBucket | uthash.h:642-652 | the element leaves its chain, which closes up in order, and every count; the other chains and all sizing fields stay as they were |
| HashTables.Table.ExpandBuckets | uthash.h:683-729 | the bucket array doubles with the same elements, the ideal chain length is the ceiling of items over new buckets, the misplaced items are counted, and two ineffective expansions in a row inhibit further ones |
| HashTables.Table.Install | uthash.h:718-728 | the end of an expansion: bookkeeping fields, ineffective expansions and inhibition |
| HashExpand.Redistribute | uthash.h:697-717 | the double loop moves every element into its new bucket once, with multipliers count / ideal and misplaced items equal to the sum over buckets of max(0, count - ideal) |
| HashExpand.DrainChain | uthash.h:700-716 | one old chain is moved link by link without losing the elements still waiting |
| HashExpand.SplitHome | uthash.h:665-715 | doubling n buckets sends every element of bucket i to bucket i or to bucket i + n |
| HashExpand.CountsAddUp | uthash.h:290-318 | the bucket counts add up to the number of elements |
| HashChains.FindInBucket | uthash.h:614-625 | walking a chain finds an element with the key if the chain has one |
| HashChains.PushChain | uthash.h:628-634 | an element is put in front of one chain; all chains stay doubly linked |
| HashChains.PullChain | uthash.h:642-652 | an element is cut out of one chain; all chains stay doubly linked |
| HashTables.LoadHolds | uthash.h:902-914 | in every valid table whose expansion is not inhibited there are at most 19 items per bucket, the ideal chain length is at most 10, and no chain exceeds 10 times its multiplier plus one |
| HashTables.FewItems | uthash.h:628-639 | a table that would hold fewer than ten elements does not expand, however they hash |
| HashLoad.LoadBound | uthash.h:628-639 | the inductive invariant, multipliers plus full unmultiplied buckets at most the number of buckets, implies the bound |
| HashLoad.BalancedAfterExpand | uthash.h:683-729 | an expansion from at most 10 items per new bucket re-establishes the inductive invariant |
| HashLoad.CeilingByDivision | uthash.h:665-680 | quotient plus one for a remainder is the least chain length that suffices |
| HashTables.IdealChainLength | uthash.h:694-696 | the shift and the mask compute that ceiling for a power-of-two bucket count |
| Bits.ToBucket | uthash.h:210-213 | the mask selects the remainder modulo a power of two |
| HashMapModel.MapOfAdd | uthash.h:185-208 | appending an element with a fresh key extends the map by it |
| HashMapModel.MapOfCut | uthash.h:227-260 | cutting one element out removes exactly its key from the map |
| HashMapModel.FoundInMap | uthash.h:106-117 | under distinct keys a search result is the map's, present or absent |
| JenkinsMix.MixBijective | uthash.h:420-431 | mixing is a bijection on triples of 32-bit words: the inverse program undoes it from both sides |
| JenkinsMix.AbsorbInjective | uthash.h:440-457 | one turn of the block loop never merges two blocks from one state, nor two states under one block |
| JenkinsMix.AbsorbBlocks | uthash.h:433-457 | the block loop takes in every whole block, starting from the two constants of the source, and ends with a tail shorter than twelve bytes |
| JenkinsMix.OneBlockKeys | uthash.h:433-457 | keys of one length that differ inside a single whole block leave the loop in different states |
| JenkinsMix.JenMix | uthash.h:420-431 | the macro's assignments in 32-bit unsigned arithmetic compute the mixing function |
| JenkinsMix.AddTail | uthash.h:458-470 | the switch with its fall-through adds each remaining byte at its own place |
| JenkinsMix.HashJen | uthash.h:433-472 | the whole hash: blocks, length, tail and final mix |
| JenkinsMix.FinalDiffers | uthash.h:433-472 | keys of one length that differ inside one block of twelve bytes, the short tail included, end in different 96-bit states |
| JenkinsMix.BlockIsTail | uthash.h:441-470 | the words of a block are put together from their bytes as the tail's are, lowest byte first |
| JenkinsMix.ShiftsMove | uthash.h:420-431 | the shifts divide, or move the low bits up and drop the others |
| JenkinsMix.XorBit | uthash.h:420-431 | each bit of an exclusive or is set where the operands' bits differ |
| SlotArrays.Slots.Append | slots.c:47-50 | the contents grow by the word, through any doubling |
| SlotArrays.Slots.Get | slots.c:52-64 | a read gives the word or the out-of-bounds exit and changes no contents; it halves the block exactly when the capacity is not 10 and the size is at most three tenths of it |
| SlotArrays.Slots.Set | slots.c:67-73 | a write past the end fills the gap with zeros first; all other words stay |
| SlotArrays.Slots.Resize | slots.c:86-151 | moving to a new block keeps the contents and costs one copy per element |
| SlotArrays.Slots.Truncate | execute.c:408 | cutting the size keeps the prefix |
| SlotGrowth.HalvedPaid | slots.c:52-56 | halving always leaves room for the live prefix and keeps the capacity ten times a power of two |
| SlotGrowth.AmortisedCopying | slots.c:47-151 | over any run of appends, reads, extending writes and truncations, at most four elements are copied for each one appended, size never exceeds capacity, and the capacity is ten times a power of two |
| ContextStacks.Stack.Push | stack.c:16-19 | the context goes on top, through any doubling |
| ContextStacks.Stack.Pop | stack.c:21-28 | the top context comes off, or the underflow exit |
| SlotWords.OneKind | slots.c:165-268 | every 64-bit word has exactly one kind, so at most one case of an arithmetic instruction applies |
| SlotWords.KindRanges | slots.c:165-268 | each kind's words as ranges of 64-bit values |
| SlotWords.Encodings | slots.c:196-268 | the words that the encoders make, negative numbers included |
| SlotWords.FalsyMeans | slots.c:257-282 | falsy are nil and the words of kind Bool with an even payload, and no word of any other kind, so the integer zero is true |
| SlotWords.SmallIntRoundTrip | slots.c:237-248 | decoding undoes encoding for every 32-bit integer, while the classifier accepts the encoding exactly when the integer is not negative |
| SlotWords.FnewRoundTrip | slots.c:224-235 | the same for 16-bit function addresses |
| SlotWords.BoolRoundTrip | slots.c:257-277 | encoded booleans are booleans, and falsy exactly when false |
| Arithmetic.SubtractUndoesAdd | execute.c:144-189 | on non-negative integers SUBVV undoes ADDVV in either operand whenever the sum fits 32 bits, and overflow is undefined |
| Arithmetic.DivideWithRemainder | execute.c:213-254 | DIVVV and MODVV give quotient and remainder of one division |
| Arithmetic.DivideUndoesMultiply | execute.c:190-254 | DIVVV and MODVV undo MULVV; a product is undefined exactly when it does not fit 32 bits |
| Arithmetic.DivideAnySign | execute.c:213-254 | quotient and remainder of any two integers belong together, with the remainder's sign the dividend's; undefined are division by zero and the one quotient that does not fit |
| Arithmetic.NegativeIsLost | execute.c:144-277 | a difference is usable again exactly when it is not negative; otherwise later arithmetic leaves its target alone, and MODVV and ISEQ exit with a type error |
| Arithmetic.IseqThenJump | execute.c:255-320 | two turns of the loop, ISEQ and JUMPF on its result, jump exactly when the two integers differ, go on behind the jump otherwise, and change nothing else but the result register |
| Arithmetic.BranchesComplement | execute.c:308-334 | JUMPF followed by JUMPT on the same register never falls through: nil and the words of kind Bool with an even payload take the first jump, every other word the second |
| InstructionSet.LoadsNumber | execute.c:45-57 | CSTR and CSHORT, by number and bytes, load their 16-bit operand, high byte first, as an integer |
| InstructionSet.LoadsKey | execute.c:58-68 | CKEY loads the address of the constant string its operand names |
| InstructionSet.LoadsType | execute.c:83-92 | CTYPE loads its operand under the type tag |
| InstructionSet.LoadsBool | execute.c:94-101 | CBOOL loads false for zero and true otherwise |
| InstructionSet.LoadsNil | execute.c:102-108 | CNIL loads nil |
| InstructionSet.LoadsFunction | execute.c:423-436 | FNEW loads its signed operand, whose sign runs over the tag when it is negative |
| InstructionSet.Moves | execute.c:278-289 | MOV copies the register its 16-bit operand names, or runs out of bounds |
| InstructionSet.ReadsGlobal | execute.c:132-142 | NSGET reads what is stored under the name its operand selects, or nil |
| InstructionSet.StoresGlobal | execute.c:122-131 | NSSET stores under that name and changes nothing else |
| InstructionSet.Jumps | execute.c:297-307 | JUMP goes forward or backward by its two's-complement operand |
| InstructionSet.Branches | execute.c:308-334 | JUMPF jumps on falsy words and JUMPT on all others, by the signed operand |
| InstructionSet.Skips | execute.c:416-590 | unimplemented and unknown opcodes only advance, LOOP does not even do that, EXIT ends the run |
| InstructionSet.Computes | execute.c:144-277 | sums, differences, products, quotients, remainders and comparisons of non-negative integers, as words, and when they are undefined |
| InstructionSet.MixesKinds | execute.c:144-277 | what every other pair of kinds does: undefined with doubles, no effect, or a type error |
| InstructionSet.MissesOperand | execute.c:144-277 | a missing operand register is the out-of-bounds exit |
| CallInstructions.CallsFunction | execute.c:335-398 | CALL on a function word: return address, saved base and ip, window and target, the target being the low 16 bits |
| CallInstructions.CallsBuiltin | execute.c:376-389 | CALL on a builtin word: what is printed and, slot by slot, what becomes nil and what stays |
| CallInstructions.CallsNothing | execute.c:344-359 | CALL on any other word finds no function, and a missing register is out of bounds |
| CallInstructions.Returns | execute.c:399-415 | RET in full: result, truncation, restored context, return address, and its two ways to fail |
| CallInstructions.MovesBlock | execute.c:460-468 | BULKMOV by number and bytes: when it is in bounds, and what each slot then holds |
| ProgramLaws.GlobalsRemember | execute.c:122-142 | over any run of any program a global keeps its value until a step stores one of the same name |
| ProgramLaws.StoreThenRead | execute.c:122-142 | NSSET and then NSGET give the stored value for the same name, and for another name what NSGET would have given anyway |
| ProgramLaws.InitialGlobals | builtin.c:5-17 | at the start println is a builtin and every other name is nil |
| ProgramLaws.NilThenJump | execute.c:102-320 | CNIL and then JUMPF jumps |
| ProgramLaws.NumberThenNoJump | execute.c:109-320 | CSHORT and then JUMPF does not jump, for zero either |
| ProgramLaws.BoolThenJump | execute.c:94-320 | CBOOL and then JUMPF jumps exactly on false |
| ProgramLaws.PrintsNumber | execute.c:31-590 | a four-instruction program prints its number and ends |
| VirtualMachine.VM.constructor | vm.c:176-239 | a new machine is in the specification's initial state |
| VirtualMachine.VM.Move | vm.c:151-161 | a move in the window is the specification's read and write, including the out-of-bounds exit |
| VirtualMachine.VM.StepOnce | execute.c:31-590 | one turn of the loop over resizing arrays reaches the state, or the exit, that the specification on plain sequences reaches |
| VirtualMachine.VM.RunFor | execute.c:31-590 | so does any number of turns, from any state: no run depends on resize history |
| VirtualMachine.VM.ExecCall | execute.c:335-398 | CALL as the specification has it: return address, pushed context, slid window |
| VirtualMachine.VM.Println | builtin.c:19-23 | println prints register 2 of its window and leaves nil in register 0, or runs out of bounds |
| VirtualMachine.VM.ExecBuiltin | execute.c:376-389 | the builtin's print, the loop that clears registers, and the way back |
| VirtualMachine.VM.ExecRet | execute.c:399-415 | RET as the specification has it: result, truncation, popped context, return address |
| VirtualMachine.VM.ExecBulkMove | execute.c:460-468 | the loop over registers is the specification's sequence of moves |
| CallDiscipline.StepCases | execute.c:31-590 | every step of well-formed code stays inside its frame and spares register 0 of a called frame, or is exactly a call, or exactly a return |
| CallDiscipline.StepInv | execute.c:335-415 | every step keeps the call-stack invariant: bases ascend strictly above the top level, and each frame's slot 0 encodes the pc of a CALL whose localbase is the gap to the caller's base |
| CallDiscipline.InitialInv | vm.c:176-239 | the initial state satisfies the invariant, for every program |
| CallDiscipline.ReachableInv | execute.c:31-590 | so does every state reachable in any number of steps |
| CallDiscipline.BackFrom | execute.c:399-415 | in every such state the innermost return address leads to just after a CALL |
| CallDiscipline.MatchedCall | execute.c:335-415 | from a CALL to its matching RET, through any nesting and recursion, control is at call pc + 1 with base, ip and context stack restored, all slots below the callee's window unchanged, and the callee's result in the window's first slot |
| CallDiscipline.BuiltinCall | execute.c:376-389 | a builtin call is one balanced step: the argument is printed, the result slot and the callee's registers become nil, nothing of the caller's changes |
| SampleRun.SampleIsWellFormed | execute.c:335-436 | the code of the compiled sample `function-ret-trunc.cvmb`, with nested calls, meets the well-formedness conditions |
| SampleRun.InnerCallIsMatched | execute.c:335-415 | the sample's run reaches its inner call in three steps and the matching return in six more, so everything the matched-call theorem asks for does occur; the result is fifteen |
| SlotReuse.NoStaleData | execute.c:31-590 | along every run of any program from a return on, through later calls, returns, block moves and builtins, each slot that the return cut off reads as nil until a step targets that very slot |
| SlotReuse.StepSpares | execute.c:31-590 | one step of any program leaves a nil slot nil unless it is a register the instruction names, a call's return address or a return's result |
| SlotReuse.WritesRead | slots.c:67-73 | after any writes a slot holds the last word written to it, or else what it held before, nil beyond the end |
| BulkMoves.BulkMoveResult | execute.c:460-468 | BULKMOV goes out of bounds exactly when a read falls outside the slots; otherwise register a + i gets old register b + i, or b + (i mod (a - b)) when moving up, and no other slot changes |
| BulkMoves.BlockCopy | execute.c:460-468 | moving down, or between ranges that do not overlap, is a simultaneous block copy |
| Loader.Parse | loader.c:72-289 | the header loop computes the section-by-section fold of the parse, including reads outside the buffer and EINVAL |
| Loader.ReadSection | loader.c:109-277 | the body of the switch, with the fall-through and the TYPES case that does not move the cursor |
| Loader.ReadStrings | loader.c:159-176 | the string loop finds every start by the cumulative index, the first one at the first character |
| Loader.ReadVtables | loader.c:225-254 | the record loop decodes every three-word vtable entry |
| Loader.LookUpPair | loader.c:239 | shift and or put the protocol number above the type number |
| Loader.ReadTypes | loader.c:255-272 | the record loop decodes every type with its size of 8n + 8 modulo 2^32 |
| LoaderDebug.DebugAgreesIff | loader.c:110-143 | on every buffer that parses, the two builds agree if and only if each INSTRUCTIONS header is followed later by a CINT header |
| LoaderDebug.CursorAlike | loader.c:84-278 | over every buffer and header list the two builds move the cursor identically and differ at most in the integer constants |
| LoaderDebug.DebugSameErrors | loader.c:72-289 | they fail on the same inputs, in the same way |
| Loader.UnknownSection | loader.c:109-277 | a section is rejected exactly when its id exceeds 6 |
| LoaderDebug.InvalidMeansUnknown | loader.c:84-278 | EINVAL means that some header has an unknown id, and a buffer with one never parses |
| LoaderRoundTrip.RoundTrip | loader.c:72-289 | any printed container whose TYPES section, if any, is last parses back to the counts, positions, string starts, vtable pairs with jump offsets, and type sizes it was printed from |
| LoaderRoundTrip.SectionBack | loader.c:109-277 | each kind of section reads back where it lies, and moves the cursor to its end unless it is a TYPES section |
| LoaderRoundTrip.CursorInStepIff | loader.c:255-272 | the cursor meets the start of every section if and only if no section follows a TYPES section |
| LoaderRoundTrip.CodeReadsBack | loader.c:110-121 | the recorded position is where the instructions are |
| LoaderRoundTrip.StringReadsBack | loader.c:157-188 | the recorded starts are where the strings are, terminators included |
| LoaderDrift.PositionRightIff | loader.c:110-153 | in any printed container that parses, with no string table between a TYPES section and the last section that sets a code, integer or float position, that position is off by the total size of the TYPES sections before it, and so right if and only if there are none |
| LoaderDrift.Drift | loader.c:84-278 | as long as no string table follows a TYPES section the cursor lags behind by exactly the TYPES sections it has passed |
| LoaderDrift.TypesBeforeCode | loader.c:255-272 | a container that goes wrong: after an empty TYPES section the code is recorded at 24 instead of 28 |
| LoaderDrift.TypesBeforeNoStrings | loader.c:255-272 | a TYPES section that is not last does no harm here: an empty string table after it is read at the wrong place with the right result |
| LoaderDrift.FallThroughShows | loader.c:110-126 | a container of nothing but code parses in both builds with different results |
| LoaderContents.ConstantReadsBack | loader.c:63-153 | every integer and float constant, loaded little-endian and put through the byte swap, is the 64-bit pattern that was printed |
| LoaderContents.KeyReadsBack | loader.c:191-223 | the recorded key starts are where the keys are, terminators included |
| LoaderContents.LoadedProgram | loader.c:110-121 | the recorded code position holds, instruction by instruction, the program that was printed, as the dispatch loop decodes it |
| LoaderContents.HeaderNumber | loader.h:50-56 | the printed headers carry the format's section numbers 0 to 6 |
| ByteOrder.SwapReverses | loader.c:63-69 | `swap_int64` reverses the eight bytes in memory and is its own inverse |
| ByteOrder.Swap | loader.c:45-61 | the byte-by-byte `swap` computes what `swap_int64` computes by masks and shifts |
| ByteOrder.SwapReadsBigEndian | loader.c:63-69 | eight bytes laid down big-endian, loaded little-endian and swapped, are the number that was written |

## Left out

- 32-bit wrap-around of array sizes, `vm.base`, and the table's counters: sizes are unbounded, and running out of memory does not happen. The program counter, the run length in the sort and the type sizes do wrap.
- ALLOC, SETFIELD and GETFIELD: they end a run with `Unmodelled`, because they go into the foreign garbage collector; arena, roots and pools are not modelled either.
- Doubles: only their tag range is modelled. `get_double` dereferences the bit pattern, so arithmetic on a double is `Undefined`, as are integer overflow, division by zero and running off the code.
- The builtin call treats every word with the builtin tag as `println`, the only builtin there is, and records the printed word rather than its text; `println`'s word has an arbitrary address part.
- VirtualMachine.VM.RunFor: gives the endless dispatch loop as its first n turns, for every n.
- Constant strings in the symbol table are compared as strings, and CKEY's addresses are parameters of the program.
- CallDiscipline.MatchedCall: asks for well-formed code; a function that overwrites its register 0 can return to any address.
- LoaderDrift.PositionRightIff: does not cover a string table after a TYPES section, because the parser then skips by whatever number lies at the wrong place.
- Loader.Parse: vtables and types are the lists of decoded records in the order in which they are added; HASH_ADD_INT keys the vtable on four of the pair's eight bytes, so looking a pair up in the table is not modelled.
- Buffers are shorter than 4 GB, so the parser's 32-bit copy of the cursor is the cursor; opening and mapping the file is not modelled.
- The reads that debug output adds (constants and strings echoed while parsing) are not modelled.
- Loader.Parse: a read outside the buffer is `Fault`, where C's behaviour is undefined.
- HASH_REPLACE, HASH_CLEAR, HASH_ITER: compositions of the modelled operations or plain walks over the list. HASH_SELECT, Bloom filters and the other hash functions: not used by the program.
- JenkinsMix.HashJen: is not plugged into the table, whose theorems hold for any hash function.
- HashTables.HashTable.Add: a handle's key is fixed when the handle is made, instead of a pointer into the element that C code could overwrite.
- SlotGrowth.AmortisedCopying: the test against 0.6 is an exact comparison of integers, which is what it is for capacities of ten times a power of two.
- Which of several elements with equal keys a search returns is not stated; it depends on chain order, which an expansion reverses.
