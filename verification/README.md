# A verified model of rumo

rumo compiles a small scripting language to bytecode and runs it on a stack machine with closures,
deferred calls, child machines and channels; its standard library has a JSON codec. This project
models the parts of it whose behaviour is hardest to see from the code, and proves what they
guarantee. `dafny verify dfyconfig.toml` checks everything.

Where the source changes state the model does too: the compiler, the dispatch loop, the frame stack, the
symbol tables, the scanner, the decoder, the encoder, the comparer, the copiers and the bytecode passes are
classes or loops over arrays, sequences and maps, each proved against a specification; the theorems are
about the specifications.

**Compiler, optimizer, machine.** `Language` has the source semantics of function bodies with literals,
variables, operators, `&&`, `||`, `?:`, assignment, blocks, if, for and switch. `CodeGen` specifies the code;
`Backpatch`, `CompilerState`, `ForState`, `SwitchState`, `SwitchProof` and the class in `Compiler` produce it by
emitting and patching jumps. `ExprProof`, `StmtProof` and `CompilerProof` show that the optimized code computes
what the source says. `Optimizer` has the passes of optimizeFunc, `OptimizerProof` that they preserve meaning and
when they panic, `OptimizerExact` which instructions they drop, `CompiledJumps` that compiled code meets what those theorems need. `StackMachine` is the meaning of
the instructions, `DispatchLoop` the loop that runs them.

**Self calls.** `TailCalls` is the machine with all instructions, with and without the reuse of frames; `TailCallProof`
shows that reuse is a call and a return, `TailCallCheck` when code guarantees what that needs, `TailCallSpace` what it
saves, `TailCallLoss` where it fails; `TailCallSource` ties the machine to the meaning of the instructions and to
source programs, `TailCallMeaning` says what calls, captured variables and deferred calls do on it.

**Frames and deferred calls.** `Frames`, `FrameProof`, `UnwindProof`: handleReturn and runNextDefer in normal
operation and during an abort. A function is what its calls do in one run, so a theorem about all such trees is one
about all finite runs.

**Abort tree.** `AbortTree`, `AbortProperties`: every atomic action is a step, a run is any interleaving.

**Heap graphs.** `Containers`, `Equality`, `Copying`, `Isolation`: heaps are maps from addresses to contents.

**Bytecode.** `Varint`, `ObjectCodec`, `CodecFormat`, `StreamEdit`, `Relink`, `Dedup`.

**Symbol tables.** `Symbols`, `SymbolRuns`.

**Channels.** `Channels`.

**JSON.** `JsonScanner` to `JsonOffset` are the scanner and the grammar, `JsonOpcodes` to `JsonMeaning` the decoder,
`JsonQuote`, `JsonEncode`, `JsonNesting` and `JsonRoundTrip` the encoder and the round trip; `JsonEscapes` and
`JsonStandard` state escapes, character classes, numbers and objects in the terms of RFC 8259.

Four results say where the code does not do what one would expect, and exactly when it does:

- optimizeFunc drops a return behind dead code even if something jumps to it, and then panics
  (`CompiledJumps.CompilingPanicsExactly`, `CompiledJumps.GuardThenReturnPanics`).
- A self call whose result is not returned is treated as a tail call as well, and then its result is returned
  (`TailCallLoss.PassedExactly`, `TailCallLoss.LostResult`).
- During an abort a deferred function is cut off behind its first call of a compiled function
  (`UnwindProof.SameAsReturn`, `UnwindProof.WorkIsLost`).
- A child can be registered after its parent's abort has begun, but only while the Abort body waits for the lock
  (`AbortProperties.LateChild`, `AbortProperties.LateChildIsPending`, `AbortProperties.NoChildAfterLock`).

Isolation of closures, which its comments promise for every closure, ends exactly on acyclic graphs
(`Isolation.EndsIffAcyclic`).

## Model

| member | source | states |
|---|---|---|
| Instructions.MakeInstruction | vm/instructions.go:10-35 | writes the opcode and every operand in its declared width, truncated to that width |
| Instructions.ReadOperands | vm/parser/opcodes.go:148-159 | reads the operands back at increasing offsets and says how many bytes they took |
| Instructions.DecodeEncode | vm/parser/opcodes.go:148-159 | reading operands undoes writing them if and only if each one fits its width |
| Instructions.EncodeDecode | vm/instructions.go:10-35 | writing operands that were read gives the same bytes |
| StmtProof.StmtRuns | vm/compiler.go:297-437 | the code of a statement, placed anywhere in a function, does to the local slots what the statement does to the variables, leaves the stack at the height it found, and jumps out only where a break, continue, fallthrough or return goes |
| ExprProof.ExprRuns | vm/compiler.go:206-296 | the code of an expression pushes exactly one value, the one the expression has, or fails as the expression does |
| StmtProof.LoopRuns | vm/compiler.go:1217-1281 | any number of rounds of a compiled for loop, with break and continue, follow the source loop |
| StmtProof.PreRuns | vm/compiler.go:1600-1648 | the comparisons of a case, each evaluating the tag anew, reach the body or the next case as the source semantics says |
| CompilerProof.CompiledFunctionIsCorrect | vm/compiler.go:171-437 | for every accepted function body, every meaning of the object operations and every junk in the free slots: the optimized code stops with a result exactly if the source does, with the same one, so both diverge together |
| CodeGen.AssignOpIsAssign | vm/compiler.go:950-979 | for each of the eleven assignment operators x op= e is accepted, compiled and executed as x = x op e; x++ and x-- as x = x + 1 and x = x - 1 |
| Compiler.CompileFunction | vm/compiler.go:506-526 | the compiler with its instruction buffer, loop and switch stacks and backpatching rejects exactly the bodies that break the scoping and jump rules, and otherwise gives the code, constants and slot count of the specification, or the panic of optimizeFunc |
| Compiler.Compiler.CompileLogical | vm/compiler.go:1194-1215 | && and || keep the left value or drop it and jump over the right operand |
| Compiler.Compiler.CompileFor | vm/compiler.go:1217-1281 | breaks are patched to the end of the loop and continues to the post statement |
| Compiler.Compiler.CompileSwitch | vm/compiler.go:1525-1749 | the default clause is placed last wherever it is written, fallthrough goes to the next body placed, continue is refused |
| Compiler.Compiler.ChangeOperand | vm/compiler.go:2141-2145 | rewrites the target of one emitted jump and nothing else |
| Optimizer.FindTargets | vm/compiler.go:2155-2165 | pass 1 finds exactly the targets of all jumps of the stream |
| Optimizer.EliminateDeadCode | vm/compiler.go:2167-2190 | pass 2 keeps the instructions of the specification in order and maps their old positions to the new ones, testing returns before jump targets |
| Optimizer.UpdateJumps | vm/compiler.go:2192-2221 | pass 3 relocates every jump, panics if one has nowhere to go, and says whether a return has to be appended |
| OptimizerProof.OptimizeFuncSimulates | vm/compiler.go:2150-2238 | the optimized code does step for step what the original with an undefined return behind it does, for every meaning of the instructions |
| OptimizerProof.PanicsExactly | vm/compiler.go:2174-2180 | on any code whose jumps lead to instructions, pass 3 panics if and only if a kept jump leads to a return dropped as dead |
| OptimizerProof.EveryPathReturns | vm/compiler.go:2219-2237 | every position of the new code that a run can be at holds a whole instruction that returns or leads on to such positions |
| OptimizerExact.KeptExactly | vm/compiler.go:2167-2190 | an instruction is dropped exactly if a return stands before it, no jump leads to anything but returns in between, and none leads to it, unless it is a return itself |
| OptimizerExact.ReturnAppended | vm/compiler.go:2195-2237 | a return is appended exactly if nothing is left, or the last instruction left is no return, or a jump that is left leads to the end |
| CompiledJumps.BodyJumpsWell | vm/compiler.go:2141-2145 | all jumps of compiled code, backpatched ones included, lead to instructions of the same function or to its end |
| CompiledJumps.CompilingPanicsExactly | vm/compiler.go:2205-2214 | compiling an accepted function panics if and only if a kept jump leads to a return that pass 2 has dropped |
| CompiledJumps.GuardThenReturnPanics | vm/compiler.go:2175-2180 | it does for func(c) { if c { return }; return }, which the compiler accepts |
| DispatchLoop.VM.Run | vm/vm.go:398-443 | the loop over a stack array that is doubled on demand runs the code as its meaning says, and overflows exactly when the stack reaches the size doubling gives for the configured limit |
| DispatchLoop.VM.Execute | vm/vm.go:444-573 | what each instruction without a jump does to the live part of the stack, errors included |
| DispatchLoop.VM.CheckGrowStack | vm/vm.go:1434-1452 | growing keeps the live stack and refuses exactly at the limit |
| DispatchLoop.CapacityIsDoubling | vm/vm.go:1434-1452 | the stack can grow to the first of the sizes n, 2n, 4n and so on that is no less than the configured one |
| TailCallSource.TurnIsStep | vm/vm.go:444-643 | on one activation whose slots hold values the machine with frames does turn by turn what the meaning of the instructions says: operands, slots, constants, jumps, results and errors |
| TailCallSource.CallRunsSource | vm/vm.go:444-643 | and so a function of the compiled fragment called on it, with or without reuse of frames, ends with a result or an error exactly when its source does, with the same one |
| TailCallMeaning.CallAndReturn | vm/vm.go:931-950 | a function called in a frame of its own starts with the arguments in its first slots, and the caller goes on behind the call with the result in place of the function and the arguments |
| TailCallMeaning.SpreadUndoesRollUp | vm/vm.go:855-891 | a variadic function that spreads its last parameter passes on the arguments it was called with |
| TailCallMeaning.ClosureShares | vm/vm.go:1150-1216 | a closure and the function that made it share the captured variable: either sees what the other assigns, until the variable is declared anew |
| TailCallMeaning.ReturnRunsDefers | vm/vm.go:1300-1432 | at a return deferred native functions are called last first, their results dropped, and the caller gets the result computed before |
| TailCallMeaning.DeferEnters | vm/vm.go:1360-1420 | a deferred compiled function gets a frame with its arguments, and what it returns changes nothing in the function that deferred it |
| TailCallMeaning.OperandOrder | vm/vm.go:616-730 | operands are in the order in which they were pushed, the value assigned before the selectors |
| TailCallProof.ReuseIsCall | vm/vm.go:907-930 | a run over any compiled functions, closures, variadic and spread calls and deferred calls that reuses frames ends as the run that calls and returns: same result, globals, captured cells and objects, same error, or neither ends; provided the run without reuse never reads a slot or operand before it is written, and a frame that could have been reused returns what its call gave it |
| TailCallCheck.CheckedIsProper | vm/vm.go:1091-1144 | code that passes a check of written slots and operand counts per instruction never reads a slot or an operand that has not been written |
| TailCallCheck.CheckedReuse | vm/vm.go:907-930 | for such code, in which each function returns the results of its calls in tail position or returns nothing anywhere, reuse and real calls agree on every call, whatever the slots held |
| TailCallSpace.MoveFns | vm/vm.go:931-950 | with reuse a frame is added exactly for a compiled function that is deferred, or called in other ways than by a self call in tail position with no deferred calls pending |
| TailCallSpace.OneFrame | vm/vm.go:921-928 | a run whose calls are all such self calls has one frame throughout, at any recursion depth |
| TailCallSpace.FramesBounded | vm/vm.go:907-950 | if all other calls go to functions of lower rank, the number of frames never exceeds the rank of the function called |
| TailCallSpace.SpaceBounded | vm/vm.go:921-950 | the stack pointer of such a run is bounded by the code, every frame has the slots of its function, and whenever a function starts again its stack is as it was at the call |
| TailCallLoss.PassedExactly | vm/vm.go:913-920 | a frame returns every result its self call gives it exactly if OpReturn 1 follows the call; the branch also fires where that is not so |
| TailCallLoss.BehindTheCall | vm/vm.go:1075-1090 | what a frame returns after a real self call, for each of the code patterns that are looked for |
| TailCallLoss.LostResult | vm/vm.go:917-920 | for f := func(x) { if x { f(undefined); return }; return 5 }, reuse gives f(1) the result 5 where a real call gives undefined |
| TailCallLoss.OnlyTheTailFails | vm/vm.go:917-920 | that function passes the check, so the condition on what follows a call cannot be dropped |
| Frames.VM.RunDefers | vm/vm.go:1360-1432 | pops deferred calls, calls builtin ones at once, enters a frame for the first compiled one |
| Frames.VM.Return | vm/vm.go:1293-1358 | the frame stack after a return, in normal operation and while an abort unwinds |
| FrameProof.CallRuns | vm/vm.go:1293-1358 | a call of a function of any nesting of calls and defers runs its body, then its deferred calls once each in LIFO order; the caller gets the result computed before them, and its frame, position and stack are restored |
| FrameProof.ProgramRuns | vm/vm.go:1075-1090 | so does a whole program in which no call fails |
| FrameProof.CallFaults | vm/vm.go:892-935 | a wrong number of arguments is an error whatever room there is, and then a missing frame |
| FrameProof.FailingDefer | vm/vm.go:1366-1430 | a deferred call that fails leaves those registered before it unrun |
| UnwindProof.AbortAnywhere | vm/vm.go:409-420 | aborted after any number of steps, the machine stops without a fault, having started every pending deferred call of every frame once, innermost frame first and last in first out within a frame |
| UnwindProof.AbortUnwinds | vm/vm.go:1293-1358 | the same from any state between two steps |
| UnwindProof.SameAsReturn | vm/vm.go:1308-1350 | an abort runs a deferred function as a return would if and only if nothing is to be seen behind its calls of compiled functions, at any depth |
| UnwindProof.PendingSameAsReturn | vm/vm.go:1308-1350 | and all deferred calls of a frame if and only if that holds of each |
| UnwindProof.WorkIsLost | vm/vm.go:1308-1350 | a program whose deferred function does its work after a normal return and not after an abort |
| AbortTree.InvReachable | vm/vm.go:287-342 | an invariant of every interleaving of Abort, addChild, delChild and RunCompiled: locks, child maps, wait counts and marks |
| AbortProperties.AbortReachesDescendants | vm/vm.go:287-302 | where no Abort body is in progress below it, an aborted machine has only aborted registered descendants |
| AbortProperties.LateChild | vm/vm.go:307-325 | a child can be registered after its parent has been marked: a run of five actions |
| AbortProperties.LateChildIsPending | vm/vm.go:307-325 | then the Abort body is still waiting for the lock and will visit the child |
| AbortProperties.NoChildAfterLock | vm/vm.go:287-302 | once the Abort body has the lock no child is registered any more, in any continuation |
| AbortProperties.AbortVisitsAll | vm/vm.go:287-302 | between getting and giving back the lock, in any interleaving, the Abort body turns exactly once to each child registered when it got the lock and to nothing else, and at the end all of them are aborting |
| AbortProperties.MachinesFirst | vm/vm.go:287-302 | in any interleaving it turns to the child machines before it cancels native calls |
| AbortProperties.WaitGroupIsExact | vm/vm.go:307-342 | the wait count is the number of live children, so waiting ends exactly when there are none |
| AbortProperties.SubtreeFinished | vm/vm.go:240-262 | when RunCompiled has returned, its whole subtree has finished |
| AbortProperties.NestedParentToChild | vm/vm.go:291-296 | an Abort body inside another one went from a parent to its child |
| AbortProperties.AbortsComplete | vm/vm.go:287-342 | no deadlock: from any reachable state the critical sections can run to their ends within a computed number of actions |
| AbortProperties.CriticalRunIsShort | vm/vm.go:287-342 | and no schedule of them takes longer |
| AbortProperties.AbortGetsThrough | vm/vm.go:287-302 | after that the registered subtree of every aborted machine is aborted |
| Isolation.Isolate | vm/routinevm.go:239-271 | for an acyclic closure graph the copy has fresh cells, is isomorphic to the original, and no original cell changes |
| Isolation.Spawner.Rec | vm/routinevm.go:273-345 | the recursion with its alias table and its lazily created seen map copies each cell once |
| Isolation.Aliases | vm/routinevm.go:245-257 | each slot is mapped to the first slot with the same cell |
| Isolation.NothingShared | vm/routinevm.go:73-77 | from the copy no cell that existed before can be reached |
| Isolation.SharingIsKept | vm/routinevm.go:294-335 | two slots share a cell in the copy exactly if they did in the original |
| Isolation.NestedSharingIsKept | vm/routinevm.go:305-329 | also between a function and one that its cell holds |
| Isolation.EndsIffAcyclic | vm/routinevm.go:328-333 | the recursion, which enters a cell only after copying what it holds, ends if and only if the graph is acyclic |
| Isolation.RecursiveClosure | vm/routinevm.go:328-333 | a closure that captures the cell it is stored in never ends |
| Equality.Equals | vm/objects.go:327-359 | terminates on every heap and is true exactly if the graphs are bisimilar, whatever order maps are ranged over |
| Equality.Comparer.MapEquals | vm/objects.go:1413-1445 | one map comparison with the shared visited set |
| Equality.Comparer.EqualsElem | vm/objects.go:1759-1769 | dispatch on the kind of the element |
| Containers.BisimilarIffIndistinguishable | vm/objects.go:331-359 | bisimilar means that no finite path of indices and keys reaches differing leaves, sizes or kinds |
| Copying.Copy | vm/objects.go:296-316 | terminates, leaves the original unchanged and gives a graph copy with one new unfrozen container for each reachable one |
| Copying.Copier.CopyMap | vm/objects.go:1385-1402 | a map is registered before its entries are copied |
| Copying.CopyIsEqual | vm/objects.go:300-316 | the copy compares equal to the original, cycles and sharing included |
| Copying.CopyIsNew | vm/objects.go:300-316 | everything reachable from the copy is new |
| Copying.CopySharing | vm/objects.go:1773-1783 | two paths of indices and keys from the copy meet in one container if and only if the same two paths from the original do |
| Varint.ZigZagRoundTrip | vm/codec/encoding.go:768-780 | zigzag coding of a signed integer of any width is undone, the smallest integer included |
| Varint.UvarintRoundTrip | vm/codec/encoding.go:410-438 | a varint of up to 64 bits is read back at any offset, with its end |
| Varint.MarshalUint | vm/codec/encoding.go:410-418 | writes the groups of seven bits in place and nothing else |
| Varint.UnmarshalUint | vm/codec/encoding.go:422-438 | the reading loop is the specification, overflow and short buffers included |
| Varint.LeRoundTrip | vm/codec/encoding.go:455-480 | fixed-width little-endian integers are read back |
| CodecFormat.UvarintBytes | vm/codec/encoding.go:400-420 | byte i of a varint holds bits 7i to 7i+6 and whether another byte follows, and there are no more bytes than needed |
| CodecFormat.SignedNumbers | vm/encoding.go:11-44 | every number of 64, 32 and 16 bits is serialisable as int, int32, char and int16, and no other, and which type code and bytes it is written as |
| CodecFormat.UnsignedNumbers | vm/encoding.go:11-44 | the same for uint64, the bits of float64 and float32, uint and uint16 |
| CodecFormat.Functions | vm/encoding.go:376-384 | a compiled function is its instructions, the numbers of its locals and parameters, whether it is variadic, its source map and no captured cells, in this order |
| CodecFormat.Arrays | vm/codec/encoding.go:102-116 | an array is its code, its mark, the number of elements, the elements and four bytes 1 |
| ObjectCodec.SizeIsExact | vm/encoding.go:164-285 | SizeOfObject is the number of bytes written, for every serialisable object tree |
| ObjectCodec.MarshalObject | vm/encoding.go:288-450 | writes the code of the object at the offset and nothing else |
| ObjectCodec.ObjectRead | vm/encoding.go:451-712 | reading where an object was written gives an equal object and the end offset |
| ObjectCodec.WriteThenRead | vm/encoding.go:288-450 | both, at any offset of any buffer with room for the announced size |
| ObjectCodec.AnyOrder | vm/codec/encoding.go:202-215 | map entries may be written in any order |
| Dedup.Bytecode.RemoveDuplicates | vm/bytecode.go:367-527 | the pool and every instruction stream after deduplication; each function is rewritten once |
| Dedup.SameMeaning | vm/bytecode.go:607-634 | OpConstant and OpClosure denote the same constant as before, and every other instruction is as it was |
| Dedup.SameConstants | vm/bytecode.go:393-515 | every constant is found at its new index, which is no larger than the old one |
| Dedup.NoneLeft | vm/bytecode.go:393-512 | no two equal constants of the kinds that are shared remain |
| Dedup.OrderIsKept | vm/bytecode.go:393-515 | first occurrences keep their order |
| Dedup.SecondRun | vm/bytecode.go:517-526 | a second run changes neither the pool nor the instructions |
| Relink.CollectBuiltinIndices | vm/bytecode.go:42-55 | the builtin indices used by a stream |
| Relink.UsedExactly | vm/bytecode.go:42-55 | the indices collected are exactly the operands of OpGetBuiltin |
| Relink.PatchBuiltinIndices | vm/bytecode.go:147-159 | each builtin operand is replaced in place through the table, also if old and new indices overlap |
| Relink.TableLoads | vm/bytecode.go:102-143 | reading a written name table fails exactly if a name is unknown to the reader, and otherwise sends each index to the place of the same name |
| Relink.RelinkingKeepsNames | vm/bytecode.go:295-348 | after loading and patching every OpGetBuiltin selects the builtin of the same name and no other byte changes |
| Symbols.ResolveIsLexical | vm/symbol_table.go:83-113 | a name resolves exactly if lexical scoping finds a definition, and following the free symbols of the enclosing functions ends there |
| Symbols.VisibleAreDistinct | vm/symbol_table.go:158-172 | visible variables of one function have different slots, all below MaxSymbols |
| Symbols.RaiseMaxExact | vm/symbol_table.go:165-172 | MaxSymbols is raised exactly in the tables from the current one to that of its function, and no further than the new slot needs |
| SymbolRuns.ScopingIsLexical | vm/symbol_table.go:83-113 | resolution is lexical after every sequence of forks, definitions, assignments, builtin definitions and lookups |
| SymbolRuns.BuiltinsResolve | vm/symbol_table.go:67-80 | a name that no operation of the compilation defines as a variable resolves from everywhere to the builtin function of the number it was last given, and not at all if it was given none |
| SymbolRuns.BuiltinStays | vm/symbol_table.go:67-80 | a builtin definition holds, with its number, from every table that nothing hides it from, until the name is defined again |
| SymbolRuns.VisibleSlotsDiffer | vm/symbol_table.go:158-172 | after every such sequence two visible names have different slots, and a local slot is below the size its function announces |
| SymbolRuns.OwnInitialValue | vm/symbol_table.go:86-90 | a local is invisible in its own initial value, visible to functions written there, and visible once it is marked as assigned |
| SymbolRuns.CapturesAreShared | vm/symbol_table.go:174-183 | the mark a closure sees on a captured variable is that of the definition, whenever it is set |
| SymbolRuns.GlobalsAreFresh | vm/symbol_table.go:41-63 | after every sequence of operations the global definitions have been given the indices 0, 1, 2 and so on, none twice |
| SymbolRuns.UnassignedIsLost | vm/symbol_table.go:83-113 | an unassigned local in a function table of its own is replaced by a captured variable of the same name |
| SymbolRuns.Opens | vm/symbol_table.go:115-120 | a forked table begins a function of its own or belongs, as a block, to the one around it, starts empty and numbers its variables accordingly |
| SymbolRuns.SymbolTables.ForkTable | vm/symbol_table.go:115-120 | Fork opens a table without changing those around it |
| SymbolRuns.SymbolTables.DefineSymbol | vm/symbol_table.go:41-63 | Define as it updates counters and stores |
| SymbolRuns.SymbolTables.DefineBuiltinSymbol | vm/symbol_table.go:67-80 | DefineBuiltin enters the name at the root |
| SymbolRuns.SymbolTables.MarkAssigned | vm/compiler.go:997-1005 | setting LocalAssigned changes the definition and its captures |
| SymbolRuns.SymbolTables.ResolveName | vm/symbol_table.go:83-113 | Resolve as it fills the free lists |
| Channels.ValuesAreConserved | vm/routinevm.go:383-421 | over all interleavings: values received and then buffered are those successfully sent, in order of effect, and at most one close succeeds |
| Channels.NoSendAfterClose | vm/routinevm.go:393-402 | no send takes effect after the close |
| Channels.DrainedBeforeUndefined | vm/routinevm.go:412-420 | a receiver gets undefined only when everything sent has been received |
| Channels.CloseGoesOn | vm/routinevm.go:424-437 | a second closer only waits while the first can go on |
| Channels.CheckedThenClosed | vm/routinevm.go:387-397 | a send that passed the check can still find the channel closed |
| Channels.RefusalsAreTrue | vm/routinevm.go:383-437 | a send is refused only once a close has begun, a receiver gets undefined and a close is late only once the channel is closed |
| Channels.NoSendPassesTheFlag | vm/routinevm.go:387-390 | once the flag is set no further send gets past its check |
| JsonScanner.Scanner.CheckValid | std/json/scanner.go:19-31 | the state machine with its fields accepts the bytes exactly if the specification does and otherwise reports the offset |
| JsonScanner.ErrorsStick | std/json/scanner.go:553-562 | once an error is recorded every further byte reports it |
| JsonTheorem.AcceptsExactlyJson | std/json/scanner.go:169-550 | checkValid accepts exactly the JSON texts of sections 2 to 7 of RFC 8259 that are nested at most 10000 deep |
| JsonStandard.ClassesOfTheStandard | std/json/scanner.go:139-167 | white space, digits, hexadecimal digits and escapes are those of RFC 8259, and the depth limit is 10000 |
| JsonOffset.ErrorOffset | std/json/scanner.go:19-31 | the reported offset is the length of the longest prefix that can be completed to a JSON text, one more if a byte is wrong |
| JsonUnquote.UnquoteBytes | std/json/decode.go:269-378 | the loops, with their fast path that returns the literal itself, compute the specification |
| JsonUnquote.StringsUnquote | std/json/decode.go:269-378 | unquoting never fails on a string the scanner has accepted |
| JsonEscapes.FourDigits | std/json/decode.go:236-262 | four hexadecimal digits in either case behind a backslash and u stand for the character of that number, whatever follows |
| JsonEscapes.PairIsOneRune | std/json/decode.go:343-358 | a surrogate pair stands for the one character it encodes |
| JsonEscapes.LoneHalf | std/json/decode.go:343-358 | a half of a pair without the other stands for the replacement character |
| JsonEscapes.ShortEscape | std/json/decode.go:313-338 | each short escape stands for the same character as the long one with its number |
| JsonEscapes.NothingElse | std/json/decode.go:309-366 | no other escape and no control character can stand in a literal |
| JsonDecoder.Decode | std/json/decode.go:20-47 | terminates, is never out of sync, gives the value of the text for every JSON text and otherwise the error |
| JsonDecoder.Decoder.ParseArray | std/json/decode.go:115-141 | the loop over elements consumes the array and gives its value |
| JsonDecoder.Decoder.ParseObject | std/json/decode.go:143-194 | the loop over members; a later member replaces an earlier one with the same key |
| JsonMeaning.OneMeaning | std/json/decode.go:92-113 | however a text is parsed by the grammar its value is the same |
| JsonStandard.LastMemberWins | std/json/decode.go:143-177 | an object has exactly the keys of its members, each with the value of the last member that has it |
| JsonStandard.NumberValue | std/json/decode.go:220-236 | a number without fraction and exponent that fits 64 bits is that integer, any other keeps its text |
| JsonNumbers.IntRoundTrip | std/json/decode.go:220-236 | every 64-bit integer is written as digits that are read back as the same integer |
| JsonQuote.EncodeString | std/json/encode.go:340-366 | both paths write the string with exactly the escapes of the specification |
| JsonStandard.QuotedAs | std/json/encode.go:376-404 | which escape each byte is written with |
| JsonStandard.KeysAscend | std/json/encode.go:171-177 | the keys of an object are written in ascending order, each once |
| JsonStandard.OrderOfKeys | std/json/encode.go:171-177 | that is by the first byte in which they differ, a prefix first |
| JsonQuote.StringRoundTrip | std/json/encode.go:369-410 | unquoting what was written gives back every UTF-8 string |
| JsonEncode.Encode | std/json/encode.go:137-188 | succeeds exactly on the heap values that unfold to a finite supported tree and writes its text; otherwise it names a cycle or an unsupported leaf that is really there |
| JsonEncode.Encoder.EncodeObject | std/json/encode.go:323-334 | a container that is being encoded already is refused; entering and leaving restore the visited set, also on errors |
| JsonEncode.EqualTexts | std/json/encode.go:164-188 | values that compare equal are written alike, however they are stored and shared |
| JsonNesting.SameDepth | std/json/scanner.go:139-150 | the nesting of a text does not depend on how it is parsed |
| JsonRoundTrip.RoundTrip | std/json/encode.go:137-188 | decoding what was encoded gives the value back, and succeeds if and only if the value has at most 10000 levels |

## Left out

Compiler and machine:

- Globals and the main program, calls, closures, heap values, for-in, select, goto, selectors, embed and imports are not in the compiled fragment; object operations are parameters, and names of builtin functions are unresolved in it.
- CompilerProof.CompiledFunctionIsCorrect: requires that code, constants, slots and stack need fit what operands and the configured stack can hold; MakeInstruction truncates beyond that.
- DispatchLoop.VM.Execute: instructions outside the fragment, reads of stack slots above the stack pointer and the allocation limit are one outcome, a crash; context cancellation is not modelled there.
- Source maps (pass 4 of optimizeFunc) and compiler warnings.
- StmtProof.StmtRuns: for-in, select, labels, goto, embed and type statements are not in the fragment.
- Compiler.CompileFunction: free symbols, variadic parameters, labels and the tail-call warning are left out.
- DispatchLoop.VM.Run: the context check and the abort flag at the head of the loop are left out; the abort is in Frames.
- DispatchLoop.VM.CheckGrowStack: only the call with no added slots is modelled, not the rounding for spread arguments.
- TailCallProof.ReuseIsCall: stack, frame and allocation limits are left out, so a real call never overflows; native functions are opaque, also if they run compiled ones on a machine of their own; after a failing deferred call the run is over.
- TailCallCheck.CheckedReuse: the table of slots and operand counts is given, that the compiler's code has one is not proved; slicing something that cannot be sliced leaves no operand and is excluded from checked code.

Frames and abort:

- FrameProof.CallRuns: requires that no call fails, so a deferred call that fails, which leaves the rest undone, is only in the step functions; self tail calls are ordinary calls there, and variadic and spread arguments are left out.
- Frames.VM.RunDefers: the roll-up of variadic arguments is left out, it is in TailCalls.
- Frames.VM.Return: after a deferred call has failed outside an abort the model stops; the loop of the source, which does not look at the error there, goes on behind the return instruction and reports the error when it ends.
- UnwindProof.AbortAnywhere: the abort is noticed between two steps; the 256-instruction check of the context is not counted.
- The reset of `aborting` at the start of Run, and error collection in postRun.
- The caller of CallFunc may go on while its callback runs, which adds interleavings the code does not have; a cancel function is the abort flag of a native child.

Heap graphs:

- Struct instances, locks of arrays and maps, and what Equals and Copy do on leaves, which is a parameter.
- Equality.Comparer.EqualsElem: the branch for struct instances is left out.
- Isolation.Isolate: functions are values with a list of cells; containers held by captured cells stay shared, as in the code.

Bytecode:

- ObjectCodec.SizeIsExact: native loaders and object pointers are left out, as in ObjectCodec.MarshalObject and ObjectCodec.WriteThenRead.
- ObjectCodec.MarshalObject: native loaders and object pointers are left out.
- ObjectCodec.WriteThenRead: native loaders and object pointers are left out.
- ObjectCodec.ObjectRead: native loaders, object pointers, captured cells of functions and decoding of malformed input are not modelled; floats are their bits.
- Relink.RelinkingKeepsNames: requires at most 256 builtin functions with different names, as one-byte operands do; the sorting of the table does not matter to it.
- Dedup.Bytecode.RemoveDuplicates: plain maps of equal content are not merged, as sharing mutable objects is not meaning-preserving.
- Dedup.SameMeaning: plain maps are never shared in the model; content takes the place of SHA-256.
- The file set, embedded files and the header of the bytecode format.

Symbol tables:

- Symbols.ResolveIsLexical: tables are a sequence instead of linked objects, a captured symbol is a copy that is kept equal, and the depth result is left out.
- Redeclaration in a block, which the compiler rejects before it asks the tables.

Channels:

- Fairness, blocking beyond enabledness, and select.

JSON:

- Bytes are characters below 256; the UTF-8 library is a parameter with three laws.
- JsonDecoder.Decode: a number that is no 64-bit integer is kept as its text, its conversion to a float is not modelled.
- JsonEncode.Encode: floats, characters, byte strings, errors, structs and the narrow integer types are not encoded in the model.
- JsonRoundTrip.RoundTrip: requires that all strings and keys are UTF-8; others are decoded with replacement characters.
