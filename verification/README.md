# Nujel: compiler, virtual machine, heap and data structures

Nujel is a small Lisp. Source forms are compiled to symbolic assembly, assembled to
bytecode in two passes and run by a C virtual machine with a value stack and a stack of
closures. Around it stand a mark-sweep collector with one static array per object type, an
image format that writes and reads object graphs, AVL trees for every scope, an open
addressing hash map for the symbol table, a printer and a reader, and a library of in-place
array algorithms. This project models these parts and proves what they promise.

| files | part |
|---|---|
| Values, Primitives, Source | values, one-opcode primitives, and a reference evaluator that knows nothing about bytecode |
| Compiler, Assembler, AssemblerPasses | symbolic code generation, the two-pass assembler as functions and as the mutating passes |
| Machine, Interpreter | the VM as a transition system, and its dispatch loop over mutable thread fields |
| Laws | what programs can rely on: equations between programs, integers, bits, comparisons, truth, scopes and argument lists |
| Simulation, Programs | compiled code computes what the evaluator says, for whole programs in both directions |
| Heights, Depths, StackDepth, DeepForms | one stack height and scope depth for every position of compiled code, first in the code, then in every run; which heights the stacks have room for |
| Frames, Natives | call, return, throw and catch discipline of every VM state; argument passing |
| Folding | the arithmetic passes of the frontend |
| Memory, Marker, Collector, Runtime | slots and free lists, in-place marking, allocation and sweep, and whole runs of mutator and collector |
| Garbage | the VM cannot tell what becomes of closures that its roots do not lead to |
| ImageFormat, ImageWriter, ImageReader | serialising and deserialising object graphs with sharing and cycles |
| Trees, TreeNodes | AVL trees as values and in place |
| HashMaps | the hash map and symbol interning |
| HeapSorts | in-place heap sort |
| Printer, Ports | the printed text of a value, and the loops that write it to a growing string port |
| Parser, TextReader, ReadBack, ReadForms | the reader as a function of text and position, its loops over one cursor, reading back what was printed, and the forms that are never printed |

The evaluator works on expanded forms. Its store holds scopes linked to their parents; its
fuel bounds loop iterations and calls, so that a run that does not end is a fact about every
fuel. Integers are 64 bits wide and wrap around. The main theorem, `Programs.HaltsIffEvaluates`,
has as its only side condition that calls do not nest past the 16 bits in which the VM saves
the stack pointer, and `Programs.CallFreeHaltsIff` needs none; `Assembler.SmallCodeAssembles`
and `Compiler.SmallFormAssembles` reduce the assembler's conditions to a code size and a number
of literals. Evaluator and VM share one table of primitives, one notion of truth and one way to
bind arguments; `Laws` says what these are by equations between programs and by arithmetic, and
`Memory.RefsAreFields` and `ReadForms` do the same for what the collector follows and for what the
reader accepts.

Where the code does not do what its documentation or its other half says, the code is
modelled and the exact condition is proved:

- a `set!` of an unbound name throws, but not when the name needs a two-byte literal index
  (`Machine.WideSetAgreesIff`);
- `+` of a value that is not a number and `#nil` throws in bytecode but not when it is folded
  (`Folding.NativeAgreesIff`, `Folding.FoldingHidesError`);
- `<` on integers is the order of the integers only when their difference fits 64 bits, and a
  string that is a proper prefix of another is greater than it and smaller than it
  (`Primitives.LessIsExactIff`, `Primitives.StringOrderIff`); heap sort inherits this
  (`HeapSorts.SortsIff`);
- a native function of seven parameters gets other arguments from a list than from the stack
  (`Natives.ListEqualsStack`);
- a caught exception leaves one more value on the stack than the normal path
  (`Frames.CaughtDepth`);
- a list that ends in `#f` is printed without that end, a string only up to its first NUL, and an
  integer of more than 18 digits is printed but not read (`ReadBack.RoundTripIff`,
  `ReadBack.IntegerReadsBackIff`);
- the VM makes sure of 32 slots and 16 closures at calls and nowhere else, which is enough exactly for
  code that needs fewer (`StackDepth.ProvisionIff`, `DeepForms.OutgrownIff`);
- a map refuses to grow past 32768 slots because its size has 16 bits, even to update a key
  (`HashMaps.HashMap.Set`), and its string lookup gives up at the first key that is not a
  string (`HashMaps.HashMap.RefString`);
- the assembler truncates offsets that do not fit 16 bits without an error
  (`Assembler.OffsetRoundTrip`); its message about 255 literals guards a limit of 65535.

## Model

| member | source | states |
|---|---|---|
| Programs.HaltsIffEvaluates | stdlib/compiler/backend_bytecode/compiler.nuj:8-229 | the VM, loaded with the compiled and assembled program, halts normally with v at some step exactly when the evaluator yields v for some fuel |
| Programs.ProgramIsCorrect | stdlib/compiler/backend_bytecode/compiler.nuj:196-229 | for every fuel there is a number of steps after which the VM shows the evaluator's outcome: same value and same scopes, the thrown value as handlers receive it for an exception, still running for a timeout |
| Programs.HaltingIsExplained | lib/vm.c:206-887 | whatever a halting run ends with, value or thrown value and scopes, is what the evaluator says, given fuel for that many steps |
| Programs.ThrowsIffEvaluates | lib/vm.c:616-643 | the VM halts with an exception exactly when the evaluator raises one, and every halting run then ends with that thrown value as a list, the stack trace behind it where the VM adds one |
| Programs.CallFreeHaltsIff | stdlib/compiler/backend_bytecode/compiler.nuj:8-229 | for expressions without procedure calls the VM halts with v exactly when the evaluator yields v, with no condition on the run |
| Programs.NeverMalformed | stdlib/compiler/backend_bytecode/compiler.nuj:196-223 | evaluation of well-formed code in a well-formed store never gets stuck, only grows the store and keeps it well formed |
| Laws.ConsTakenApart | lib/vm.c:582-587 | for all forms that evaluate to a and b, `(car (cons e1 e2))` is a and `(cdr (cons e1 e2))` is b, with the effects of both |
| Laws.AtomHasNoParts | lib/vm.c:582-587 | of anything but a pair both are #nil |
| Laws.CadrIsCarOfCdr | lib/vm.c:588-590 | `(cadr e)` is `(car (cdr e))` everywhere: same value, effects, exceptions and termination |
| Laws.ListIsConses | lib/vm.c:591-596 | `(list e es ...)` is `(cons e (list es ...))`, and `(list)` is #nil |
| Laws.IntegersWrap | lib/vm.c:214-299 | sums, differences, products, negations and increments of integers are 64-bit numbers that differ from the exact result by a multiple of 2^64 |
| Laws.WrapsOnce | lib/vm.c:214-299 | there is one such number, and it is the exact result where that fits |
| Laws.SubtractionUndoesAddition | lib/vm.c:240-269 | `(- (+ x y) y)` is x for every 64-bit x, even when the sum wraps |
| Laws.MissingOperands | lib/vm.c:214-299 | `(+)` is 0, `(*)` is 1, `(+ x)` is x, `(- x)` is `(- 0 x)`, and `(-)` and `(* x)` are arity errors |
| Laws.OperandsThatAreNoNumbers | lib/vm.c:383-424 | anything else is a type error that names the second operand, except that + and * take a first operand of #nil for a missing one |
| Laws.ZeroIsEqualZero | lib/vm.c:565-576 | `(zero? e)` is `(= e 0)` everywhere |
| Laws.ZeroOfValue | lib/vm.c:565-576 | and true of the integer 0 only |
| Laws.IncrementLaws | lib/vm.c:577-581 | incrementing adds one to an integer and lets everything else pass |
| Laws.ThrowRaises | lib/vm.c:616-624 | throw raises the value of its operand, as an exception exactly if it is a pair |
| Laws.BitwiseResults | lib/vm.c:400-416 | bit k of `bit-and`, `bit-or`, `bit-xor` and `bit-not` is the boolean operation on bits k of the operands, for every k |
| Laws.BitsDetermine | lib/vm.c:400-416 | numbers with the same bits are equal, so this says what the results are |
| Laws.BitNotLaws | lib/vm.c:410-416 | `(bit-not x)` is `(- -1 x)`, and twice it is x |
| Laws.IntegersCompare | lib/vm.c:437-451 | < and > follow the order of 64-bit integers when their difference fits, and its reverse when it does not |
| Laws.TextsCompare | lib/val.c:9-39 | strings compare by the first character in which they differ |
| Laws.PrefixesCompare | lib/val.c:9-39 | a proper prefix is greater than what it begins, and that is greater than it |
| Laws.NamesCompare | lib/val.c:44-76 | symbols and keywords compare as their names |
| Laws.OtherTypesCompare | lib/val.c:44-76 | values of different types are neither smaller nor greater than each other |
| Laws.Complements | lib/vm.c:437-456 | `>=` is "not `<`", `<=` is "not `>`" and `!=` is "not `=`" for all operands |
| Laws.EqualMeansEqual | lib/vm.c:443-445 | `=` is true exactly of equal values, where it does not compare addresses |
| Laws.ConditionsBranch | lib/type-system.c:353-355 | `if` takes the else branch exactly for #nil and #f |
| Laws.ConditionsCombine | stdlib/compiler/backend_bytecode/compiler.nuj:117-141 | as conditions, `and` and `or` are nested `if` forms |
| Laws.ConnectivesYield | stdlib/compiler/backend_bytecode/compiler.nuj:117-141 | their values: the last one evaluated, #nil for `(and)`, #f for an `or` that finds nothing true |
| Laws.BoundAfterwards | lib/vm.c:494-553 | what `def` or `set!` has bound is what the name reads as |
| Laws.ScopesNest | lib/vm.c:600-607 | a definition in a `let` stays inside, an assignment reaches the scope that binds the name |
| Laws.InnerScopesSeeOuterOnes | lib/closure.c:44-57 | an inner scope sees what the outer one sees |
| Laws.EvalKeeps | lib/closure.c:58-60 | evaluation unbinds no name and changes the parent and the procedure of no scope |
| Laws.UnboundNamesFail | lib/vm.c:514-553 | a name that no scope on the way out binds can be neither read nor assigned, and the exception names it |
| Laws.ApplyIsCall | lib/vm.c:813-867 | `(apply f (list es ...))` is `(f es ...)` everywhere |
| Laws.OnlyProceduresApply | lib/vm.c:729-735 | a call of anything but a procedure or keyword is a type error that names it |
| Laws.ReturnLeaves | stdlib/compiler/backend_bytecode/compiler.nuj:173-175 | nothing behind a `return` is evaluated |
| Laws.ParametersAreBound | lib/closure.c:21-42 | each parameter is bound to its argument or to #nil, the rest parameter to the remaining arguments, and nothing else is bound |
| Laws.CallsPassArguments | lib/vm.c:729-757 | `((fn (x0 x1 ...) xi) e0 e1 ...)` is the value of ei, or #nil when there are too few |
| Laws.CallsCollectTheRest | lib/vm.c:729-757 | a rest parameter gets the list of the arguments that the names before it leave |
| Simulation.Sim | stdlib/compiler/backend_bytecode/compiler.nuj:8-194 | for every expression, running its bytes ends just past them with exactly one new stack slot holding the value, everything below unchanged, closure stack and running scope as before, and related scopes |
| Simulation.SimLoop | stdlib/compiler/backend_bytecode/compiler.nuj:66-76 | every prefix of a while loop's run, including endless ones, keeps the loop's stack picture |
| Simulation.SimApply | lib/vm.c:729-770 | a call of a procedure value runs its body in a fresh frame and comes back behind the call |
| Simulation.LookupAgrees | lib/vm.c:514-526 | the VM's search along the parent chain finds what the evaluator's scope chain binds |
| Simulation.StackBindingIsListBinding | lib/vm.c:741-757 | for fixed, dotted and bare rest parameter lists, binding arguments from the stack equals binding them from a list |
| Simulation.ListDownIsListOf | lib/vm.c:37-45 | consing stack slots from the top down gives the list in order |
| Compiler.CompileClosed | stdlib/compiler/backend_bytecode/compiler.nuj:8-194 | compiled code is a proper list whose labels are fresh, each defined once, and whose jumps only go to its own labels |
| Compiler.SmallFormAssembles | stdlib/compiler/backend_bytecode/compiler.nuj:225-229 | a form of at most 32765 bytes and 256 literals satisfies every assembler condition |
| Assembler.AssembledIsPlaced | stdlib/compiler/backend_bytecode/assembler.nuj:412-526 | each byte lies where pass one put it, each jump decodes to its label and each literal index fetches its literal |
| Assembler.EmittedIsPlaced | stdlib/compiler/backend_bytecode/assembler.nuj:433-439 | the same for any suffix of the item list, pool and position: the two passes agree |
| Assembler.SmallCodeAssembles | stdlib/compiler/backend_bytecode/assembler.nuj:441-457 | code of at most 32765 bytes with at most 256 literals assembles faithfully |
| Assembler.OffsetRoundTrip | lib/vm.c:31-35 | two relocation bytes decode to the offset exactly when it fits 16 bits |
| Assembler.OffsetBytes | lib/vm.c:31-35 | of the two bytes of an offset the first is the signed high one |
| Assembler.FlattenKeepsPlace | stdlib/compiler/backend_bytecode/assembler.nuj:507-514 | flattening moves no byte and no label |
| Assembler.AddLiteral | stdlib/compiler/backend_bytecode/assembler.nuj:448-457 | a literal gets the index of an equal entry or a new one, old entries stay, and a pool of 65535 refuses |
| Assembler.LiteralsShare | stdlib/compiler/backend_bytecode/assembler.nuj:448-457 | no literal stands twice in a pool, unless it is a pair or bytecode with an identity of its own |
| AssemblerPasses.Assembly.AddLiteral | stdlib/compiler/backend_bytecode/assembler.nuj:448-457 | the search loop over the growing literal array does what the specification says |
| AssemblerPasses.Assembly.BuildSymbols | stdlib/compiler/backend_bytecode/assembler.nuj:413-425 | the pass-one loop fills the symbol map with the layout and counts the bytes |
| AssemblerPasses.Assembly.EmitRelocated | stdlib/compiler/backend_bytecode/assembler.nuj:427-439 | the pass-two loop fills the output array with exactly the emitted bytes |
| AssemblerPasses.Run | stdlib/compiler/backend_bytecode/assembler.nuj:516-526 | the mutating passes one after the other return what the two-pass specification returns |
| Interpreter.Thread.Execute | lib/vm.c:206-887 | one dispatch over the mutable thread fields is one step of the transition system |
| Interpreter.Thread.FindBinder | lib/vm.c:541-553 | the scope chain loop finds the innermost closure that binds a symbol |
| Interpreter.Thread.BindFromStack | lib/vm.c:741-757 | the argument loop, rest list included, builds the specified bindings |
| Interpreter.Thread.BindFromList | lib/closure.c:21-42 | so does the loop over an argument list |
| Interpreter.Thread.Ret | lib/vm.c:868-880 | the return loop finds the nearest call frame and resumes below it |
| Interpreter.Thread.Catch | lib/vm.c:621-657 | stack trace, unwinding loop and handler call together are one unwinding step |
| Interpreter.Thread.Evaluate | lib/vm.c:115-206 | the evaluation loop performs exactly its number of turns as steps, and stops early only when halted or stuck |
| Interpreter.RunProgram | lib/vm.c:115-206 | compiling, assembling and running a program for a number of steps gives the mode and closures after that many steps, or after fewer when it has stopped there, and a run that ends gives a value or a thrown value, and scopes, that the evaluator gives |
| Machine.WideSetAgreesIff | lib/vm.c:534-553 | the one-byte and the two-byte set! agree exactly when the symbol is bound; otherwise the second does nothing |
| Machine.OpcodeTable | lib/nujel-private.h:205-263 | every primitive's opcode dispatches to that primitive |
| Frames.StepIsGood | lib/vm.c:206-887 | every step keeps a VM state well formed and moves the closure stack only by pushing fresh closures or cutting it |
| Frames.RunIsWf | lib/vm.c:206-887 | in every reachable state the running closure is the top of the closure stack, which holds no closure twice |
| Frames.CallReturns | lib/vm.c:729-770 | a call with n arguments that returns, from any nesting of let scopes, resumes after the apply with the closure stack restored, the stack lowered by n and the result on top; with a stack pointer above 16 bits it is cut instead |
| Frames.ReturnResumes | lib/vm.c:868-880 | the return that leaves a guarded frame restores what the call saved |
| Frames.ThrowUnwinds | lib/vm.c:621-657 | a throw with the try still armed resumes in the handler with the closure stack cut to its height when the try began |
| Frames.CaughtDepth | lib/vm.c:608-615 | after a handler returns, the stack is one slot higher than when the protected body starts |
| Frames.HandlerReceives | lib/vm.c:616-636 | a handler receives an exception as its list with the stack trace behind the last item, any other value as it is or as a list of one |
| Frames.TraceHoldsCalls | lib/vm.c:65-77 | the stack trace holds each call on the closure stack, behind exactly those above it, and nothing else |
| Frames.UncaughtHalts | lib/vm.c:636-643 | with no try on the closure stack a throw ends the run with what a handler would have received |
| Frames.BadHandlerThrows | lib/vm.c:683-690 | a handler that is no procedure is a type error raised in the code around its try |
| Heights.FlowExpr | stdlib/compiler/backend_bytecode/compiler.nuj:25-141 | every form compiles to code that meets each label at one height, leaves one more value at the scope depth where it started, and never reaches below its start |
| Heights.CodePlanned | stdlib/compiler/backend_bytecode/assembler.nuj:427-439 | assembled code whose symbolic heights agree has at every instruction a height that falls through and jumps only to positions of the height it leaves |
| Depths.ProcedureIsPlanned | stdlib/compiler/backend_bytecode/compiler.nuj:196-229 | every compiled and assembled procedure body has such a plan from height 0 |
| StackDepth.StepKeepsPlan | lib/vm.c:206-887 | every step takes a VM in which each activation sits at its planned height to another one, and changes no slot below the running activation |
| StackDepth.FixedHeights | stdlib/compiler/backend_bytecode/compiler.nuj:168-175 | two visits of a run to one code position, in any activation, path or loop turn, find the same number of stack slots and open scopes in the activation; it reads and writes only its own slots |
| StackDepth.CallIsOneValue | lib/vm.c:868-885 | a call that returns has replaced procedure and arguments by the result and changed nothing else on the stack |
| StackDepth.StacksSuffice | lib/vm.c:47-64 | when every height planned for the form, its procedures, the heap's code and bytecode literals stays below 32 slots and 16 scopes, no step of a run uses a slot past the end of either stack as it has grown so far |
| StackDepth.ProvisionIff | lib/vm.c:47-64 | what a call makes sure of suffices, for all sizes and all stack pointers at the call, exactly for heights below 32 slots and 16 scopes |
| DeepForms.OutgrownIff | lib/vm.c:193-204 | k nested `list` forms, which assemble and call nothing, stay within the 512 slots that the VM starts with exactly up to k = 510 |
| Natives.FromStack | lib/vm.c:771-781 | padding on the stack leaves the argument window followed by #nil and touches nothing below |
| Natives.ListEqualsStack | lib/vm.c:830-848 | list and stack deliver the same parameters for every argument sequence exactly for up to six parameters, or when the last two and the next argument coincide |
| Primitives.LessIsExactIff | lib/val.c:44-76 | integer < is mathematical exactly when the difference fits 64 bits |
| Primitives.StringOrderIff | lib/val.c:9-39 | string comparison is antisymmetric exactly when neither string is a proper prefix of the other, and zero exactly for equal strings |
| Folding.FoldPreserves | stdlib/compiler/frontend/constant_folding.nuj:15-46 | folding leaves value, effects, exceptions and termination of every expression unchanged in every environment, if no sum adds #nil to a constant that is not a number |
| Folding.NativeAgreesIff | lib/arithmetic.c:11-94 | where a native function returns a value the opcode returns the same, exactly outside that case |
| Folding.FoldingHidesError | lib/vm.c:214-239 | in that case folding gives a value and running gives an exception |
| Folding.LeftNestIsLeftFold | stdlib/compiler/frontend/macroexpander.nuj:40-49 | the expansion of an n-ary call evaluates each argument once from the left and combines from the left |
| Folding.ConstantsFold | stdlib/compiler/frontend/constant_folding.nuj:35-46 | an n-ary sum or product of integers folds to the exact result, wrapped once |
| Marker.Heap.MarkAll | lib/garbage-collection.c:247-259 | marking terminates on any graph and only marks reachable slots, leaving nothing marked with an unmarked child |
| Marker.Heap.MarkFields | lib/garbage-collection.c:130-245 | every type's mark function follows every reference of its object |
| Memory.MarkingIsExact | lib/garbage-collection.c:22-26 | from live slots at 0 and free or pinned ones at 2, exactly the reachable unpinned slots end at 1, and 2 stays 2 |
| Memory.RefsAreFields | lib/garbage-collection.c:130-245 | the references that the collector follows from an object are exactly those in the fields that a program can load |
| Memory.RootsArePlaces | lib/garbage-collection.c:120-259 | the roots are exactly the places from which a program can start: classes, native functions, symbol table, code, closure stack and value stack |
| Collector.RunIsSafe | lib/garbage-collection.c:283-290 | over every interleaving of allocations, loads of any field of any object in reach, stores, root changes and collections, nothing in reach is on a free list and no allocation returns a slot in reach |
| Collector.NextKeeps | lib/allocator.c:32-54 | each such step keeps the heap invariant |
| Collector.CollectKeeps | lib/garbage-collection.c:247-290 | after a collection no reference leads to a freed slot |
| Collector.CanWriteIff | lib/closure.c:58-60 | a store is open to the program exactly when its target and all that the new fields point to are in reach |
| Collector.FullIff | lib/allocator.c:37-46 | an allocation fails exactly when all slots but one are live |
| Collector.AllocationIsFresh | lib/allocator.c:37-54 | the slot an allocation returns is neither allocated nor accessible |
| Collector.ActiveCountsLive | lib/garbage-collection.c:42-118 | Active is the number of live slots, and the free list holds the others below Max, each once |
| Collector.Headroom | lib/allocator.c:50 | the collect-soon flag is raised at 127 remaining slots, after which exactly 126 allocations succeed |
| Runtime.Storage.Alloc | lib/allocator.c:37-54 | the in-place allocator performs that step, or returns nothing exactly when full |
| Runtime.Storage.Store | lib/closure.c:58-60 | a store into an accessible object is the mutator's step of that name and keeps the heap invariant |
| Runtime.Storage.SweepKind | lib/garbage-collection.c:267-279 | the sweep loop frees exactly the unmarked slots, keeps the others and resets marks |
| Runtime.Storage.Collect | lib/garbage-collection.c:283-290 | marking and sweeping in place free exactly the slots not reachable from the roots and keep the survivors untouched |
| Garbage.CollectionsAreInvisible | lib/garbage-collection.c:120-128 | the code, the closure stack and the value stack are roots enough: whatever any number of collections, at any points of a run, do to closures these do not lead to, code position, both stacks and result are those of the run without them |
| ImageReader.RoundTrip | lib/imageWriter.c:403-434 | every graph is written unless more than 24576 objects are reachable from its root, the image has exactly the size its reachable objects add up to, and whenever that size fits three-byte offsets reading it gives an isomorphic graph, cycles and sharing included, in which a symbol that was interned before is that very symbol and every name still has one symbol |
| ImageReader.OneSymbolPerName | lib/imageReader.c:57-62 | where the table finds every symbol, no two symbols have the same name |
| ImageReader.SameContents | lib/imageReader.c:64-131 | at the end of every path stands the same constant, or an object with the same name, bytes, flags or number of elements |
| ImageReader.SameSharing | lib/imageReader.c:19-33 | two paths from the root meet in the copy exactly when they meet in the original |
| ImageReader.SameShape | lib/imageReader.c:236-310 | every path leads on both sides to the same kind of value, or on neither |
| ImageReader.CopiesAreIsomorphic | lib/imageReader.c:64-131 | a finished build is an isomorphic copy of what the image holds |
| ImageReader.Reader.ReadVal | lib/imageReader.c:236-310 | reading a value of an image gives its copy and leaves what was built before untouched |
| ImageWriter.WriteImage | lib/imageWriter.c:403-423 | an image is produced exactly when at most 24576 objects are reachable; it holds the root at offset 0 and just the reachable objects, each once, and its size is theirs |
| ImageFormat.ReachIsLeast | lib/imageWriter.c:280-401 | the objects that paths from the root lead to are the least set that holds the root's object and is closed under references |
| ImageWriter.Writer.AddVal | lib/imageWriter.c:280-401 | adding a value changes nothing that was written before, writes the value and all it reaches, and grows the image by the sizes of the value and of the objects entered; it gives up only when the memo map is full |
| ImageFormat.SignedRoundTrip | lib/imageWriter.c:363-383 | n little-endian bytes decode to the number exactly when it fits n bytes |
| ImageFormat.LittleEndian | lib/imageWriter.c:26-38 | numbers and offsets are written with the least byte first: byte k is worth 256^k |
| ImageFormat.HeaderRoundTrip | lib/imageWriter.c:142-145 | length and flags of a record survive their shared header |
| Trees.InsertUpdates | lib/tree.c:86-105 | insertion updates the finite map and keeps the search order |
| Trees.InsertKeepsBalance | lib/tree.c:67-105 | insertion keeps exact heights and balance at every node and grows the tree by at most one, towards the new key |
| Trees.KeyList | lib/tree.c:121-127 | the key list is strictly ascending, holds every bound key once, and its length is the size |
| Trees.HeightBound | lib/tree.c:15-34 | a tree of height h holds at least Fib(h + 2) - 1 keys |
| Trees.HeightFits | lib/nujel-private.h:121-130 | a tree of fewer than 2^18 nodes is at most 25 high, so its height fits its 16-bit field |
| Trees.BuiltIsAvl | lib/tree.c:157-168 | any sequence of insertions builds an AVL tree that binds each key to its last value |
| TreeNodes.InsertNode | lib/tree.c:86-105 | the mutating insertion turns the nodes into the inserted tree and allocates only new nodes |
| TreeNodes.BalanceNode | lib/tree.c:67-82 | rebalancing in place relinks the same nodes |
| TreeNodes.Ref | lib/tree.c:109-118 | the lookup loop returns what the map binds in at most height steps |
| TreeNodes.SizeOf | lib/tree.c:24-27 | counting nodes gives the size of the tree |
| TreeNodes.KeysOnto | lib/tree.c:121-126 | consing keys from the right gives them in ascending order in front of the list |
| TreeNodes.Bind | lib/closure.c:58-60 | binding a symbol in a scope updates the finite map and keeps the scope an AVL tree |
| TreeNodes.Dup | lib/tree.c:146-155 | a duplicate is an equal tree that shares no node |
| HashMaps.HashMap.Set | lib/map.c:135-147 | storing updates the finite map, doubles the size at three quarters load, and exits exactly when 24576 keys are held |
| HashMaps.HashMap.SetSimple | lib/map.c:52-74 | probing adds or updates one entry, keeps probe chains free of gaps and keys unique |
| HashMaps.HashMap.Resize | lib/map.c:104-117 | growing keeps the contents, and fails exactly when the new size does not fit 16 bits |
| HashMaps.HashMap.RefSimple | lib/map.c:76-88 | lookup returns what the map holds |
| HashMaps.HashMap.Ref | lib/map.c:149-154 | a lookup of any key but #nil returns what the map holds, or #nil |
| HashMaps.HashMap.RefString | lib/map.c:156-171 | string lookup finds a key exactly when no key before it on its probe sequence is of another type |
| HashMaps.AbsentWhenMissed | lib/map.c:76-102 | a vacant slot, or a full circle, proves that the key is absent |
| HashMaps.Symbols.Intern | lib/symbol.c:170-193 | interning returns the symbol of that string, new or old, and never fills the table |
| HashMaps.Symbols.InternBoth | lib/symbol.c:170-193 | two calls return the same symbol exactly when the strings are equal |
| HeapSorts.HeapSort | stdlib/collections/array.nuj:112-119 | sorting in place ends, permutes, and does what the heap sort on values does; it sorts when no two elements are 2^63 or more apart |
| HeapSorts.SortsIff | stdlib/collections/array.nuj:112-119 | 64-bit integers are sorted from every order they can stand in exactly when no two of them are 2^63 or more apart |
| HeapSorts.Heapify | stdlib/collections/array.nuj:87-102 | sifting down restores the heap below a node and touches nothing past the heap |
| HeapSorts.MakeHeap | stdlib/collections/array.nuj:104-110 | the array becomes a heap |
| HeapSorts.ExtractRoot | stdlib/collections/array.nuj:112-119 | moving the root behind the heap extends the sorted suffix |
| ReadBack.RoundTripIff | stdlib/string/printer.nuj:102-161 | for nil, booleans, integers, strings, symbols, keywords, quotes, proper and dotted lists, `read` of `string/write` v is the one-element list of v exactly when no list in v ends in #f and no string holds a NUL; otherwise it is what printing kept |
| ReadBack.ReadPrinted | lib/reader.c:412-470 | the printed texts of several values, with spaces between them, read as the list of those values |
| ReadBack.TailReadsBack | lib/reader.c:412-470 | inside a list, the loop reads the rest of the items, dotted tails included, and stops behind the closing parenthesis |
| ReadBack.IntegerReadsBackIff | lib/reader.c:229-292 | an integer reads back exactly when it has at most 18 digits; a longer one is an error |
| ReadBack.SymbolReadsBackIff | lib/reader.c:166-227 | a name reads back as that symbol exactly when it is not empty, holds no space, bracket, quote, colon or dot, and starts neither a number nor an unquote |
| ReadBack.WriteThenRead | lib/reader.c:537-542 | the printer's loops followed by the reader's loops give back the value |
| ReadForms.CommentsCountForNothing | lib/reader.c:72-74 | a comment to the end of the line, a script line and a value behind `#;` count for nothing at the top and inside a list: the printed items around them are all that is read |
| ReadForms.SpacesSeparate | lib/reader.c:61-63 | each of the six white space characters separates items, and more of it changes nothing |
| ReadForms.AbbreviationsRead | lib/reader.c:472-508 | a quote, backquote, `~` or `~@` in front of a printed value reads as the two-element list with that name |
| ReadForms.BracketsRead | lib/reader.c:484-492 | printed items in parentheses read as their list, in brackets and braces as the list headed by `array/new` and `tree/new` |
| ReadForms.EmptyBracketsRead | lib/reader.c:412-470 | nothing between brackets reads as a list of #nil |
| ReadForms.DottedListsRead | lib/reader.c:412-470 | a printed value behind a dot ends the list |
| ReadForms.BrokenListsFail | lib/reader.c:412-470 | a list without its closing bracket, a closing bracket without a list or of another kind, and a dot without a value behind it are the errors of these names |
| ReadForms.LeadingDotFails | lib/reader.c:412-470 | a dot needs something before it |
| ReadForms.WordsRead | lib/reader.c:166-227 | `#nil`, `#t` and `#f` read as these, plain words as symbols, and with a colon at either end as keywords |
| ReadForms.BrokenWordsFail | lib/reader.c:193-227 | an unclosed string, a colon inside a word, and a `#` before a character that means nothing there are errors |
| ReadForms.EscapesRead | lib/reader.c:108-148 | each of the eleven escape letters reads as its character, and any other is an error |
| ReadForms.EscapesWritten | stdlib/string/printer.nuj:121-139 | each of these characters but NUL is printed with its letter |
| ReadForms.NumeralsRead | lib/reader.c:375-378 | `#x`, `#d`, `#o` and `#b` with digits in either case, separators and a sign read as the positional value in base 16, 10, 8 and 2, cut to 64 bits, up to 16, 18, 21 and 64 digits, and are errors beyond |
| ReadForms.DecimalsRead | lib/reader.c:229-292 | without a prefix, what starts with a digit, or a sign and a digit, is a decimal number |
| ReadForms.WrongDigitsFail | lib/reader.c:229-257 | a character that is no digit of the base, no separator and no end of the word is an error |
| ReadForms.ListText | stdlib/string/printer.nuj:102-119 | a list is printed as its items with one space between any two, in parentheses |
| ReadForms.StringText | stdlib/string/printer.nuj:121-139 | a string of ordinary characters is printed between quotes as it is |
| Printer.PrintedIsOneLine | stdlib/string/printer.nuj:121-139 | whatever its strings hold, a value is printed without a character from 7 to 13 or 27, unless a name holds one |
| Ports.WritePair | stdlib/string/printer.nuj:102-119 | the loop over the cells appends exactly the printed list to the port |
| Ports.WriteString | stdlib/string/printer.nuj:121-139 | the loop over the characters appends the escaped literal |
| Ports.StringPort.BlockWrite | stdlib/string/portng.nuj:126-132 | a block is appended, also when the buffer must grow |
| TextReader.ReadContext.Read | lib/reader.c:476-535 | reading a value returns what the reader function says and leaves the cursor where it says |
| TextReader.ReadContext.ReadList | lib/reader.c:412-470 | the list loop ends on every text, with the list, dotted tail or error that the reader function gives, and the cursor behind it |
| TextReader.ReadContext.ParseSymbol | lib/reader.c:193-227 | the symbol loop yields the symbol, keyword or misplaced colon that the reader function gives, and stops where it says |
| TextReader.ReadContext.ParseString | lib/reader.c:90-164 | the string loop yields the unescaped literal or the error that the reader function gives, and stops where it says |

## Left out

- Floats everywhere: values of that type do not occur, and comparisons, arithmetic and image tags for them are missing.
- Division, remainder and shifts: the opcodes and the native functions differ there.
- Native calls from bytecode, keyword method calls, `ref`, three-argument `set!`, `eval`, `environment*`, macros and inlined procedures: a VM state that reaches one is stuck.
- Programs.HaltsIffEvaluates: excludes programs whose calls nest past a stack pointer of 65535, because a return then resumes at a truncated height; Frames.CallReturns covers that case.
- Pairs and bytecode arrays under `=`: the VM compares their addresses, which values do not have, so such comparisons are stuck; in the literal pool they never share an entry.
- `try` in the evaluator and the compiler: only the VM's side of it is modelled, because the stack height differs after a catch.
- StackDepth.FixedHeights: for code without `try` and stacks that fit the 16-bit saved stack pointer; procedures already in the heap must have planned code, which every procedure that compiled code makes has.
- StackDepth.StacksSuffice: for stacks that fit the 16-bit saved stack pointer.
- Garbage.CollectionsAreInvisible: closures, the only objects of the VM model with an identity, and without reuse of the slots of collected ones, because the model allocates new numbers only; the slots of every type are the subject of the collector's own transition system, in which any C variable may hold references between safe points.
- Folding.FoldPreserves: only `+`, `-`, `*`, `bit-and`, `bit-or` and `bit-xor` of two arguments are folded; the source folds every function that is marked pure.
- Folding.LeftNestIsLeftFold: an operator with one argument or none stays a call of the native function, and such calls are not modelled.
- ImageReader.RoundTrip: an image past three-byte offsets counts as not copied, whatever the reader makes of its truncated offsets.
- The metadata field of closures, stack traces as shared and mutated lists, and undefined behaviour of signed overflow, which is modelled as wrap-around.
- `let*` whose body is not a `do` form, empty `do` and `while` bodies, and malformed special forms.
- Memory: `lNFuncAlloc`, which advances the native function counter twice, is not modelled; native functions exist from the start. The name field of a native function is not followed by the collector, and every interned symbol stays in the symbol table.
- Memory: buffers and arrays that the C library allocates beside the slots.
- ImageFormat: symbols in an image have distinct names of less than 94 bytes; longer names are truncated by the symbol table and may collide.
- Images of trees, maps, closures, bytecode, buffer views, file handles and native functions, static images, and the reader's behaviour on images that the writer did not write.
- ImageReader.Reader.ReadVal: the branches for negative offsets, unknown tags and offsets past three bytes are missing, because no written image reaches them.
- Trees: nodes without a key, which insertion never leaves behind.
- HashMaps: keys are compared by contents, while the runtime compares pairs and other objects by address, so two equal pairs are one key here; changing a buffer that serves as a key is not modelled; nor is the truncation of symbol names to 93 bytes, which does not affect identity.
- HeapSorts: arrays of other values than integers.
- Reading: floats, arrays, trees, buffers, character literals, block comments, dotted method symbols, and string literals that outgrow the 4096 byte scratch buffer end the model's reading; so does a quote in front of an error, which the reader wraps up as a list.
- Printing: the human readable form, and values whose text depends on addresses, closure names or bytecode.
- TextReader.ReadContext.ReadList: the cells that the reader splices onto its list are a growing sequence here.
