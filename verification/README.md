# A verified model of jml

jml is a small language implementation in C: a lexer, a single-pass Pratt compiler to bytecode,
a stack machine with closures, a mark-sweep collector with interned strings, a hash map with open
addressing, a bytecode serialiser, UTF-8 strings and a two-pass JSON reader. This project models
its core and proves what each part promises. Components that change state in place are classes
whose methods follow the C functions branch by branch; each is tied to a specification, and the
promises are proved about the specification.

| component | files | main result |
|---|---|---|
| compiler and machine | `Bytecode`, `Syntax`, `Parser`, `Pratt`, `Printing`, `Formatting`, `Semantics`, `CodeGen`, `LoopEnd`, `Compiler`, `Machine`, `Simulation`, `Execution`, `Correctness`, `EndToEnd`, `Leaving`, `SourceText`, `ShortPrograms`, `Operators`, `Loops`, `Names`, `Precedence`, `Spelling`, `Opcodes` | the bytes emitted for a text come to rest exactly as the program ends, and run for ever exactly if it does |
| stack heights | `Heights`, `Peak`, `LeakyBreak`, `SkippedBranch` | exactly which programs have the height the compiler counts on, on every path; how high a stack gets |
| closures | `CellMachine`, `Coroutine`, `Resolution`, `ClosureLaws` | any run over stack slots and open upvalues is a run over one cell per variable; resolved upvalues alias the right cell; captured locals leave the stack the right way |
| memory | `HashMap`, `Collector`, `Fields`, `Arithmetic` | a collection keeps exactly what is reachable; the intern table is exactly the live strings; the hash map is a map |
| classes | `Classes` | a look into the flattened table is the walk up the chain of superclasses |
| JSON | `JsonGrammar`, `JsonReader`, `JsonModes`, `JsonStandard`, `JsonText` | both passes agree with one grammar, so the unchecked second pass stays in the buffer the first one sized; that grammar against RFC 8259 |
| text | `Utf8`, `Reverse` | UTF-8 coding and decoding are inverse; exactly when the reversal works |
| bytecode files | `Serialization`, `FileFormat` | exactly which chunks reach the file, and which of those read back |
| lexer | `Lexing`, `Lexer`, `WholeText`, `StringEnds`, `Alphabet`, `Gaps` | a whole run ends, is in order, has true line numbers, and reads written tokens back |

## How the parts are read

The compiler is modelled as the class `SinglePass.Compiler`, which reads tokens and appends to one
array of bytes with back-patched jumps. `Parser` says which tree the tokens drive it through,
`CodeGen` which instructions that tree stands for, `Semantics` what the tree means (a big-step
interpreter over environments, with `fuel` counting loop rounds), and `Machine` what the bytes do.
Arithmetic is a parameter everywhere, so no law about floating point is used. Numbers are known by
their 64-bit pattern.

Parser, compiler, interpreter and machine agree on what they share, whatever that is: which operator
binds more tightly, which operand is the left one, which sign spells it. Separate modules say what it
is, from outside: `Spelling` and `Precedence` which program certain texts are, `Operators`, `Loops` and
`Names` how certain programs end. In the same way `ClosureLaws` says what runs of the machine of cells
see, `Fields` which fields the collector follows, `JsonText` what the JSON grammar reads, and
`FileFormat`, `Opcodes`, `Alphabet` and `Gaps` which bytes and characters stand for what.

Properties that the code does not have are stated with the exact condition under which it has
them, and with an input that shows the failure:

* A newline behind a binary operator drops the operator, because `jml_binary` reads the type of the
  previous token after it has skipped newlines (and `JML_UNREACHABLE` is empty where assertions are
  not compiled in, as they are in no configuration).
  `Formatting.OperatorsKept` proves that a text keeps all its operators if and only if none of them
  ends a line; `EndToEnd.NewlineLosesOperator` shows the loss.
* The stack does not hold exactly the locals the compiler counts after `break` out of a block with
  locals, nor after a `let` directly in the body of an `if` or a loop. `Heights.HeightsExact` proves
  that every path through the bytes of an accepted program has the right height at every statement
  boundary if and only if the program is `CodeGen.Framed`, which can be checked on the text.
  `LeakyBreak.BreakLeaksLocals` and `SkippedBranch.BranchSkipsLocal` give one program of each kind.
* A push may find the stack at its greatest size, and so may a call that has to enlarge the frames:
  `jml_obj_coroutine_grow` then leaves no coroutine running, and both go on with it.
  `CellMachine.SafeWhen` says exactly when an instruction is safe from this,
  `CellMachine.LowStacksSuffice` which runs are, and `CellMachine.CallOverruns` gives a run that is
  not, on a stack little more than half full.
* The serialiser passes its buffer by value, so a caller goes on with the old block once a callee has
  enlarged it. The chunk stands in the caller's buffer if and only if it was enough from the start
  (`Serialization.Memory.SerializeBytecode`), and a file reads back if and only if that holds and all
  constants are of the kinds that are written (`Serialization.FileRoundTrip`). One string of 466
  bytes is too long (`Serialization.LongStringLost`).
* String reversal fails if the last character takes three or four bytes, and walks past its copy of
  the text if a NUL stands in front of the last byte (`Reverse.Reverse`).
* The first pass of the JSON reader looks behind the terminator of a text that is cut off in an
  exponent, and of no other text (`JsonReader.Parse`); `1e` is one (`JsonStandard.CutAtExponent`).
* Its second pass roots every open map and array, and every value it puts into one, in one of sixteen
  places without counting them. It stays inside them if and only if the value does not take more
  (`JsonReader.Places`, `JsonReader.Parse`): arrays may be nested fifteen deep and no deeper
  (`JsonStandard.NestedArrays`).
* The lexer takes a delimiter behind a backslash for an escaped one even where the backslash is itself
  escaped. A literal ends where its escapes say if and only if no backslash stands in front of that
  end (`StringEnds.EndsAsIntended`); `"\\"` is unterminated (`StringEnds.BackslashUnterminated`).
* `break` or `skip` as the last statement of a block is refused if and only if a newline follows it
  (`EndToEnd.BreakNeedsBrace`).
* An instance is freed while its class and its destructor are still there, as long as no class gets a
  destructor that is newer than one of its instances; a store keeps that if and only if it does not
  bring one about (`Collector.StoredClasses`). An `__inherit` hook or the initializer of a field, which
  are run before the class has its destructor, could.
* The length table that `jml_loop_end` walks by disagrees with what the machine reads on the try-invoke
  opcodes, on `OP_SWAP_LOCAL`, and on two more that depend on how the machine finds its code
  (`Bytecode.TableMatchesMachine`).

Two more are exact conditions rather than faults: a chunk in a buffer reads back, whatever stands
behind it, if and only if it has no constant of a kind that is not written
(`Serialization.RoundTripExact`), and defining a field of a class that others already inherit from
leaves lookups right if and only if every direct subclass shadows the name or sees the same value
(`Classes.Hierarchy.Define`).

Where code and documentation differ the code is followed. Strict JSON accepts a lone `-` as a number
at the end of a text, and control characters other than NUL, TAB, CR and LF inside strings, and no
surrogates out of pairs; `JsonText.StrictExact` proves that it reads the texts of RFC 8259 and differs
in nothing else, and `JsonStandard.NumberExact`, `JsonStandard.StringExact` and `JsonStandard.BodyOdd`
prove that of its sections 6 and 7. A `!` comment swallows the newline that ends it, so no newline token stands there.

## Model

| member | source | states |
|---|---|---|
| `SourceText.CompileSource` | src/jml_compiler.c:2554-2578 | from characters to behaviour: a text without an error of the lexer leaves the fragment iff it has a token of a left-out construct or the parser comes to one before it comes to an error; any other text is compiled iff its tokens, escapes, grammar, names, loop statements and jump widths are in order, and refused otherwise; if no operator ends a line and the program is framed, its bytes and constants come to rest in a configuration iff the program ends that way |
| `Leaving.LeavesAtMark` | src/jml_compiler.c:1584-1735 | tokens leave the fragment only at a bracket, member, pipe or swap sign, at a parenthesis behind an operand or at a brace where an operand has to stand |
| `Leaving.MarkedLeaves` | src/jml_compiler.c:1684-1735 | whatever begins with a call, index, member, pipe or swap of a name leaves it, and is no error |
| `SourceText.SourceRoundTrip` | src/jml_lexer.c:391-478 | every program of the fragment has a text that is compiled as that program, keeping all its operators |
| `Spelling.OperatorSpelt` | src/jml_lexer.c:391-478 | which sign is which operator: the characters of `let x = a sign b` are read as the program with that operator |
| `Spelling.WordsSpelt` | src/jml_lexer.c:156-252 | the same for `and`, `or`, `not` and the minus in front of an operand |
| `Spelling.ConstantsSpelt` | src/jml_compiler.c:961-1130 | for `none`, `true`, `false`, strings and names |
| `Spelling.AssignmentSpelt` | src/jml_compiler.c:1215-1249 | for assignments by each of their signs |
| `Spelling.DefaultSpelt` | src/jml_compiler.c:1975-1996 | `let x` alone is read as a variable that is none |
| `Spelling.StatementsSpelt` | src/jml_compiler.c:2513-2552 | for loops, `break`, `skip`, both branches of `if`, and blocks |
| `EndToEnd.CompileText` | src/jml_compiler.c:2554-2578 | the same from tokens: they leave the fragment iff the parser comes to a left-out construct before it comes to an error of the grammar; any others are accepted iff the grammar, the names, the loop statements and the jump widths are in order; if no operator ends a line and the program is framed, the bytes and constants come to rest in a configuration iff the program ends that way |
| `EndToEnd.BreakNeedsBrace` | src/jml_compiler.c:2231-2259 | a block that ends with `break` or `skip` is refused iff a newline stands in front of its brace |
| `ShortPrograms.ShortCompilable` | src/jml_compiler.c:264-338 | no program of 5000 statements and operations at the most is refused for the width of a jump or of an index |
| `Correctness.CompilerExact` | src/jml_vm.c:1286-2039 | for every framed program, on a stack without limit: the machine halts with the globals, or crashes with the error, exactly if the interpreter finishes with them; it is never stuck and diverges exactly if the program does |
| `Correctness.CompilerCorrect` | src/jml_vm.c:1286-2039 | the same for one number of loop rounds: with any number of loop rounds the bytes reach the interpreter's outcome, or stay busy that long |
| `Execution.SimulateStmt` | src/jml_compiler.c:2199-2259 | every statement, compiled anywhere, takes the stack of exactly the visible locals to the stack of exactly the locals visible afterwards, or to the target of the enclosing loop for `break` and `skip` |
| `Simulation.SimulateExpr` | src/jml_compiler.c:808-889 | the code of an expression leaves its value on top of an otherwise unchanged stack, with the same effects on locals and globals and the same runtime error |
| `Correctness.Deterministic` | src/jml_vm.c:1286-2039 | the machine comes to rest in one configuration at most |
| `Operators.NumbersCompute` | src/jml_vm.c:995-1060 | a compiled `let x = a op b` halts with `x` holding the operator's result on the left and the right number, in this order, or fails on a zero divisor |
| `Operators.NumbersCompare` | src/jml_vm.c:1425-1469 | the same for comparisons, `!=` being the contrary of `==` |
| `Operators.StringsJoin` | src/jml_vm.c:1471-1512 | `::` yields the left text followed by the right one; texts are equal iff they are the same |
| `Operators.OthersEqual` | src/jml_value.c:287-320 | values that are not both numbers are equal iff they are the same |
| `Operators.WrongKindsFail` | src/jml_vm.c:995-1060 | operands of the wrong kind end the program with the error, before a divisor is looked at; so does `in` |
| `Operators.UnaryEnds` | src/jml_vm.c:1403-1423 | a literal, its negation and its truth value; minus fails on anything but a number |
| `Operators.LogicEnds` | src/jml_compiler.c:808-838 | `and` and `or` yield truth values, and leave out the second operand iff the first one decides |
| `Operators.GlobalEnds` | src/jml_vm.c:1989-2021 | reading a global gives its value, or the error iff it is not defined |
| `Operators.AssignEnds` | src/jml_vm.c:1955-1987 | assigning to a global changes it and yields the value, or fails iff it is not defined |
| `Operators.UpdateEnds` | src/jml_compiler.c:1215-1249 | an assigning operator has the variable for its left operand |
| `Operators.ChoiceEnds` | src/jml_compiler.c:2374-2406 | a compiled `if` takes its second branch iff the condition is none or false |
| `Names.ShadowingEnds` | src/jml_compiler.c:551-570 | a name stands for the innermost variable, and for the outer one again when the block has ended |
| `Loops.BreakEnds` | src/jml_compiler.c:2231-2244 | a compiled loop is entered iff its condition is neither none nor false, and left by `break` without the rest of the round |
| `Loops.SkipEnds` | src/jml_compiler.c:2247-2259 | `skip` leaves out the rest of the round, and the condition is read again |
| `Loops.OrderEnds` | src/jml_compiler.c:841-874 | the left operand is evaluated first, an assignment in one of them included |
| `Names.BlocksAccepted` | src/jml_compiler.c:670-695 | a block inside another one is accepted iff neither declares a name twice and there are 255 variables at the most |
| `Names.OwnInitializer` | src/jml_compiler.c:551-570 | the initializer of a variable may read any other variable, but none of the same name, not even one of the block around it |
| `Names.AssigningEnds` | src/jml_vm.c:1837-1887 | an assignment in an inner block changes the variable of the outer one |
| `SinglePass.Compiler.Compile` | src/jml_compiler.c:2554-2578 | the emitting parser produces exactly the code and constants of the parsed tree, or stops exactly if there is no tree, it is ill-named or its jumps do not fit; there is no tree where the text has an error or leaves the fragment, and `away` tells which |
| `SinglePass.Compiler.PrecedenceParse` | src/jml_compiler.c:1684-1728 | the Pratt loop emits the code of exactly the tree the token stretch stands for |
| `SinglePass.Compiler.AndRule` | src/jml_compiler.c:808-820 | the back-patched bytes of `and` |
| `SinglePass.Compiler.OrRule` | src/jml_compiler.c:823-838 | the back-patched bytes of `or`, two jumps |
| `SinglePass.Compiler.WhileStatement` | src/jml_compiler.c:2199-2228 | a loop with its exit jump, way back and resolved breaks |
| `SinglePass.Compiler.IfStatement` | src/jml_compiler.c:2374-2406 | both branches with their patched jumps |
| `SinglePass.Compiler.ScopeEnd` | src/jml_compiler.c:487-503 | exactly the locals of the innermost scope are dropped, one pop each |
| `SinglePass.Compiler.LoopEnd` | src/jml_compiler.c:644-666 | the walk over the body turns every placeholder into a jump to the exit and ends on an instruction boundary |
| `LoopEnd.FillExact` | src/jml_compiler.c:644-666 | after the walk each placeholder is an OP_JUMP that lands on the exit, and every other instruction is untouched whatever its operand bytes are |
| `LoopEnd.FillIsPatch` | src/jml_compiler.c:644-666 | filling the bytes is patching the instructions |
| `Bytecode.TableMatchesMachine` | src/jml_bytecode.c:604-702 | for every opcode of fixed length: the length table and the machine disagree exactly on the two try-invoke opcodes, OP_SWAP_LOCAL, and the two try-super-invoke opcodes, or the two super-invoke ones where the code is found by computed addresses |
| `Bytecode.DecodeEncode` | src/jml_bytecode.c:604-702 | an instruction written anywhere is fetched as itself |
| `Bytecode.EncodedIsReadable` | src/jml_vm.c:950-1000 | a sequence of instructions, encoded anywhere, is fetched instruction by instruction |
| `Pratt.PrattRoundTrip` | src/jml_compiler.c:1584-1735 | every expression tree, printed with brackets only where a binding power demands them, drives the parser through exactly that tree |
| `Precedence.TwoOperators` | src/jml_compiler.c:1584-1650 | `a o1 b o2 c` groups to the right iff the second operator is of a tighter class, the classes being `**`, then `* / %`, then `+ - ::`, then comparisons and `in`, then `== !=` |
| `Precedence.LogicIsLooser` | src/jml_compiler.c:1584-1650 | every binary operator binds more tightly than `and` and `or`, on either side |
| `Precedence.AndInsideOr` | src/jml_compiler.c:808-838 | `and` binds more tightly than `or`; each of them groups to the right |
| `Precedence.BracketsFirst` | src/jml_compiler.c:929-938 | brackets overrule all of this |
| `Precedence.UnaryFirst` | src/jml_compiler.c:878-890 | `-` and `not` bind more tightly than every binary operator but `**` |
| `Precedence.AssignmentLast` | src/jml_compiler.c:1215-1249 | an assignment takes all that follows for its value, and is refused as an operand |
| `Printing.ProgramRoundTrip` | src/jml_compiler.c:2513-2578 | every program tree, printed, is parsed as itself |
| `Formatting.OperatorsKept` | src/jml_compiler.c:841-874 | an accepted text loses an operator iff one of its operators ends a line, and its tree has the shape printing needs |
| `Formatting.Reformat` | src/jml_compiler.c:2513-2578 | printing what was parsed is parsed as the same program |
| `EndToEnd.NewlineLosesOperator` | src/jml_compiler.c:841-874 | the operator in front of a newline is not in the tree, and without the newline it is |
| `Heights.HeightsExact` | src/jml_compiler.c:487-503 | for every accepted program: at every statement boundary of every path through its bytes, whichever way conditions turn out, the stack holds exactly `local_count` values, iff the program is framed |
| `Heights.RunHeights` | src/jml_vm.c:1286-2039 | in particular on every run of the machine |
| `LeakyBreak.BreakLeaksLocals` | src/jml_compiler.c:2231-2244 | a `break` out of a block with a local is accepted, has a path of wrong height, and makes a later local read the wrong slot |
| `SkippedBranch.BranchSkipsLocal` | src/jml_compiler.c:2374-2406 | so does a `let` in a branch that is not taken: a later local reads its neighbour's slot, and the end of the block pops below the stack |
| `Peak.LimitedExact` | src/jml_type.c:318-348 | on the limited stack too the compiled program comes to rest exactly as the program ends, if its height, computed from the text, is within the limit |
| `Peak.PathsStayLow` | src/jml_compiler.c:487-503 | no path through a framed program gets higher than that |
| `Peak.ProgramBounded` | src/jml_compiler.c:528-548 | which is at most 256 more than its widest expression |
| `Peak.PushWithin` | src/jml_type.c:318-348 | the limit is the one at which a push can no longer enlarge the stack |
| `Coroutine.Coroutine.RunAll` | src/jml_vm.c:950-1953 | any run of variable, closure and call instructions from any reachable state sees the values and ends, well, with a runtime error or on a coroutine that is gone, as the machine with one cell per variable |
| `Coroutine.Coroutine.Execute` | src/jml_vm.c:1703-1953 | one instruction of that run |
| `Coroutine.Coroutine.Grow` | src/jml_type.c:318-348 | growing the stack keeps every frame, open upvalue and the top at their offsets, or changes nothing at the limit |
| `Coroutine.Coroutine.Capture` | src/jml_vm.c:767-792 | the open list stays strictly descending and without duplicates; a slot captured before is shared |
| `Coroutine.Coroutine.CloseUpvalues` | src/jml_vm.c:795-806 | exactly the upvalues at or above the slot are closed, each with the value of its slot |
| `Coroutine.Coroutine.DoMakeClosure` | src/jml_vm.c:1703-1718 | the new closure holds the cells its capture pairs name |
| `Coroutine.Coroutine.DoCall` | src/jml_vm.c:414-481 | a call is an error exactly if it is of no closure of that arity or without a frame to spare, and uses a coroutine that is gone exactly if it has to enlarge frames whose stack cannot be doubled |
| `CellMachine.SafeWhen` | src/jml_type.c:318-348 | an instruction overruns iff it needs room and the stack cannot be doubled |
| `CellMachine.LowStacksSuffice` | src/jml_type.c:318-348 | a run on which the stack stays below 256 values never overruns, however deep its calls |
| `CellMachine.CallOverruns` | src/jml_vm.c:414-481 | 8999 pushes and seven calls do |
| `Coroutine.Coroutine.DoReturn` | src/jml_vm.c:1737-1752 | a return closes the callee's variables and leaves its result where the call was |
| `CellMachine.OnlyTheTarget` | src/jml_vm.c:1837-1953 | in the cell machine an instruction changes at most the variable it assigns to |
| `CellMachine.NeverBack` | src/jml_vm.c:795-806 | over any run, a variable that left the stack is never on it again |
| `ClosureLaws.PushedIsSeen` | src/jml_vm.c:1865-1887 | from any state, a new local is found at the height the stack had |
| `ClosureLaws.StoredLocal` | src/jml_vm.c:1837-1887 | a get after a set of the same slot yields what was stored, one of another slot what it yielded before |
| `ClosureLaws.StoredUpvalue` | src/jml_vm.c:1889-1947 | the same for upvalues, other ones being those of other variables |
| `ClosureLaws.ArgumentsSeen` | src/jml_vm.c:1557-1570 | a callee finds itself in slot 0 and its arguments behind it in their order |
| `ClosureLaws.ResultSeen` | src/jml_vm.c:1737-1752 | what it returns stands where the call stood, on the stack of the caller |
| `ClosureLaws.CallRefused` | src/jml_vm.c:415-470 | pushing a callee and arguments and calling it is an error, or overruns at a push, if the callee is no closure of as many parameters or 128 frames are in use |
| `ClosureLaws.CapturesSeen` | src/jml_vm.c:1703-1718 | in a call of a new closure, upvalue `k` is the variable its capture `k` named where it was made, for every `k` |
| `ClosureLaws.StoreSeenOutside` | src/jml_vm.c:1889-1947 | what the closure stores there, its maker sees |
| `ClosureLaws.StoreSeenInside` | src/jml_vm.c:1889-1947 | what the maker stores, the closure sees |
| `ClosureLaws.StoreSeenBySibling` | src/jml_vm.c:1889-1947 | two closures that share a variable see each other's stores |
| `ClosureLaws.OutlivesScope` | src/jml_vm.c:1949-1953 | a captured variable keeps its value when its scope has ended |
| `Resolution.Chain.UpvalueResolve` | src/jml_compiler.c:609-628 | -1 iff no enclosing function binds the name; otherwise the upvalue denotes the nearest binding, which is marked captured; earlier upvalues keep their places and indices stay below 256 |
| `Resolution.Chain.UpvalueAdd` | src/jml_compiler.c:583-606 | duplicates share one entry |
| `Resolution.Chain.LocalResolve` | src/jml_compiler.c:551-570 | the last local of the name, with an error iff it is being initialised |
| `Resolution.DenoteGrown` | src/jml_compiler.c:583-628 | adding upvalues never changes what earlier ones stand for |
| `Resolution.ClosureAliases` | src/jml_compiler.c:1801-1811 | executing the emitted pairs gives every upvalue of the closure the cell of the variable it was resolved to, however far out |
| `Resolution.Chain.ScopeEnd` | src/jml_compiler.c:487-503 | the deeper locals go, and for each, the last one first, its closing instruction or a pop is emitted |
| `Resolution.ScopeEndProper` | src/jml_compiler.c:487-503 | that code takes exactly these locals off the stack, each captured one by closing it, if all locals captured at run time are marked |
| `Resolution.StepKeepsMarks` | src/jml_vm.c:1703-1718 | which every instruction keeps so, in this frame or above it, if closures are made from resolved pairs |
| `Resolution.ResolvedPairs` | src/jml_compiler.c:609-628 | and these refer to marked locals only |
| `HashMap.FindEntry` | src/jml_value.c:66-90 | the probe ends, at the key's entry or at the place to insert it |
| `HashMap.Map.Set` | src/jml_value.c:142-163 | the map with one key set, reporting whether it is new, growing at three quarters |
| `HashMap.Map.Get` | src/jml_value.c:123-139 | the value of the key, or none |
| `HashMap.Map.Pop` | src/jml_value.c:165-204 | the map without the key, and its value; a tombstone keeps other keys reachable |
| `HashMap.Map.Add` | src/jml_value.c:206-217 | the union, the added map overriding |
| `HashMap.Map.AdjustCapacity` | src/jml_value.c:92-120 | rehashing keeps the mapping and drops the tombstones |
| `HashMap.Map.Find` | src/jml_value.c:220-241 | a key of that text and hash iff there is one |
| `HashMap.Map.RemoveWhite` | src/jml_value.c:244-253 | exactly the marked keys stay |
| `HashMap.Map.Iterator` | src/jml_value.c:267-284 | every key once |
| `HashMap.Map.CountIsSize` | src/jml_value.c:142-217 | without deletions the count is the number of keys |
| `HashMap.AndIsRemainder` | src/jml_value.c:66-90 | masking with a power of two less one is the remainder |
| `Collector.Vm.Collect` | src/jml_gc.c:500-518 | the heap afterwards is exactly the objects reachable from the roots, in the order they had, unmarked, the table cleaned before the sweep |
| `Collector.Vm.Trace` | src/jml_gc.c:490-497 | tracing ends with no gray object and marks exactly what is reachable |
| `Collector.Vm.Sweep` | src/jml_gc.c:354-378 | the list loses exactly the unmarked objects and keeps its order |
| `Collector.Vm.StringTake` | src/jml_type.c:74-89 | the string object of a text, found or made, though making it may collect |
| `Collector.Vm.StringCopy` | src/jml_type.c:92-110 | the same from a copy |
| `Collector.Vm.StringAllocate` | src/jml_type.c:41-57 | a new string survives the collections its own entry can cause, and so does all that was rooted |
| `Collector.Vm.SameText` | src/jml_type.c:41-110 | in every valid state two string objects with the same text are the same object |
| `Collector.MarkedIsReachable` | src/jml_gc.c:126-205 | nothing unreachable is marked |
| `Fields.FollowedExactly` | src/jml_gc.c:380-487 | for each of the thirteen kinds: a reference is followed iff it stands in one of the fields |
| `Fields.FieldsAlive` | src/jml_gc.c:380-487 | in every valid state, so after every collection, no field of an object in the heap refers to anything outside of it |
| `Collector.HashVectors` | src/jml_type.c:60-71 | the hash is FNV-1a: its test vectors for the empty text and for `a` |
| `Collector.Vm.FreeAll` | src/jml_gc.c:335-352 | teardown frees everything, each instance before its class and its destructor, the destructor name last |
| `Collector.Vm.FreeObject` | src/jml_gc.c:264-285 | whoever frees an instance must show that its class and its destructor are still there |
| `Collector.Vm.Store` | src/jml_vm.c:756-764 | a store into an object keeps all of this, if it gives no class a destructor newer than one of its instances |
| `Collector.StoredClasses` | src/jml_gc.c:258-285 | and exactly then |
| `Classes.Hierarchy.Inherit` | src/jml_vm.c:1793-1813 | inheriting keeps every table flattened, or is refused |
| `Classes.Hierarchy.Define` | src/jml_vm.c:756-764 | a field definition keeps the tables flattened iff the direct subclasses do not notice |
| `Classes.Hierarchy.LookIsWalk` | src/jml_vm.c:1793-1813 | a look into a class's table finds the nearest definition up the chain |
| `Classes.Hierarchy.AgreeingIsFlattened` | src/jml_vm.c:1793-1813 | and only flattened tables do |
| `JsonReader.Parse` | std/json.c:1213-1269 | a text is accepted iff the grammar reads it to its end, with the grammar's value; the second pass stays inside the buffer the first one sized, inside the exempt stack iff the value takes no more places than are left, and the first one inside text and terminator iff the text is not cut off in an exponent |
| `JsonStandard.NestedArrays` | src/jml_gc.c:103-117 | arrays nested in one another are built inside the exempt stack iff there are fifteen at the most |
| `JsonStandard.NestedMaps` | std/json.c:955-1012 | maps nested in one another iff there are sixteen at the most |
| `JsonText.StrictExact` | std/json.c:1213-1269 | strict mode reads a text as a value iff the value stands there by the productions of RFC 8259, places of all its parts included, but for a lone minus at the end, odd control characters and surrogates out of pairs |
| `JsonText.CommasTold` | std/json.c:405-506 | what the flags admit: a comma behind the last member, members without a comma |
| `JsonText.KeysTold` | std/json.c:376-403 | keys without quotes, an equals sign in place of the colon |
| `JsonText.GlobalTold` | std/json.c:716-816 | members without braces around them |
| `JsonGrammar.CutTextEnds` | std/json.c:565-713 | texts that are cut off end in an exponent letter, or in one and its sign |
| `JsonStandard.CutAtExponent` | std/json.c:565-713 | a digit and an exponent letter are such a text, and are rejected |
| `JsonStandard.NumberExact` | std/json.c:565-713 | a number is read exactly where one stands by section 6 of RFC 8259 and what may follow a number follows, or where a lone `-` ends the text |
| `JsonStandard.StringExact` | std/json.c:823-926 | a string is read, and as this text, exactly where a body of section 7 of RFC 8259 that means the text stands in front of a quote: eight escapes by letters, hexadecimal digits of both cases, odd control characters allowed, surrogates in pairs only |
| `JsonStandard.BodyOdd` | std/json.c:242-372 | the odd control characters are all that the standard does not allow there; without them the text is the standard's |
| `JsonStandard.ValueRoundTrip` | std/json.c:1213-1269 | every value, written down, is read back as itself |
| `JsonReader.Reader.ValueSize` | std/json.c:716-816 | the sizing pass accepts, advances and counts as the grammar's spans and room say |
| `JsonReader.Reader.ValueParse` | std/json.c:1138-1210 | the build pass, on what sizing accepted, stops at the same place, yields the value and uses no more room, and as many places of the exempt stack as the value takes |
| `JsonReader.Reader.StringSize` | std/json.c:242-372 | a string is accepted iff the grammar reads it, and its room is counted |
| `JsonReader.Reader.StringParse` | std/json.c:823-926 | never fails on an accepted string and gives the text of the grammar |
| `JsonReader.Reader.MembersParse` | std/json.c:955-1012 | the members in order, at the offsets of the sizing pass |
| `JsonReader.Reader.NumberParse` | std/json.c:1060-1134 | the digits handed on are exactly the number's text |
| `JsonReader.Wrapped` | std/json.c:299-342 | despite the wrapped surrogate offset, the four bytes of a pair are those of its code point |
| `JsonModes.EscapesRead` | std/json.c:822-926 | any text written with escapes alone, pairs included, decodes to its UTF-8 encoding |
| `JsonModes.WiderText` | std/json.c:405-506 | what one mode reads, a wider mode reads the same way |
| `JsonModes.LenientReadsMaps` | std/json.c:716-816 | of strict texts the lenient mode reads exactly those that are maps, with the same value |
| `Utf8.WriteEncoded` | src/jml_string.c:4-36 | the bytes written are the shortest form, and the count is returned |
| `Utf8.EncodeTable` | src/jml_string.c:4-36 | the forms of section 3 of RFC 3629, by ranges |
| `Utf8.Decode` | src/jml_string.c:39-73 | decoding yields a value iff its shortest form stands there, and stops behind it |
| `Utf8.OneReading` | src/jml_string.c:39-73 | at most one value starts at a position |
| `Utf8.Length` | src/jml_string.c:90-110 | the number of hops over lead bytes |
| `Utf8.HopsCountPoints` | src/jml_string.c:76-110 | the length of n encoded code points is n |
| `Reverse.Reverse` | src/jml_core.c:222-280 | the loops stay in the copy iff no NUL stands in front of the last byte; on encoded text, which has no NUL, reversal fails iff the last character has more than two bytes, and else gives the encoding of the characters in reverse |
| `Reverse.ReversedTwice` | src/jml_core.c:222-280 | reversing twice is the identity |
| `Serialization.RoundTrip` | src/jml_serialization.c:230-429 | a chunk written anywhere, with anything around it, reads back, and reading stops at its end |
| `Serialization.RoundTripExact` | src/jml_serialization.c:79-193 | with anything around it, it reads back iff every constant is of a kind that is written |
| `Serialization.Memory.SerializeBytecode` | src/jml_serialization.c:159-193 | the chunk, whatever its constants, stands in the caller's buffer iff that was large enough from the start |
| `Serialization.Memory.SerializeValue` | src/jml_serialization.c:104-156 | one value by its tag, nothing for other objects; it stands in the caller's buffer iff that was large enough |
| `Serialization.Memory.Reallocate` | include/jml/jml_gc.h:33-42 | the size grows by half until it suffices; only the callee's pointer follows the block |
| `Serialization.WriteFile` | src/jml_serialization.c:196-227 | the file holds the header and the chunk iff the first buffer is never too small |
| `Serialization.FileRoundTrip` | src/jml_serialization.c:196-473 | a file reads back as its chunk iff the chunk fits the first buffer and its constants are of the kinds that are written |
| `FileFormat.ValueLayout` | src/jml_serialization.c:79-156 | each constant by its letter, with its bits or its length and characters, the highest byte first |
| `FileFormat.ChunkLayout` | src/jml_serialization.c:159-193 | where counts, code, lines and constants stand in a chunk, lines in the byte order of the machine |
| `FileFormat.FileLayout` | include/jml/jml_serialization.h:8-19 | a file begins with the line that makes it executable, the name and the version |
| `FileFormat.PlainFile` | src/jml_serialization.c:432-473 | a file without that line is read alike |
| `FileFormat.ForeignFile` | src/jml_serialization.c:432-473 | and none without name and version is read |
| `Serialization.LongStringLost` | src/jml_serialization.c:196-227 | with one string constant: iff it is shorter than 466 bytes |
| `Serialization.DeserializeBytecode` | src/jml_serialization.c:386-429 | on arbitrary bytes: the chunk that stands there, or failure, reading inside the length only |
| `Serialization.DeserializeValue` | src/jml_serialization.c:347-383 | the same for one value |
| `Scanner.Lexer.Tokenize` | src/jml_lexer.c:391-478 | one call yields the token that stands behind blanks and comments, and counts every newline it passes |
| `Scanner.Lexer.SkipChar` | src/jml_lexer.c:105-153 | exactly blanks and both kinds of comments are skipped |
| `Scanner.SwitchIsTable` | src/jml_lexer.c:156-252 | the nested keyword switch finds exactly the keywords of the flat table |
| `StringEnds.EndsAsIntended` | src/jml_lexer.c:270-330 | a string literal ends where its escapes, read one after another, let it end iff no backslash stands in front of that place |
| `StringEnds.BackslashUnterminated` | src/jml_lexer.c:270-330 | a literal of one escaped backslash is not terminated |
| `StringEnds.WideRead` | src/jml_lexer.c:270-315 | the token of a literal in triple quotes is what stands between them, with one delimiter on each side |
| `Alphabet.Classes` | include/jml/jml_util.h:33-91 | the classes of characters, listed |
| `Alphabet.BasedRead` | src/jml_lexer.c:318-388 | a number with a base prefix is one token |
| `Gaps.GapSkipped` | src/jml_lexer.c:105-153 | any number of blanks and comments in front of a token is passed over |
| `Gaps.OnlyGaps` | src/jml_lexer.c:105-153 | and nothing else is, but for a comment that is open at the end of the text |
| `WholeText.TokenizeAll` | src/jml_lexer.c:391-478 | a whole run on n characters takes at most n + 2 calls, ends with the end token and is in order |
| `WholeText.StaysAtEnd` | src/jml_lexer.c:391-405 | after the end every call yields the end |
| `WholeText.InOrder` | src/jml_lexer.c:391-478 | tokens stand in the text one behind another, on lines that never go back |
| `WholeText.TrueLines` | src/jml_lexer.c:105-478 | a token's line is one plus the newlines up to its end |
| `WholeText.SignIsLongest` | src/jml_lexer.c:410-470 | the nested tests for operators take the longest operator of the table |
| `WholeText.LexRoundTrip` | src/jml_lexer.c:391-478 | names, keywords, numbers, strings, operators and newlines, written with blanks between them, are read back as they were |

## Left out

- Calls, indexing, members, pipes, swaps, arrays, maps, lambdas, functions and classes in the single-pass compiler: a text that comes to one is neither accepted nor refused; closures and classes have models of their own.
- Correctness.CompilerExact: a program that is not `Framed` can still behave well on the paths it takes, which cannot be decided; over all paths `Framed` is exact (`Heights.HeightsExact`). The stack has no limit here; `Peak.LimitedExact` carries the theorem over to the limited one.
- Correctness.CompilerCorrect: `Framed`, and a stack without limit, as above.
- EndToEnd.CompileText: `Framed`, as above; its texts are sequences of tokens, and `SourceText.CompileSource` starts from characters.
- SourceText.CompileSource: what number and string literals stand for is a parameter (`strtod`, escapes), as is whether a string has a wrong escape; a text is `Outside` also where an error of names stands in front of the left-out construct, or any error but one of the lexer in front of a token that belongs to such constructs alone.
- Bytecode.TableMatchesMachine: the closure opcodes are excluded, because their length depends on the closure and the table has no entry for them.
- SinglePass.Compiler.Compile: left-out constructs stop it like errors; `Leaving` and `SourceText.CompileSource` tell them apart. Nothing is said about the code after the first error, where the source goes on in panic mode.
- SinglePass.Compiler.LoopEnd: loop bodies contain no closure, no try-invoke opcode and no OP_SWAP_LOCAL, for which the table is not what the machine reads.
- Semantics.Apply: arithmetic is a parameter, as is which numbers become the integer zero, on which `%` ends the process (`Trap`); what the conversion of other numbers yields is not modelled. `in` always fails because the fragment has no containers.
- Coroutine.Coroutine.DoCall: variadic functions, methods and C functions are not modelled.
- Resolution.ClosureAliases: extended closures, where the machine reads two-byte operands and the compiler emits one-byte ones, are left out.
- Collector.Vm.Collect: everything in use is taken to be rooted; destructors do not touch the heap; byte accounting is not modelled.
- Classes.Hierarchy.Inherit: the `__inherit` hook runs arbitrary code and is not modelled; the tables are maps.
- JsonReader.Parse: JSON5, comments and hexadecimal numbers are other modes and are not modelled, nor are the line and column of errors and the writing of JSON.
- JsonReader.Reader.MembersParse: members are kept in the order in which they are put into the map.
- JsonReader.Places: the place a new string takes on the exempt stack while it is entered in the table is not counted; it is the highest one only if the text is a single string.
- JsonReader.Reader.NumberParse: the conversion of digits to a double belongs to the C library.
- Serialization.Memory.Reallocate: the block always moves. An allocator that enlarges it in place lets the caller get away with its old pointer, so what is exact is what the caller can rely on.
- Serialization.WriteFile: opening, writing and closing the file are I/O; a file is its bytes.
- Scanner.Lexer.Tokenize: the slice of an error token points at its message and is empty here.
- WholeText.LexRoundTrip: strings in triple quotes and numbers with a base prefix are not among the written tokens; `StringEnds.WideRead` and `Alphabet.BasedRead` say how they are read.
- Exceptions and `try`, the implicit return, super-invoke opcodes, module loading, the disassembler and the standard library beyond JSON and string reversal.
