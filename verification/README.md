# Phantom Shell: the compiler, its virtual machine and their containers

Phantom Shell compiles statements and functions straight from the syntax tree to
one flat byte string with relative jumps, and runs those bytes on a small stack
machine. This project models that core twice and ties the two views together.

* **As functions and a state machine.** `Language` says what programs mean,
  `Codegen` which bytes they become and what the compiler's bookkeeping (slots,
  scope offsets, maxima, tracked stack size) is, `Bytecode` how bytes decode,
  `Machine` how the machine steps. The theorems about meaning are proved here.
* **As it is written.** `Interpreter` is the dispatch loop with handlers that write
  operand and local memory in place; `ExprCompiler`, `StmtCompiler` and
  `FuncCompiler` are the recursive compile functions over mutable scope records
  (`Scopes`) and linked pages of bytes (`Emitter`); `Linker` keeps the tables of names,
  constants and functions; `HashMap` is the probing table and `Crc32` its checksum. Each
  of their methods is proved against the functions above. `Unbuffered` is the emitter of
  interactive mode, which executes every chunk as soon as it is emitted; `Shell.Enter`
  puts the compiler as written on top of it and inherits compiler correctness.

## Main results

1. **Compiler correctness**, in both directions at once: a program yields an outcome
   exactly when the machine yields the corresponding result; programs that run
   forever keep the machine running forever (`Correctness.CompilerCorrect`). Loops,
   nested scopes that reuse slots, mixed int and float arithmetic, calls, faults.
2. **Definite assignment** of the compiled code: in no run, ended or not, in no callee and
   no child scope does a load find a word that nothing was stored in, even when
   all memory outside the visible variables starts out undefined
   (`Definedness.DefinitelyAssigned`, `ScopeDefinesItsOwn`); so what those words contain
   changes no step of any run (`StaleSlotsUnobservable`).
3. **Safety over whole runs**: every address reached is an instruction boundary
   (`ControlFlow.Integrity`); every slot addressed lies inside the frame's locals
   (`Slots.LocalsInside`); programs without unary minus and float comparisons never meet
   an instruction at the wrong type (`Safety.TypeSoundness`, per expression in
   `TameExact`); callers' frames are untouchable (`Activations.FrameIsolation`);
   assignments and control flow leave the operand stack as they found it
   (`Correctness.NeutralBalanced`).
4. **Operand memory, exactly**: a program that finishes has overrun the memory of its frame
   if and only if that is smaller than the height its meaning reaches
   (`Peaks.OverrunsExactly`, for loops, branches, calls and leftovers alike, the functions
   it calls having what their text needs). What a
   program needs at most is read off its text (`Needs.BlockNeed`, `Activations.StackBound`).
   The header's size is that much for functions whose loops leave nothing behind and are
   entered with nothing left over (`Overruns.RecordedIsEnough`), while any loop whose
   body always leaves a word overruns memory of any size (`Overruns.LoopOverruns`).
5. **Streaming equals batch**, step counts included (`Streaming.StreamingEqualsBatch`),
   and **interactive execution end to end**: the statements entered are compiled by the
   compiler as written, their chunks executed by the interpreter as written while
   they are emitted, and how that ends tells what the program means (`Shell.Enter`).
6. **Refinement of the imperative code**: `Interpreter.ExecuteOpcodes`,
   `StmtCompiler.CompileScope`, `FuncCompiler.DefineFunction`,
   `Emitter.Buffered.Emit` and `Sink`, `Unbuffered.Direct.Emit`, `HashMap.HashMap.Put`,
   `Get` and `Resize`, `Crc32.ComputeCrc32`. Failures are exact: what the compiler gets
   through is told by names, types and loop sizes alone (`Acceptance.BlockAccepted`), when
   a function gets registered by that and its pages (`Pages.DefinedExactly`), and code that
   fits its jumps and has short `if`s always does (`Pages.ShortIsDefined`).
7. **One program through all of it**: a countdown loop reaches 0 for every start value, in
   a frame of exactly the recorded size (`Countdown.CountsDown`).
8. **From declarations to calls**: code depends on the functions it calls only
   (`Linking.BlockStable`), so a series of declarations builds the function table that the
   theorems assume (`Linking.SessionWorld`) - if the constant pool's write position
   advances. In the code it does not, every index leads to the newest function, and the
   table is right exactly when all declarations compile to that function
   (`Linking.StandingWorldExact`), in particular when there is one. A later function's
   call of itself is compiled to index 0 (`Misfits.SelfCallRunsFirst`).
9. **Where the code stops being right**, exactly: where all four jumps of `if` and `while`
   land (`Limits.IfJumpExact`, `IfExitExact`, `WhileExitExact`, `WhileBackExact`) and how
   many variables have slots of their own (`Slots.SlotsExact`); and beyond each limit, a
   program that the compiler accepts and whose code does something else (`Misfits`,
   `Crowded.TooManyVariables`).
10. **The operators and the instruction set by their bytes**: what each int operator computes,
   told without its definition (`Opcodes.IntExact`), and what one step at each opcode byte
   does (`Opcodes.IntArithmeticStep`, `FloatStep`, `BranchStep`, `CallStep` and the like).

## How the model reads the source

* Machine words carry a tag, int or float. The source's words are untyped; using a
  word at the wrong type is the fault `Confused`: a float condition (`if 1.5`) ends the
  model's run, whereas the source's `JEZ` looks at the float's bits and goes on. Words
  of local memory may be undefined, which the source cannot see either; loading one is
  the fault `Unbound`. Ints are 32 bits and wrap. Division by zero, and the one quotient
  that does not fit, are the fault `Arith`.
* Accesses outside operand or local memory, which the source does not check, are the
  fault `Memory`, an instruction whose operand bytes are missing is `Truncated`; the call
  stack's fixed length gives the fault `CallDepth`; the panic handler is the fault `Panic`.
  An exit of the compiler is the status `Panicked`, a chunk that one more page cannot hold
  is `Overrun`. Functions are emitted into pages of 256 bytes, branches and loop bodies into
  pages of 512.
* The high operand byte of `JEZ` and `RJMP` is shifted after the cast to a byte
  (src/compiler_stat.c:71, :123, :125), so it is always zero although the checks at
  :53, :66 and :115 and the two-byte decoding intend 16 bits. `Globals.reach` is 0x100
  for the code as it stands and 0x1_0000 for what is intended; the theorems hold for
  both, the compile methods emit the bytes as they stand. `Fits` collects what the
  layout needs (distances below `reach`, an `else` part below 0x1_0000 bytes, conditions
  that leave a value, arguments of the declared types); the compiler checks none of it.
* A slot is one operand byte (src/compiler_scope.c:97), and the limit of 128 variables is
  one per scope, so nested scopes can have more variables than bytes. The theorems about
  meaning ask for a collected maximum of at most 0x100 (`vmax <= 0x100` in `Compiled`,
  `Ready` and `Enterable`); the compiler does not check that either.
* Calls are compiled to the index of the function's signature, and the machine looks the
  index up in its pool of constants. The position that the pool is written at is never
  advanced (src/vm/vm.c:427-440), and a signature gets its index only after its body is
  compiled (src/compiler_func.c:109-125). `Pool.moves` says whether the position advances;
  `World` is the table in which every call runs the function it names.
* The comment at src/vm/opcodes.h:61-63 lists the unconditional jumps with an operand on
  the stack and the effect table gives them one; the handlers pop nothing, and the model
  follows the handlers.
* A bare undefined name emits nothing and its error code is dropped; a call leaves its
  arguments on the operand stack, a bare expression its value. The language definition
  keeps such values in `pushed`, so that the two sides agree on them.
* Trees start from a datatype. `fuel` bounds iterations and calls in the language
  definition only; every theorem quantifies over it.

## Model

| member | source | states |
|---|---|---|
| Correctness.CompilerCorrect | src/compiler_stat.c:20-157 | the program yields an outcome if and only if the machine, started on its bytes, yields the matching result: pc at the end of the code, the stack at the program's leftover values, every visible variable's slot holding its value, or the same fault; so divergence is preserved too |
| Correctness.SourceToMachine | src/vm/vm.c:66-93 | a source run that is over is matched by a machine run that is over, with the step count |
| Correctness.MachineToSource | src/vm/vm.c:66-93 | a machine run of n steps that is over is matched by the source run with fuel n + 1 |
| Definedness.DefinitelyAssigned | src/compiler_expr.c:73-119 | in every run of compiled code, of any length, no load - in any iteration, scope or callee - reads a word nothing was stored in, and no access leaves the locals or the operand memory that covers the need, whatever the other slots and fresh callee memory hold, undefined words included; nor does the program's meaning ever read a name without a value |
| Definedness.ScopeDefinesItsOwn | src/compiler_stat.c:25-51 | wherever an `if` or `while` may run, its child scope's code entered with every slot beyond the outer variables undefined reads none of them, and goes through the same points as with whatever a finished sibling left there |
| Definedness.StaleSlotsUnobservable | src/vm/vm.c:376-389 | two frames that agree on the visible variables, on machines whose allocators leave different words in every callee's memory, go through the same code addresses with the same operand stacks after every number of steps, and end with the same variables |
| Definedness.LessFollows | src/vm/vm.c:96-113 | a run on memory with words missing that never fails for it goes along, step by step, with any run on memory that has them |
| Correctness.FuelMonotone | src/compiler_stat.c:90-148 | all sufficient amounts of fuel give the same outcome: the source language is deterministic |
| Correctness.RunToMachine | src/vm/vm.c:66-93 | from source to machine with operand memory for this very run |
| Correctness.NeutralBalanced | src/compiler_stat.c:20-157 | code of assignments and control flow ends at its last byte with the operand stack it began with |
| Needs.NeutralKeeps | src/compiler_stat.c:20-157 | such statements mean that nothing is left over and nothing taken |
| Countdown.StartsIsMet | src/compiler_func.c:111-118 | the conditions of the theorems hold of a loop in a frame with the recorded two operand words and one local, whatever the local contains |
| Countdown.CountsDown | src/vm/vm.c:66-93 | the compiled bytes of `x = n; while x { x = x - 1 }` run to their end and leave 0 in slot 0, for every non-negative n |
| StmtCorrect.StmtRun | src/compiler_stat.c:150-157 | the bytes of one statement do what the statement does, or are still running after at least as many steps as the source had fuel |
| StmtCorrect.WhileRun | src/compiler_stat.c:90-148 | condition, exit jump, body and back jump repeat as the loop does |
| StmtCorrect.IfRun | src/compiler_stat.c:20-88 | condition, conditional jump, and the two branches with their jump over the else part choose as the statement does |
| StmtCorrect.AssignRun | src/compiler_expr.c:73-119 | evaluating, converting and storing updates the variable's slot or defines a new one, and keeps every other slot |
| StmtCorrect.CallRun | src/compiler_expr.c:121-161 | arguments are evaluated in order and stay on the stack; the callee runs in a frame of its own |
| StmtCorrect.CalleeRun | src/compiler_func.c:90-136 | a registered body does what the declaration does, on fresh memory whose first words are the arguments |
| StmtCorrect.AgreeEntry | src/vm/vm.c:376-389 | the copied arguments are the values of the parameters in the slots the body was compiled with |
| ExprCorrect.ExprRun | src/compiler_expr.c:163-224 | the bytes of an expression push exactly its value, of its static type, and change nothing else, or fail as its evaluation does |
| ExprCorrect.ApplyLifted | src/compiler_vars.c:111-118 | converting the int side of a mixed operator beforehand does not change the result |
| Runs.Calling | src/vm/vm.c:364-397 | a call runs the callee on top of the caller's frame and comes back to that frame, unchanged, three bytes further |
| Runs.Sequence | src/vm/vm.c:79-84 | runs of code segments compose, with their step counts |
| Machine.TakesEmbed | src/vm/vm.c:79-84 | a run of a code string is a run of it inside any longer string, above any open frames |
| Machine.FinalUnique | src/vm/vm.c:79-84 | a final result is reached once and nothing lies behind it |
| Bytecode.AssembleRoundTrip | src/compiler_emit.c:191-218 | a linear sweep of assembled instructions gives back the listing |
| Bytecode.DisassembleRoundTrip | src/vm/vm.c:115-124 | and every code string that sweeps cleanly is the assembly of its listing |
| Bytecode.FetchEncoded | src/vm/vm.c:325-362 | the dispatcher reads an encoded instruction, anywhere in the code, as that instruction |
| Words.Be32RoundTrip | src/compiler_expr.c:20-29 | four big-endian bytes of a 32-bit int read back as that int |
| ControlFlow.Integrity | src/vm/vm.c:325-362 | in every state of every run of closed code each open frame stands at an instruction boundary, and a halted one at the end |
| ControlFlow.CompiledIntegrity | src/compiler_stat.c:57-80 | the same for every run of compiled code, whatever the stack and the locals contain |
| ControlFlow.LeftAtItsEnd | src/compiler_stat.c:119-140 | a spliced statement is left only at its own last byte |
| ControlFlow.StmtClosed | src/compiler_stat.c:150-157 | the code of every statement that fits its jumps is closed: sweeps cleanly, and all its jumps land on its boundaries |
| Safety.TameExact | src/compiler_expr.c:172-200 | without comparisons of floats, an expression evaluates to a value of its static type if it has no unary minus and meets the panic handler if it has one, unless it stops at a division first; an expression with a unary minus never delivers a value |
| Safety.TypeSoundness | src/vm/vm.c:237-322 | runs of programs made of such expressions fail only at a division or on an exhausted call stack |
| Streaming.StreamIsBatch | src/compiler_emit.c:16-24 | executing chunk by chunk on one frame is a run of the concatenation |
| Streaming.StreamingEqualsBatch | src/compiler_emit.c:16-24 | and conversely for closed chunks: same data, same fault or still running, after the same number of steps |
| Streaming.StmtSplits | src/compiler_stat.c:80-140 | the chunks a statement is emitted in are its code, cut into closed pieces |
| Streaming.InteractiveRun | src/compiler_scope.c:33-48 | a block executed as it is emitted runs as its compiled code does |
| Tracing.TraceChangesOnlyCasts | src/compiler_vars.c:95-167 | tracing succeeds exactly when all names are declared; erasing inserted casts gives the tree back, both operands of every operator then have the same type, and tracing again changes nothing |
| Tracing.TraceKeepsCode | src/compiler_vars.c:111-125 | tracing does not change what is emitted, and finds the type of the emitted value |
| Tracing.TraceKeepsValue | src/compiler_vars.c:75-93 | tracing does not change the value |
| Limits.IfJumpExact | src/compiler_stat.c:66-76 | on a zero condition the else part is reached if and only if the then part with its jump is shorter than the operand can say |
| Limits.IfExitExact | src/compiler_stat.c:53-64 | behind the then part of a true condition control reaches the statement's end if and only if the else part is shorter than 0x1_0000 bytes, and the else part's first byte otherwise |
| Limits.IfDropped | src/compiler_stat.c:66-82 | an if whose then part is too long for 16 bits is left out but for its condition, whose value stays |
| Limits.WhileExitExact | src/compiler_stat.c:125-133 | a loop is left behind its last byte if and only if the body fits the exit jump |
| Limits.WhileBackExact | src/compiler_stat.c:122-138 | a loop is closed at its first byte if and only if the whole statement fits the back jump |
| Limits.LongThenRunsAnyway | src/compiler_stat.c:71-72 | a then part of exactly 256 bytes runs although the condition is false |
| Misfits.LongIfGoesWrong | src/compiler_stat.c:71-72 | an if with a then part of 256 bytes means 0 and computes 1 |
| Misfits.LongElseGoesWrong | src/compiler_stat.c:53-64 | an if with an else part of 0x1_0000 bytes or more means 0 and computes 1, whatever the length |
| Misfits.LongWhileGoesWrong | src/compiler_stat.c:122-138 | a loop that is never entered runs its body, jumps back into the middle of an instruction and ends in the panic handler |
| Misfits.WrongArgument | src/compiler_expr.c:137-152 | an int passed for a float parameter means a finished call, and the callee loads it as a float |
| Misfits.OlderRunsNewest | src/vm/vm.c:403-441 | with the pool as it stands, a call of the first of two functions runs the second |
| Misfits.SelfCallRunsFirst | src/compiler_func.c:109-125 | a function that calls itself and is not the first means a call that never comes back, and its code runs the first function |
| Limits.NoCondition | src/compiler_expr.c:47-49 | a condition that is an undefined name makes the jump of an if or while pop a word nobody pushed |
| Overruns.LoopOverruns | src/compiler_stat.c:102-110 | a loop whose body leaves at least k words overruns operand memory of any size once n iterations leave n * k words more than it holds |
| Overruns.TrackedStackTooSmall | src/compiler_stat.c:102-110 | for `while 1 { 7 }` one word is recorded, and memory of every size is overrun |
| Overruns.RecordedIsEnough | src/compiler_func.c:111-118 | the recorded size covers the need of every function whose loops leave nothing and are entered with nothing left over and whose branches leave at most one word, calls and bare expressions elsewhere included, although the tracked size is never reduced at conditions and restarts in loop bodies |
| Overruns.StraightRecorded | src/compiler_scope.c:110-116 | among these is all straight-line code |
| Overruns.NeutralRecorded | src/compiler_scope.c:110-116 | and all code made of assignments and control flow |
| Peaks.OverrunsExactly | src/compiler_scope.c:110-116 | a program that finishes, with any loops, branches, calls and leftovers, has overrun its frame's operand memory if and only if that is smaller than the height its meaning reaches |
| Peaks.BlockReach | src/compiler_scope.c:130-141 | the machine does reach that height |
| Needs.HighBlockWithin | src/compiler_scope.c:110-116 | which is never above what the text needs |
| Peaks.StraightExact | src/compiler_scope.c:110-116 | for straight-line code it is exactly what the text needs |
| Peaks.LoopExact | src/compiler_stat.c:102-110 | an entered loop over straight-line code that leaves nothing overruns, also if it never ends, if and only if the memory is smaller than what was left over before the loop plus what condition or body need |
| Peaks.ExprReach | src/compiler_expr.c:163-202 | evaluating an expression does reach its deepest point |
| Activations.StackBound | src/vm/vm.c:382-396 | with operand memory that covers what each function's text needs no reachable state, in any loop iteration, branch or callee, has more operand words than its frame was allocated |
| Activations.OverrunExact | src/vm/vm.h:22-35 | memory is overrun if and only if the run without a bound reaches a state with more operands than its frame was allocated |
| Activations.FrameIsolation | src/vm/vm.c:382-396 | over any tree of nested calls, a run above a caller either still has the caller's frame as it was or has come back to it just behind the call |
| Activations.ParameterSlots | src/compiler_func.c:104-110 | argument i starts in slot i, the slot the body uses for parameter i |
| Slots.SlotDiscipline | src/compiler_scope.c:93-108 | along a block visible names stay pairwise distinct and keep their slots, every slot its code loads or stores is below the collected maximum, and the visible variables' operand bytes are pairwise distinct if and only if there are at most 0x100 variables |
| Slots.SlotsExact | src/compiler_scope.c:93-98 | the same if and only if, for any chain of variables |
| Slots.LocalsInside | src/vm/vm.c:96-113 | no reachable load or store of compiled code addresses a word outside its frame's locals, also when there are more variables than slot bytes |
| Crowded.TooManyVariables | src/compiler_scope.c:93-108 | a function with 257 variables in nested scopes compiles, fits every other limit, means 0 in its first variable and leaves 7 there, because the last one has the same slot byte |
| Interpreter.ExecuteOpcodes | src/vm/vm.c:66-93 | the dispatch loop takes the machine's steps, one per turn: finished, failed or still running with the step count; the frame's pc advances by the local one |
| Interpreter.Call | src/vm/vm.c:364-397 | a call with fresh memory, copied arguments and a nested loop is the machine's call; nothing the caller owns is written |
| Interpreter.Context.Dispatch | src/vm/vm.c:520-552 | dispatch on the opcode byte does what the decoded instruction's rule says |
| Interpreter.Context.IntBinary | src/vm/vm.c:126-235 | the int handlers replace the two topmost words by their result, in place |
| Interpreter.Context.FltBinary | src/vm/vm.c:280-322 | the float handlers likewise; which operation each byte stands for is told by `Opcodes.FloatStep` |
| Interpreter.Context.SaveSlot | src/vm/vm.c:96-103 | a save pops one word into its slot and writes nothing else |
| Interpreter.Context.LoadSlot | src/vm/vm.c:105-113 | a load pushes its slot's word |
| Interpreter.Context.PopJump | src/vm/vm.c:325-345 | conditional jumps pop, then choose the distance |
| Interpreter.Context.constructor | src/vm/vm.c:376-389 | a callee's memory: the arguments first, an empty operand stack |
| Interpreter.IntResult | src/vm/vm.c:159-235 | what each int handler leaves is the operator's result, `None` exactly where the division traps; the operators themselves are told by `Opcodes.IntExact` |
| Opcodes.IntExact | src/vm/vm.c:126-235 | each int operator, told without its definition: sum, difference and product are the one 32-bit int congruent to the exact result modulo 2^32, a quotient q leaves a - q * b smaller than b and zero or of the sign of a, less and greater compare and yield 1 or 0; only division ever fails, by zero or for the least int by -1 |
| Opcodes.IntDivision | src/vm/vm.c:159-168 | `None` exactly at b == 0 and at INT32_MIN / -1, and otherwise the truncated quotient, of which there is one |
| Opcodes.IntComparison | src/vm/vm.c:170-235 | of less, equal and greater exactly one yields 1, less exactly for a positive difference b - a; the other three are their negations |
| Opcodes.WrapExact | src/vm/vm.c:126-157 | a wrapped result is the one 32-bit int congruent to the exact one |
| Opcodes.TruncDivExact | src/vm/vm.c:159-168 | truncated division is the one quotient whose remainder is smaller than the divisor and zero or of the dividend's sign |
| Opcodes.IntArithmeticStep | src/vm/vm.c:126-168 | one step at byte 0x42, 0x43, 0x44 or 0x45 replaces the two ints on top by their sum, difference, product or quotient, the deeper one being the left operand, or traps where there is no quotient |
| Opcodes.IntComparisonStep | src/vm/vm.c:170-235 | one step at byte 0x4a to 0x4f leaves 1 or 0 for ==, !=, <, <=, > and >= |
| Opcodes.FloatStep | src/vm/vm.c:280-322 | one step at byte 0x50, 0x51, 0x52 or 0x53 replaces the floats a and b on top by the machine's sum, difference, product or quotient of a and b, in that order |
| Opcodes.ConvertStep | src/vm/vm.c:237-246 | one step at byte 0x47 replaces the int on top by the float made of it |
| Opcodes.ConstantStep | src/vm/vm.c:115-124 | one step at byte 0x36 pushes the int whose two's complement the four bytes are, high byte first, and at 0x37 the float whose memory they are |
| Opcodes.LoadStep | src/vm/vm.c:105-113 | one step at byte 0x32 or 0x34 pushes the addressed slot's word |
| Opcodes.SaveStep | src/vm/vm.c:96-103 | one step at byte 0x33 or 0x35 pops the top word into the addressed slot |
| Opcodes.JumpStep | src/vm/vm.c:347-362 | byte 0x60 moves forward and 0x61 back by the distance, from behind the operand bytes |
| Opcodes.BranchStep | src/vm/vm.c:325-345 | byte 0x62 jumps on a zero int, 0x63 on any other; both pop it |
| Opcodes.CallStep | src/vm/vm.c:364-397 | byte 0x80 opens a frame at the callee's first byte with the arguments in its first slots, in order, and leaves the caller as it is |
| Opcodes.ReturnStep | src/vm/vm.c:364-397 | at the end of its code a function returns three bytes behind where it was called |
| Opcodes.PanicStep | src/vm/vm.c:520-552 | every byte without a handler, 0x46 among them, ends in the panic handler |
| Opcodes.LeafBytes | src/compiler_expr.c:20-50 | a leaf's code: 0x36 and the int's two's complement, high byte first; 0x37 and the float's memory; 0x32 or 0x34 and the slot of a variable of that name |
| Opcodes.UnaryBytes | src/compiler_expr.c:52-71 | a unary minus adds 0x46 whatever its operand's type, an inserted cast adds 0x47 to an int, parentheses add nothing |
| Opcodes.BinaryBytes | src/compiler_expr.c:163-202 | an operator's code: the operands' codes in order, 0x47 behind an int one whose partner is a float, and the byte for the operator and the type; floats are never ordered |
| Opcodes.AssignBytes | src/compiler_expr.c:73-119 | an assignment's code: the value's, 0x47 if an int goes to a float variable, 0x33 or 0x35 and the slot |
| Opcodes.IfBytes | src/compiler_stat.c:53-82 | the code of an `if`: condition, 0x62 over the then part and its jump with a zero high distance byte, that part, 0x60 over the else part, and that |
| Opcodes.WhileBytes | src/compiler_stat.c:115-142 | the code of a `while`: condition, 0x62 behind the loop, body, 0x61 to the first byte, both high distance bytes zero |
| Opcodes.CallBytes | src/compiler_expr.c:121-161 | the code of a call: its arguments' codes in order, 0x80 and the callee's index, high byte first |
| Opcodes.FloatOperator | src/compiler_expr.c:163-202 | the code of + - * / with a float operand leaves the float sum, difference, product or quotient of the operands in their order, an int one converted first |
| Opcodes.IntOperatorRun | src/compiler_expr.c:163-202 | the code of an operator on two ints leaves what `Opcodes.IntExact` tells, or dies where the division does |
| Session.BoundInvisible | src/vm/vm.h:22-35 | as long as operand memory is not overrun its bound changes nothing |
| Session.RunCompiled | src/vm/vm.c:66-93 | running compiled code in a frame tells about the program: finished as it does, failed as it does, or it cannot be over yet |
| Unbuffered.Direct.Emit | src/compiler_emit.c:16-24 | an emitted chunk is executed at once on the same frame; what has happened since the emitter was made is the chunkwise execution of all chunks emitted, with its step count and its fault if any, and the frame's pc has advanced by their length |
| Session.NeverTruncated | src/vm/vm.c:66-93 | no run of closed code meets an instruction whose operand bytes are missing |
| Session.FareTells | src/vm/vm.c:66-93 | a known fate of compiled code tells what the program means |
| Shell.Enter | src/compiler.c:21-32 | one entry of an interactive session - statements compiled in the root scope as it stands, every chunk executed on the outermost frame when it is emitted - has the effect the block means: finished as it does, with every variable in its slot and the session ready for the next entry, failed as it does, or it cannot be over yet; it is rejected if and only if the compiler panics or a piece inside a branch or loop body overruns a page |
| Shell.Open | src/compiler_scope.c:33-48 | a session begins with no variables, room for 64 of them, an empty frame and the unbuffered emitter |
| Scopes.ScopeHandler.LookupVar | src/compiler_scope.c:79-91 | own variables first, then the enclosing scopes, is the first match in the flattened chain, with its slot byte |
| Scopes.ScopeHandler.DefineVar | src/compiler_scope.c:93-108 | appends with the next slot and raises the root's maximum; refuses when the array is full |
| Scopes.ScopeHandler.IncrementStackSize | src/compiler_scope.c:110-116 | moves the tracked size and keeps the root's maximum |
| Scopes.ScopeHandler.FindRootScope | src/compiler_scope.c:118-128 | ends at the scope whose counters all scopes of the chain share |
| Scopes.ScopeHandler.Child | src/compiler_stat.c:25-36 | a branch's scope sees the enclosing variables and starts behind their slots |
| ExprCompiler.CompileExpression | src/compiler_expr.c:213-224 | emits the expression's chunks, raises the tracked size by one word and the maximum to its deepest point; panics or drops an undefined name exactly as specified |
| ExprCompiler.CompileBinary | src/compiler_expr.c:163-202 | traces, selects the opcode, compiles the rewritten operands, emits |
| ExprCompiler.TraceDataType | src/compiler_vars.c:129-167 | tracing with the scope's own lookup |
| ExprCompiler.TraceKeepsChunks | src/compiler_vars.c:114-118 | the rewritten tree is emitted in the same pieces as the original |
| ExprCompiler.EffectExact | src/compiler.c:68-85 | the static effect table is what the handlers do to the operand stack, except for the two unconditional jumps |
| StmtCompiler.CompileAssignment | src/compiler_expr.c:73-119 | slot, conversion, definition before compilation, and every panic of an assignment |
| StmtCompiler.CompileCall | src/compiler_expr.c:121-161 | the argument loop with its panic at an operator in the last place, then the call |
| StmtCompiler.CompileIf | src/compiler_stat.c:20-88 | child scopes with emitters of their own, spliced around the jumps; it overruns exactly where an emitter does not take a piece |
| StmtCompiler.CompileWhile | src/compiler_stat.c:90-148 | condition in its own emitter, body from a tracked size of zero, one spliced chunk; it overruns exactly where an emitter does not take a piece |
| StmtCompiler.CompileStatement | src/compiler_stat.c:150-157 | the status, the scope record and the emitted chunks are as specified: `Overrun` exactly if some piece is not taken by the emitter it goes to, `Panicked` exactly if all before are and the compiler stops |
| StmtCompiler.CompileScope | src/compiler_scope.c:130-141 | the same for a list of statements |
| Pages.OnePageMore | src/compiler_emit.c:51-89 | an emitter takes a chunk if and only if that fills at most one page more |
| Pages.ShortFitsBlock | src/compiler_stat.c:22-23 | code that fits its jumps overruns no page if every `if` takes, behind its condition, at most what a page holds - given as a number, of at least 256 bytes - and one inside a branch or loop body at most 512 bytes |
| Pages.LongIfRefused | src/compiler_emit.c:51-89 | an `if` of 512 bytes or more behind its condition is refused in a function, one of 1024 in a branch or loop body, whatever is emitted before |
| Pages.ShortIsEntered | src/compiler_emit.c:16-24 | what is entered interactively is never refused for its length, except for an `if` of more than 512 bytes inside a branch or loop body |
| Acceptance.ExprAccepted | src/compiler_expr.c:163-224 | an expression compiles if and only if its names are declared and it orders no floats, to a float if and only if a float goes into it; a bare undeclared name is passed over and nothing else |
| Acceptance.AssignAccepted | src/compiler_expr.c:73-119 | an assignment compiles if and only if its value does and the variable is known and does not narrow a float to an int, or is new and its scope has room; it then declares the variable with the value's type |
| Acceptance.ArgsAccepted | src/compiler_expr.c:121-161 | arguments compile if and only if each does or is a bare undeclared name and the last is no operator |
| Acceptance.StmtAccepted | src/compiler_stat.c:150-157 | the compiler gets through a statement if and only if names and types accept it and no loop body in it has 65536 bytes, and then knows exactly the variables it declares |
| Acceptance.BlockAccepted | src/compiler_scope.c:130-141 | the same for a list of statements |
| StmtCompiler.EmitIf | src/compiler_stat.c:53-82 | both size checks, the appended jump and the spliced bytes |
| StmtCompiler.EmitWhile | src/compiler_stat.c:115-142 | the size check and the spliced bytes |
| FuncCompiler.CompileFunc | src/compiler_func.c:90-121 | parameters, body and header bytes |
| FuncCompiler.RegisterFunction | src/vm/vm.c:443-496 | argument words from the signature, sizes from the header, code behind it |
| FuncCompiler.ArgumentWords | src/vm/vm.c:453-471 | the signature loop counts the parameters, or stops at a letter it does not know |
| FuncCompiler.HeaderRoundTrip | src/compiler_func.c:111-118 | the header is two words, high byte first, and read back modulo 16 bits, so as written if and only if both sizes fit |
| FuncCompiler.DefineFunction | src/compiler_func.c:127-132 | a definition succeeds, and registers the compiled declaration with its sizes, if and only if no parameter is void, there are at most 128, the body compiles and its pieces fit 256-byte pages; it panics or overruns exactly otherwise, and ends in no other way |
| Pages.DefinedExactly | src/compiler_func.c:90-136 | the same told by names, types, loop sizes and pages: no void parameter, at most 128, a body accepted with room for 128 variables in a scope, no loop body of 65536 bytes, every piece taken by its pages |
| Pages.ShortIsDefined | src/compiler_func.c:90-136 | a declaration whose body compiles, fits its jumps and has no `if` of more than 256 bytes behind its condition, or of more than 512 inside a branch or loop body, is compiled and registered |
| Pages.SmallIsDefined | src/compiler_func.c:90-136 | in particular one whose whole code has at most 256 bytes |
| FuncCompiler.BlockAligned | src/compiler.c:68-85 | tracked sizes and maxima are whole words |
| Linker.Tables.Declare | src/compiler_func.c:90-136 | a new name is entered, its body compiled, its signature given the next index and a place in the pool, its code registered, exactly when the definition succeeds; it panics and overruns exactly as that does; a name declared before panics |
| Linking.BlockStable | src/compiler_expr.c:121-161 | a block that compiles compiles to the same bytes, and fits as well, when other functions are added or changed |
| Linking.ResolveExact | src/vm/vm.c:403-441 | an index leads to its own constant if the write position advances and to the newest constant if it does not |
| Linking.TableExact | src/vm/vm.c:364-376 | so a call's index leads to its own function, or to the newest |
| Linking.DeclareKeeps | src/compiler_func.c:90-136 | one more declaration keeps every function registered as the compilation of its declaration, unless it calls itself and is not the first |
| Linking.SessionWorld | src/compiler_func.c:90-136 | any series of such declarations builds a table in which every call runs the function it names, if the pool advances; with the pool as it stands one declaration does |
| Linking.StandingWorldExact | src/vm/vm.c:403-441 | with the pool as it stands the table does so if and only if every declaration compiles to the newest function |
| Linking.NewestIsCallable | src/vm/vm.c:403-441 | the newest function can be called in any case, if it calls no other |
| Emitter.Buffered.Emit | src/compiler_emit.c:51-89 | a chunk that fits the last page's free space plus one page is appended, split where it must be; others are refused, exactly; the free space depends on the bytes emitted only |
| Emitter.Buffered.Accounting | src/compiler_emit.c:51-89 | capacity is pages times page size, and all pages but the last are full |
| Emitter.Buffered.AllocateNewPage | src/compiler_emit.c:38-49 | a zeroed page is linked behind the last one |
| Emitter.Buffered.Sink | src/compiler_emit.c:139-161 | following the links copies out exactly the concatenation of the chunks |
| Emitter.CopyBytes | src/compiler_emit.c:73-75 | a copy writes its range and nothing else |
| HashMap.HashMap.constructor | src/util/hashmap.c:37-48 | an empty table of 128 slots |
| HashMap.HashMap.Index | src/util/hashmap.c:67-83 | the first slot of the window that is free or holds the key; none exactly when the table is overloaded or the window belongs to other keys |
| HashMap.HashMap.Get | src/util/hashmap.c:125-138 | the value of a key that is present and a miss for every other key |
| HashMap.HashMap.Put | src/util/hashmap.c:107-123 | after any number of nested resizes the map has the key's new value and all others as before, size growing by one also when a key is overwritten; where the table offers a slot it succeeds without growing; where it does not the table is doubled once for each refusal, and `NoMemory` means that twice the final capacity is beyond the limit |
| HashMap.HashMap.Resize | src/util/hashmap.c:85-105 | a resize at least doubles the table, keeps the map, recounts its size, and never meets the load factor; it fails only where the doubled table is beyond the limit |
| HashMap.HashMap.Refusals | src/util/hashmap.c:67-83 | a table refuses a key if and only if ten times its size is above seven times its capacity or the eight slots from the key's hash on, around the end, belong to other keys |
| HashMap.HashMap.Accounting | src/util/hashmap.c:69-71 | distinct keys are at most size, size at most 0.7 capacity + 1, and a free slot exists |
| HashMap.StoreFits | src/util/hashmap.c:117-119 | storing at the first fit keeps keys unique, inside their window and with no free slot before them |
| HashMap.PresentFits | src/util/hashmap.c:128-135 | a key that is present is the first fit of its own window |
| Crc32.ComputeCrc32 | src/util/hashmap.c:238-245 | the table loop computes the bit-at-a-time checksum from state 0, for every message |
| Crc32.TableExact | src/util/hashmap.c:183-236 | every entry of the table is eight bit steps of its index (section 8 of RFC 1952) |
| Crc32.Linear | src/util/hashmap.c:238-245 | on messages of equal length the checksum is linear over exclusive or |
| Crc32.LeadingZero | src/util/hashmap.c:240 | without the initial complement of RFC 1952 leading zero bytes are invisible |

## Left out

- Lexer, parser, printing, timing, option handling, freeing and process exit: plumbing around the core.
- `elif`, `switch`, `return`, logical not, bool, char and string literals: they do not reach the code generator as supported nodes. Assignment inside an expression is not modelled; unary minus is, with its missing handler.
- Tracing rewrites operands in place in the source; the trees are values here, so aliasing between tree nodes is not captured. Everything else the compiler updates in place is a field or an array.
- FuncCompiler.CompileFunc: asks for int or float parameters. A parameter declared void gets a slot without a type in the source; as its letter stops every registration, what its body compiles to has no effect (`FuncCompiler.DefineFunction`).
- Calls with three or more arguments: the parser nests the commas to the left and the compiler panics; the argument loop is modelled on the list of arguments.
- The bytes of the constant pool: a constant is written at an offset as a whole; its length prefix and the growth of the pool are not modelled. The signature table's hash map is a map here (`HashMap` is proved against one).
- Float arithmetic is uninterpreted; comparing floats is typed and compiled as the code does it, and no meaning is claimed for it.
- Operand memory of runs that never end: exact for loops over straight-line code (`Peaks.LoopExact`) and in terms of the states reached (`Activations.OverrunExact`), bounded by the text otherwise.
- Interpreter.ExecuteOpcodes: memory is checked where the source writes without a check, and a failed access ends the run.
- Emitter.Buffered.Emit: a chunk that one more page cannot hold is refused, where the source writes beyond the page.
- While a loop is compiled the scope's saved emitter is restored right after the condition, not after the body; nothing between the two uses it.
- HashMap.HashMap.Put: the load factor 0.7f is taken as 7 * capacity < 10 * size, a failing allocation as a capacity limit, and after a failed nested allocation only an unchanged capacity is claimed to keep the map.
- `hashmap_remove`: it leaves holes that a later put can duplicate a key through; it has no caller.
- The mixing steps of the string hash: the table works with any deterministic hash function.
- Shell.Enter: after a rejection the chunks executed so far have had their effect, of which nothing is said; the source's process ends there. Functions are registered between entries; during one the table is fixed.
- Root code read from a file: it is emitted into pages that no one sinks or executes, so it has no effect to model.
- Unbuffered.Direct.Emit: once execution has failed, or has used up its budget of steps, later chunks are not executed; the source's process has ended then, or has not come back.
- `emitter_emit_raw`: unused.
