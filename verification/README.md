# min-cpu-forth, verified

A Dafny model of min-cpu-forth: a 17-opcode Harvard machine, the three-stage assembler for it, an
indirect-threaded Forth kernel written in its assembly, the builder that compiles colon words into
threads of code field addresses, and a second Forth interpreter that runs words by name. The theorem
the rest serves is compiler correctness down to the single shared memory: build an image, boot it, run
it, and the emulator does exactly what recursive evaluation of the definitions says, after exactly as many
steps as evaluation counts: it halts on that data, raises that error, or never stops.

`dafny verify dfyconfig.toml` checks everything.

## How the pieces fit

1. **Machine.** `Cpu` says what each instruction asks for, `Machine` is the emulator as a function over one
   memory with both stacks inside it, and `Emulator` is the class that updates it all in place, proved to
   be that function step by step and run by run. `AbstractMachine` is the same machine with the dictionary
   block and the two stacks taken apart; `Separation` proves that the real machine refines it until a `LOAD`
   or `STORE` leaves the block, and that along runs whose stores avoid the stacks each stack is exactly the
   LIFO of its own pushes and pops.
2. **Assembler.** `Assembler` resolves and emits, `AssemblerStages` has the loops, proved equal;
   `AssemblerAcceptance` says exactly which sources assemble, `AssemblerErrors` with which error the others
   are refused. `SourceMachine` gives a meaning to *lines* (`SET` and `MOV` are single assignments, branches go
   to labels), and `AssemblerSimulation` proves that running a source by lines on the emulator's own memory is
   running the program it assembles to, errors included. `Parser` takes a text line apart into labels, mnemonic
   and operands, `IntegerText` reads integers and `SourceText` puts the whole assembler together;
   `ParserLayouts` says, without the parser, which texts stand for a line.
3. **Kernel routines.** `KernelSource` is the kernel's assembly, line for line; `KernelAssembles` proves that
   it assembles, `KernelShape` that its lines keep control in order and to scratch registers, and
   `KernelLayout` where each routine sits. `Symbolic` says how each shape of line runs, `Blocks` how stretches
   of lines do, and `Control` follows every instruction in between. `Words` gives every CODE word a meaning in
   plain mathematics, and says what becomes of it where it has none. `SimpleRoutines`, `MulRoutine`,
   `NumberRoutine`, `WordRoutine` and `FindRoutine` prove that its machine code, started at its entry, is back
   at `NEXT` after an exactly known number of steps having done just that, or is refused a push, a pop or a
   read after an exactly known number. The four loops (`*`, `NUMBER`, `WORD`, `FIND`) are proved for every
   input. `Primitives.PrimitiveReturns` and `Troubles.PrimitiveStumbles` collect them into two contracts.
4. **Compiler.** `Evaluation` is the meaning of a program: recursive, statically bound, no threads and no
   return addresses, with errors and endless loops among its outcomes; `Costs` and `Nesting` say what it costs
   and how deep it goes. `Threading` proves, over the routines' contracts only, that double indirection along
   the threads computes it, every step in order; `Building` that what `build` lays out is such an image;
   `Correctness` puts the machine under it. `DictionaryAdapter`, `KernelBuilder` and `EndToEnd` are the mutable
   dictionary, the builder and the wired system, whose `RunSystem` states the theorem of a running emulator.
   `Images` shows that every image `build` accepts can be booted, and `SmallPrograms` follows a few to their
   ends. `NameTable`, `KernelWords`, `KernelTexts` and `KernelFaults` then say what each of the 39 words does on
   the booted machine when it is called by its name, and how it fails: names, integers and stacks on one side,
   runs of the emulator on the other.
5. **Second implementation.** `ForthWords` and `ForthService` model the name-keyed interpreter;
   `Agreement` proves the two implementations agree wherever their bindings cannot differ, `AgreementErrors` that
   they raise the same errors there. `ForthNames` says what each of the service's words does by its name;
   `Definitions` and `WrittenPrograms` restate the agreement for definitions as they are written.

Conventions. Cells and registers are unbounded integers, as in the program. Exceptions are `Err` values;
what a failing step leaves behind is not described. Registers and labels share one name space of interned
identifiers: the kernel's own have constructors, every other spelling is an `Other`. A stack is a list, top first. The return stack of a running definition is split into its own
cells and what lies below them, which are the callers' business: a definition must leave none of its own
when it exits, as section 3.2.3.3 of Forth 2012 asks, and evaluation does not follow one that does not.

Findings where the code and its prose differ, or where a plausible law fails:

- The kernel's comparisons push -1 for true, although the comment at
  `src/min_cpu_forth/services/kernel/routines.py:374` says 1; `ForthService` does push 1
  (`Agreement.ComparisonsNegate`).
- `*` answers exactly for multipliers that are not negative; by a negative one the booted machine never
  stops, whatever the budget (`SmallPrograms.KernelMultiplies`).
- `MOV r, s` copies exactly when `r` and `s` differ or `s` holds zero (`AssemblerAcceptance.MovCopies`).
- `FIND` and the host's `find` name the same word exactly when the newest word of that name is not smudged
  (`DictionaryAdapter.FindAgrees`).

## Model

| member | source | states |
|---|---|---|
| `Correctness.CompilerCorrect` | src/min_cpu_forth/services/kernel/builder.py:43-95 | for every list of words and boot thread `build` accepts, the booted machine does, three steps on, what evaluating the boot thread says: ends in a `BYE` after exactly that many steps with that data stack, dictionary block, output and remaining input, its own return-stack cells as they were and the image unchanged, `run` returning exactly for budgets that cover those steps; or raises that stack or input error after exactly that many steps; or never stops for any budget |
| `Correctness.ControlKept` | src/min_cpu_forth/services/kernel/routines.py:14-58 | the control invariant of whole runs, whatever comes of them: in every state from `START` on, up to the halt, the error, the point evaluation does not follow, or for ever, the program counter is inside the program, `NEXTREG` holds the index of `NEXT`, at `NEXT` `IP` addresses a cell of a word's thread or of the boot thread and that cell names an installed word, and every `JMP` goes to `NEXT`, to the label just `SET`, or to the routine of the word `NEXT` has fetched |
| `EndToEnd.RunSystem` | src/min_cpu_forth/services/emulator.py:111-118 | the same of the mutable emulator: `run(max_steps)` on a built and booted system returns, raises an error of evaluation, or exceeds its budget exactly as the evaluated cost and outcome say, and when it returns shows the evaluated stack, block, output and input |
| `EndToEnd.BuildSystem` | src/min_cpu_forth/containers.py:37-66 | wiring a fresh memory, dictionary and emulator, building and booting succeeds exactly for resolvable words and boot thread, and leaves a machine the correctness theorem applies to, memory past the image zero |
| `EndToEnd.Boot` | src/min_cpu_forth/services/kernel/builder.py:92-95 | booting sets the program, resets the program counter and points `IP` at the boot thread, and nothing else |
| `EndToEnd.BuiltImage` | src/min_cpu_forth/services/kernel/builder.py:73-84 | the cells `build` leaves in memory are the image the correctness theorem speaks about |
| `EndToEnd.KernelRuns` | src/min_cpu_forth/services/emulator.py:111-118 | what `run` answers for every budget on a booted image: the halted machine, the error, or the step limit |
| `Correctness.BootRuns` | src/min_cpu_forth/services/kernel/routines.py:43-51 | from `START`, three steps reach the boot thread, and from there the machine does what evaluating it says |
| `Correctness.ComportsFrom` | src/min_cpu_forth/services/emulator.py:105-118 | what the machine with separated memory does on an outcome, the emulator with its one memory does too: halts, raises or goes on with the same step counts |
| `Threading.WordRuns` | src/min_cpu_forth/services/kernel/routines.py:47-58 | calling any installed word through a thread cell does to the machine exactly what evaluating the word says, errors and endless loops included, by recursion on the words it may call |
| `Threading.ThreadRuns` | src/min_cpu_forth/services/kernel/routines.py:47-58 | running a compiled thread from any of its cells does exactly what evaluating the items from there says, and its exit goes where the caller's return address says |
| `Threading.ColonWordEntered` | src/min_cpu_forth/services/kernel/routines.py:53-58 | calling a colon word takes nine steps into its thread, with the way back on the return stack |
| `Threading.ExitRuns` | src/min_cpu_forth/services/kernel/routines.py:88-96 | `EXIT` with nothing of its own left takes six steps back to the caller |
| `Threading.LitRuns` | src/min_cpu_forth/services/kernel/routines.py:77-87 | `LIT` takes eight steps, pushes the next thread cell and steps over it |
| `Threading.ByeRuns` | src/min_cpu_forth/services/kernel/routines.py:97-104 | `BYE` halts in five steps with everything as it was |
| `Threading.CallFails` | src/min_cpu_forth/services/kernel/routines.py:53-58 | a call with no room for its return address is refused at the first step of `ENTER` |
| `Threading.LitFails` | src/min_cpu_forth/services/kernel/routines.py:77-87 | `LIT` with no room for its literal is refused after five steps |
| `Threading.ExitFails` | src/min_cpu_forth/services/kernel/routines.py:88-96 | `EXIT` with nobody to return to is refused after four steps |
| `Threading.NextReaches` | src/min_cpu_forth/services/kernel/routines.py:47-51 | four steps of double indirection reach the routine of the word the thread cell names, `W` at its code field |
| `Evaluation.EvalThreadIntact` | src/min_cpu_forth/services/kernel/builder.py:73-84 | no evaluation ever changes a cell of the dictionary or the system variables |
| `Primitives.PrimitiveReturns` | src/min_cpu_forth/services/kernel/routines.py:106-704 | the contract of every CODE word but the control words `LIT`, `EXIT` and `BYE`, which have their own rows: wherever the word has a meaning its machine code goes from its entry to `NEXT` in exactly the stated number of steps with that meaning, `IP` and everything below the definition's own return-stack cells untouched |
| `Troubles.PrimitiveStumbles` | src/min_cpu_forth/services/kernel/routines.py:106-704 | and wherever it has none because a stack is too full or too empty or the input is exhausted, its machine code is refused exactly that after exactly the stated number of steps |
| `Control.PopsRunDry` | src/min_cpu_forth/services/emulator.py:200-202 | a routine that wants more operands than there are takes those and then raises the underflow |
| `Control.FormsWalk` | src/min_cpu_forth/services/kernel/routines.py:14-19 | running any block of orderly lines keeps `NEXTREG`, stays inside the program, does not pass through `NEXT`, and jumps only to `NEXT` or to the label just `SET` |
| `KernelShape.RoutineFine` | src/min_cpu_forth/services/kernel/routines.py:76-704 | every primitive's routine consists of lines the assembler takes, every `JMP` through `NEXTREG` or a register just set to a label, and no line but in `LIT` and `EXIT` writes `IP`, `W`, `XT` or `NEXTREG`; those two may write `IP` |
| `KernelShape.RoutineModest` | src/min_cpu_forth/services/kernel/routines.py:14-19 | running any line of a routine leaves `W`, `XT` and `NEXTREG` as they were, and `IP` too but in `LIT` and `EXIT` |
| `MulRoutine.MulReturns` | src/min_cpu_forth/services/kernel/routines.py:232-244 | for every a and every b that is not negative, `*` pushes a*b in exactly 6b+6 steps |
| `MulRoutine.MulNeverReturns` | src/min_cpu_forth/services/kernel/routines.py:232-244 | for every a and every negative b, from its entry `*` takes any number of steps without returning, halting or raising, and is inside its loop from the third on |
| `NumberRoutine.NumberReturns` | src/min_cpu_forth/services/kernel/routines.py:539-595 | for every counted string `NUMBER` pushes the value and 1 if it is an optional minus and then digits, two zeros if it is anything else, in exactly the stated number of steps |
| `NumberRoutine.TimesTen` | src/min_cpu_forth/services/kernel/routines.py:568-574 | eight times plus two times the number so far, by additions alone, is ten times it |
| `NumberRoutine.DigitTurn` | src/min_cpu_forth/services/kernel/routines.py:557-580 | one digit is Horner's rule on the number so far, in 26 steps |
| `NumberRoutine.NumberOverflows` | src/min_cpu_forth/services/kernel/routines.py:586-595 | on a full data stack `NUMBER` is refused at its second push |
| `WordRoutine.WordReturns` | src/min_cpu_forth/services/kernel/routines.py:602-626 | `WORD` skips the leading delimiters, stores exactly the token as a counted string in the buffer, consumes exactly up to and with the closing delimiter and changes nothing else |
| `WordRoutine.WordRunsDry` | src/min_cpu_forth/services/kernel/routines.py:604-621 | when the input runs out before a token ends, `WORD` reads all of it and is refused more, after an exactly stated number of steps |
| `WordRoutine.FilledIsCounted` | src/min_cpu_forth/services/kernel/routines.py:612-625 | storing the characters one by one and the count last writes the counted string and no other cell |
| `Primitives.NextTokenSplits` | src/min_cpu_forth/services/kernel/routines.py:604-621 | the tokenizer's cut: only delimiters before the token, none inside it, one right after it |
| `FindRoutine.FindReturns` | src/min_cpu_forth/services/kernel/routines.py:633-701 | on every well-formed dictionary and every counted string `FIND` terminates in the stated number of steps with the newest visible word of that name and its flag, or two zeros, and changes nothing but the data stack |
| `FindRoutine.FindOverflows` | src/min_cpu_forth/services/kernel/routines.py:674-701 | on a full data stack `FIND` is refused at its second push |
| `FindRoutine.AnswerIsNewest` | src/min_cpu_forth/services/kernel/routines.py:638-696 | walking the link chain with early exits finds the newest visible match |
| `DictionaryAdapter.FoundIsFirst` | src/min_cpu_forth/services/kernel/routines.py:633-701 | `FIND`'s answer is the first visible header of that name in the host's `headers()`, its code field address and flag |
| `DictionaryAdapter.FindAgrees` | src/min_cpu_forth/adapters/dictionary.py:71-76 | `FIND` and the host's `find` agree if and only if the newest word of the name is visible |
| `SimpleRoutines.NextRuns` | src/min_cpu_forth/services/kernel/routines.py:47-51 | the inner interpreter's four instructions |
| `SimpleRoutines.EnterReturns` | src/min_cpu_forth/services/kernel/routines.py:53-58 | `ENTER` pushes the caller's `IP` and starts at the cell after the code field |
| `SimpleRoutines.AbsReturns` | src/min_cpu_forth/services/kernel/routines.py:259-274 | `ABS` on both sides of its branch, with its two costs |
| `SimpleRoutines.PairTestReturns` | src/min_cpu_forth/services/kernel/routines.py:375-446 | `=`, `<>`, `<` and `>` push -1 or 0 in eight steps whichever way they branch |
| `SimpleRoutines.ZeroTestReturns` | src/min_cpu_forth/services/kernel/routines.py:447-478 | `0=` and `0<` push -1 or 0 in six steps whichever way they branch |
| `KernelAssembles.KernelAssembled` | src/min_cpu_forth/services/kernel/routines.py:706-707 | the kernel source assembles: no label twice, no label missing, every line well formed |
| `KernelLayout.KernelSited` | src/min_cpu_forth/services/kernel/routines.py:41-58 | in the assembled kernel `START` is at index 0, every routine sits where its label says with its blocks one after the other, and no register name is also a label |
| `AssemblerSimulation.AssemblySimulates` | src/min_cpu_forth/services/assembler/emitter.py:28-132 | for every source that assembles, every state of the emulator and every number of lines, the emitted program reaches the very state the run by lines reaches, one or two instructions a line: registers, all of memory, stack pointers, devices and program counter; it halts when that does and raises its errors |
| `AssemblerSimulation.SourceDecides` | src/min_cpu_forth/services/emulator.py:111-118 | a run by lines that halts or raises decides what `run` answers on the assembled program, for every budget |
| `AssemblerSimulation.SourceStops` | src/min_cpu_forth/services/emulator.py:111-118 | a run by lines runs as many lines as it may, unless it halts, raises, or control comes to the second instruction of a `SET` or `MOV` or to a negative index |
| `AssemblerSimulation.StrayedMeans` | src/min_cpu_forth/services/assembler/emitter.py:71-95 | inside the program, control is at no line's start only in the middle of a `SET` or `MOV` |
| `SourceMachine.RealLineAsks` | src/min_cpu_forth/services/emulator.py:140-223 | a line of one instruction asks for the effect its instruction decodes to; a branch to a label lands on it, forwards or backwards |
| `SourceMachine.PairAsks` | src/min_cpu_forth/services/assembler/emitter.py:71-95 | `SET` and `MOV` clear their register and then give it the value the line assigns |
| `Assembler.AssemblePlaces` | src/min_cpu_forth/services/assembler/resolver.py:18-37 | each line's address is the number of instructions emitted before it, each label the index of the next instruction emitted, and the program holds each line's code there |
| `Assembler.EmitLineSize` | src/min_cpu_forth/services/assembler/resolver.py:33-37 | the resolver's size of a line is the number of instructions the emitter makes of it |
| `AssemblerAcceptance.AssembleAccepts` | src/min_cpu_forth/services/assembler/emitter.py:35-132 | a source assembles if and only if no label is defined twice and every line has a known mnemonic with operands of the right number and kind and only defined labels |
| `AssemblerAcceptance.ResolveAccepts` | src/min_cpu_forth/services/assembler/resolver.py:23-27 | resolution fails exactly on a label defined twice |
| `AssemblerErrors.AssembleRefuses` | src/min_cpu_forth/services/assembler/service.py:31-35 | a source is refused with exactly the first label that stands there before, wherever its faulty lines are, or, if there is none, with the first fault of its first faulty line |
| `AssemblerErrors.EmitLineFaults` | src/min_cpu_forth/services/assembler/emitter.py:35-132 | the fault of a line, opcode by opcode: the number of operands, then the first operand that is not what the opcode takes there |
| `AssemblerAcceptance.MovCopies` | src/min_cpu_forth/services/assembler/emitter.py:84-95 | `MOV` leaves the source's value in the destination if and only if the registers differ or the source holds zero |
| `Parser.PeelAndParse` | src/min_cpu_forth/services/assembler/parser.py:19-40 | the label-peeling loop terminates and computes the recursive peeling |
| `ParserLayouts.ParsesExactly` | src/min_cpu_forth/services/assembler/parser.py:15-40 | a text parses to a line if and only if it is one of the ways of laying that line out: blanks of any kind and number in front of labels, mnemonic and operands and around commas, blank operands, any comment; validity is told by character codes, without the parser's own predicates |
| `ParserLayouts.RenderParses` | src/min_cpu_forth/services/assembler/parser.py:15-40 | every such layout of labels, mnemonic and operands parses back to them |
| `ParserLayouts.MalformedToken` | src/min_cpu_forth/services/assembler/parser.py:35-40 | the error names the first token behind the labels, and that token is no mnemonic |
| `ParserLayouts.MnemonicsAccepted` | src/min_cpu_forth/services/assembler/specs.py:37-45 | each of the 17 opcodes' texts, `SET` and `MOV` is a well-formed mnemonic |
| `ParserLayouts.PopLineReads` | src/min_cpu_forth/services/kernel/routines.py:106-114 | an indented line as the kernel writes them, `  POP_D X`, is read as mnemonic and operand |
| `IntegerText.ReadsExactly` | src/min_cpu_forth/services/assembler/emitter.py:135-140 | a token is the integer v if and only if it is one of the ways of writing v: a sign or none, decimal digits or a marker and digits of its base counted by their places, single underscores, no leading zero but in zero |
| `IntegerText.DigitsInARow` | src/min_cpu_forth/services/assembler/emitter.py:135-140 | a digit is worth its place in the row of the ten digits and the 26 letters, in either case |
| `IntegerText.Markers` | src/min_cpu_forth/services/assembler/emitter.py:135-140 | `x`, `o` and `b`, in either case, stand for bases 16, 8 and 2, and no other character marks one |
| `IntegerText.DecimalRead` | src/min_cpu_forth/services/assembler/emitter.py:135-140 | every integer is read back from its decimal text |
| `SourceText.SpelledIs` | src/min_cpu_forth/domain/opcode.py:12-31 | a mnemonic is looked up under its own spelling and no other; `MnemonicOf` of each of the nineteen, written out, is in the lemmas it uses |
| `SourceText.ReadsExactly` | src/min_cpu_forth/services/assembler/parser.py:15-40 | a line of text is read as a line for the resolver if and only if it is one of the ways of writing it |
| `SourceText.TextAssembles` | src/min_cpu_forth/services/assembler/service.py:31-35 | however a program is laid out and its integers are written, its text assembles to what its lines assemble to, error for error |
| `SourceText.AssembleSource` | src/min_cpu_forth/services/assembler/service.py:31-35 | the loop over the source's lines and the two stages after it compute that; a malformed line is told before any label is looked at |
| `AssemblerStages.ResolveLines` | src/min_cpu_forth/services/assembler/resolver.py:18-30 | the resolver's loops over lines and labels compute the recursive resolution, error for error |
| `AssemblerStages.FillFields` | src/min_cpu_forth/services/assembler/emitter.py:52-69 | the operand loop fills each field as its specification says, stopping at the first bad token |
| `AssemblerStages.EmitLines` | src/min_cpu_forth/services/assembler/emitter.py:28-33 | the emitter's loop computes the recursive emission, error for error |
| `AssemblerStages.AssembleLines` | src/min_cpu_forth/services/assembler/service.py:31-35 | resolving and then emitting parsed lines is `Assemble` |
| `Separation.RunSeparates` | src/min_cpu_forth/layout.py:11-29 | along every run whose stores avoid both stack regions each stack is the replay of its own pushes and pops and nothing else, within its size, and without stores the dictionary block does not change |
| `Separation.ApplySeparates` | src/min_cpu_forth/services/emulator.py:140-218 | one instruction's effect on the shared memory acts on each region exactly as on that region alone |
| `Separation.StepsRefine` | src/min_cpu_forth/services/emulator.py:105-118 | any number of steps of the machine with separated memory is the same number of steps of the real one, error for error, or the real one comes to a `LOAD` or `STORE` outside the dictionary block |
| `Machine.RunOfSteps` | src/min_cpu_forth/services/emulator.py:111-118 | a run of exactly n steps to a halt decides what `run` answers for every budget |
| `Machine.RunOfError` | src/min_cpu_forth/services/emulator.py:111-118 | so does one of exactly n steps to an error |
| `AbstractMachine.StepsAdd` | src/min_cpu_forth/services/emulator.py:105-118 | runs compose |
| `Emulator.EmulatorService.Step` | src/min_cpu_forth/services/emulator.py:105-109 | the in-place step makes exactly the machine's step, or raises exactly its error |
| `Emulator.EmulatorService.Run` | src/min_cpu_forth/services/emulator.py:111-118 | the in-place loop computes `run` for every budget |
| `Emulator.EmulatorService.ExecutePush` | src/min_cpu_forth/services/emulator.py:196-206 | the two pushes, over adapters that share one memory |
| `Emulator.EmulatorService.ExecutePop` | src/min_cpu_forth/services/emulator.py:200-210 | the two pops, over adapters that share one memory |
| `Emulator.EmulatorService.Dispatch` | src/min_cpu_forth/services/emulator.py:64-82 | the handler table: every opcode's in-place effect is the machine's, error for error |
| `Emulator.EmulatorService.ExecuteMemory` | src/min_cpu_forth/services/emulator.py:140-150 | `LOAD` and `STORE` with Python's list indices |
| `Emulator.EmulatorService.ExecuteRegisters` | src/min_cpu_forth/services/emulator.py:152-194 | arithmetic, logic and branches, and the errors for missing operands and offsets |
| `Emulator.EmulatorService.ExecuteDevices` | src/min_cpu_forth/services/emulator.py:212-223 | `IN`, `OUT` and `HALT` |
| `Emulator.EmulatorService.Load` | src/min_cpu_forth/services/emulator.py:99-103 | loading resets the program counter and the halted flag and nothing else |
| `StackAdapter.DownwardStack.Push` | src/min_cpu_forth/adapters/stack.py:29-34 | succeeds exactly below full, puts the value on top of the LIFO and changes one cell |
| `StackAdapter.DownwardStack.Pop` | src/min_cpu_forth/adapters/stack.py:36-42 | succeeds exactly when something is there, takes the top off and changes no cell |
| `StackAdapter.DownwardStack.Peek` | src/min_cpu_forth/adapters/stack.py:44-48 | the top, left in place |
| `DictionaryAdapter.MemoryDictionary.AppendWord` | src/min_cpu_forth/adapters/dictionary.py:50-69 | the new word is the newest of the chain, behind whatever cells were appended since the last, with its header, code field and thread; `DP` moves by 5 + name + thread; every other cell but `LATEST` is as it was |
| `DictionaryAdapter.MemoryDictionary.AppendCell` | src/min_cpu_forth/adapters/dictionary.py:43-48 | one cell at `DP`, which moves up by one; the words are untouched |
| `DictionaryAdapter.MemoryDictionary.Headers` | src/min_cpu_forth/adapters/dictionary.py:78-83 | the walk along the links terminates and yields every word's header, newest first |
| `DictionaryAdapter.MemoryDictionary.ReadHeader` | src/min_cpu_forth/adapters/dictionary.py:85-95 | decodes the name, link, flags and code field address that were written |
| `DictionaryAdapter.MemoryDictionary.Find` | src/min_cpu_forth/adapters/dictionary.py:71-76 | the newest word of that name, or none |
| `DictionaryAdapter.AppendedHeaders` | src/min_cpu_forth/adapters/dictionary.py:50-83 | after an append `headers` yields the new word and then exactly what it yielded before |
| `DictionaryAdapter.HeadersNewestFirst` | src/min_cpu_forth/adapters/dictionary.py:78-83 | one header a word, in reverse order of definition |
| `DictionaryAdapter.ChainAppend` | src/min_cpu_forth/adapters/dictionary.py:59-68 | a word written past the others and linked to them makes the longer chain, older words untouched |
| `DictionaryAdapter.WriteCounted` | src/min_cpu_forth/adapters/counted_string.py:29-34 | writes exactly the length cell and the characters and answers the address past them |
| `DictionaryAdapter.ReadCounted` | src/min_cpu_forth/adapters/counted_string.py:24-27 | reads back the text that was written |
| `DictionaryAdapter.CfaAscends` | src/min_cpu_forth/adapters/dictionary.py:59-69 | later words have higher code field addresses |
| `KernelBuilder.KernelBuilder.Build` | src/min_cpu_forth/services/kernel/builder.py:43-84 | succeeds if and only if every name is installed before it is used, and then the dictionary, the boot thread, its address and the map of code field addresses are those of the statically bound image, the headers newest first have the specified names and flags, `FIND` answers every name by its newest specification, and memory past the image is as it was; otherwise it names the first dangling word of the first definition that has one, or of the boot thread |
| `KernelBuilder.KernelBuilder.Install` | src/min_cpu_forth/services/kernel/builder.py:65-71 | one word is laid down with names bound before its own is |
| `KernelBuilder.KernelBuilder.CompileThread` | src/min_cpu_forth/services/kernel/builder.py:59-70 | a definition's cells and `EXIT`'s, or the first of its names that is not installed |
| `KernelBuilder.HeadersSpecified` | src/min_cpu_forth/services/kernel/builder.py:65-71 | header i has the name and the immediate flag word i is specified with, and is not smudged |
| `KernelBuilder.InstalledCells` | src/min_cpu_forth/adapters/dictionary.py:50-69 | the cells of every word around its code field address: link, immediate flag, smudge, length and name in front, the address of its routine, or of `ENTER`, in it |
| `KernelBuilder.InstalledThread` | src/min_cpu_forth/services/kernel/builder.py:59-71 | behind a colon word's code field: the code field address of the newest word so named among those before it, word by word, and that of `EXIT` |
| `KernelBuilder.FindsInstalled` | src/min_cpu_forth/services/kernel/routines.py:633-701 | for every name, `FIND` answers what `word_cfas` has for it, with 1 if the newest word of the name is specified immediate and -1 if not; two zeros for a name that is not installed |
| `Building.EntriesBuilt` | src/min_cpu_forth/services/kernel/builder.py:65-74 | the words laid down are what the threading argument asks for |
| `Building.CellStable` | src/min_cpu_forth/services/kernel/builder.py:59-71 | binding is static: later words of the same name do not move a compiled cell |
| `Building.ImageEndIsEnd` | src/min_cpu_forth/adapters/dictionary.py:50-69 | the size of an image depends only on the names and bodies, whatever they resolve to |
| `Images.BootedOn` | src/min_cpu_forth/services/kernel/builder.py:43-95 | every image `build` accepts has a machine booted on it, with empty stacks and any input: the hypotheses of the theorems above can be met |
| `NameTable.NameBound` | src/min_cpu_forth/services/kernel/builder.py:59-71 | each of the 39 names, written out in the lemmas beside it, reaches its own routine in every image none of whose definitions takes a taken name |
| `NameTable.KernelTable` | src/min_cpu_forth/services/kernel/routines.py:76-707 | the kernel's words by number: their names in order, none of them immediate |
| `KernelWords.CopyingLeaves` | src/min_cpu_forth/services/kernel/routines.py:106-203 | `DUP`, `DROP`, `OVER` and `TUCK`, called by name from `START` on the booted kernel, halt on exactly those stacks with everything else as it was |
| `KernelWords.MovingLeaves` | src/min_cpu_forth/services/kernel/routines.py:126-190 | `SWAP`, `ROT`, `-ROT` and `NIP` likewise |
| `KernelWords.ArithmeticLeaves` | src/min_cpu_forth/services/kernel/routines.py:204-227 | `+` leaves a+b and `-` leaves a-b |
| `KernelWords.MultiplicationLeaves` | src/min_cpu_forth/services/kernel/routines.py:228-246 | `*` leaves a*b for every b that is not negative, and for every other no budget of `run` is enough |
| `KernelWords.LogicLeaves` | src/min_cpu_forth/services/kernel/routines.py:479-502 | `AND` and `OR` leave the integers whose bits `Bits` gives |
| `KernelWords.ComparisonsLeave` | src/min_cpu_forth/services/kernel/routines.py:375-446 | `=`, `<>`, `<` and `>` leave -1 for true and 0 for false |
| `KernelWords.UnaryLeave` | src/min_cpu_forth/services/kernel/routines.py:247-297 | `NEGATE`, `ABS`, `1+` and `1-` |
| `KernelWords.TestsLeave` | src/min_cpu_forth/services/kernel/routines.py:447-513 | `0=` and `0<` leave -1 or 0, `INVERT` leaves -a-1 |
| `KernelWords.FetchLeaves` | src/min_cpu_forth/services/kernel/routines.py:298-330 | `@` and `C@` leave the cell of the dictionary block they are given the address of |
| `KernelWords.StoreLeaves` | src/min_cpu_forth/services/kernel/routines.py:309-341 | `!` and `C!` write one cell past the program and no other |
| `KernelWords.ToReturnLeaves` | src/min_cpu_forth/services/kernel/routines.py:343-351 | `>R` moves the top of the data stack onto the return stack |
| `KernelWords.FromReturnLeaves` | src/min_cpu_forth/services/kernel/routines.py:353-373 | `>R R>` leaves both stacks as they were, `>R R@` leaves a copy on each |
| `KernelWords.KeyLeaves` | src/min_cpu_forth/services/kernel/routines.py:515-523 | `KEY` takes the first character of the input |
| `KernelWords.EmitLeaves` | src/min_cpu_forth/services/kernel/routines.py:525-533 | `EMIT` writes after what was written before |
| `KernelTexts.NumberLeaves` | src/min_cpu_forth/services/kernel/routines.py:535-596 | `NUMBER` leaves n and 1 for the text of n with any number of leading zeros, two zeros for a text that is no number |
| `KernelTexts.WordLeaves` | src/min_cpu_forth/services/kernel/routines.py:598-628 | `WORD` leaves address 1984, where it has stored the length and the characters of the token, and every other cell as it was |
| `KernelTexts.FindLeaves` | src/min_cpu_forth/services/kernel/routines.py:629-703 | for each of the 39 names in memory `FIND` leaves the code field address of that word and -1, for every other text two zeros |
| `KernelFaults.StackWordsNeed` | src/min_cpu_forth/services/kernel/routines.py:106-203 | a stack word with too few operands takes those and then raises the underflow, at a step that is known; so do the words of the next five rows |
| `KernelFaults.ArithmeticWordsNeed` | src/min_cpu_forth/services/kernel/routines.py:204-297 | `+`, `-`, `*`, `NEGATE`, `ABS`, `1+` and `1-` |
| `KernelFaults.ComparisonWordsNeed` | src/min_cpu_forth/services/kernel/routines.py:375-478 | the comparisons and tests |
| `KernelFaults.LogicWordsNeed` | src/min_cpu_forth/services/kernel/routines.py:479-513 | `AND`, `OR` and `INVERT` |
| `KernelFaults.MemoryWordsNeed` | src/min_cpu_forth/services/kernel/routines.py:298-351 | `@`, `C@`, `!`, `C!` and `>R` |
| `KernelFaults.TextWordsNeed` | src/min_cpu_forth/services/kernel/routines.py:525-703 | `EMIT`, `NUMBER`, `WORD` and `FIND` |
| `KernelFaults.CopiesOverflow` | src/min_cpu_forth/adapters/stack.py:29-34 | on a full data stack `DUP` raises the overflow after nine steps, `OVER` and `TUCK` after eleven |
| `KernelFaults.KeyFails` | src/min_cpu_forth/adapters/io.py:24-28 | `KEY` raises the input error after seven steps, or the overflow after eight |
| `KernelFaults.ReturnWordsFail` | src/min_cpu_forth/adapters/stack.py:29-42 | `>R` on a full return stack, `R>` and `R@` on an empty one |
| `KernelFaults.TextWordsOverflow` | src/min_cpu_forth/services/kernel/routines.py:586-701 | `NUMBER` and `FIND` on a full data stack raise the overflow |
| `KernelFaults.WordRunsOut` | src/min_cpu_forth/services/kernel/routines.py:604-621 | `WORD` raises the input error when nothing closes the last token |
| `KernelFaults.LiteralLeaves` | src/min_cpu_forth/services/kernel/routines.py:77-87 | `LIT v` pushes v, whatever v is, or raises the overflow after eight steps |
| `KernelFaults.ByeLeaves` | src/min_cpu_forth/services/kernel/routines.py:97-104 | `BYE` halts and changes nothing |
| `KernelFaults.ExitFails` | src/min_cpu_forth/services/kernel/routines.py:88-96 | `EXIT` outside any definition raises the underflow after seven steps |
| `SmallPrograms.SmallestImage` | src/min_cpu_forth/services/kernel/builder.py:43-95 | one image and boot thread that meet every hypothesis of the compiler theorem: the kernel's words and `BYE`, which halts after eight steps |
| `SmallPrograms.KernelMultiplies` | src/min_cpu_forth/services/kernel/routines.py:232-244 | `LIT a LIT b * BYE` on a booted machine: a*b after exactly 34+6b steps if b is not negative, and if it is no budget of `run` is enough |
| `SmallPrograms.DropUnderflows` | src/min_cpu_forth/adapters/stack.py:36-42 | `DROP BYE` on an empty stack raises the underflow after exactly seven steps |
| `SmallPrograms.ProductComputed` | src/min_cpu_forth/services/kernel/routines.py:228-246 | the same multiplication in the kernel's own image and in every image whose definitions take no taken name |
| `SmallPrograms.DropRefused` | src/min_cpu_forth/adapters/stack.py:36-42 | the same underflow there |
| `SmallPrograms.NumberRead` | src/min_cpu_forth/services/kernel/routines.py:535-628 | the same reading of a number from the input there |
| `SmallPrograms.CalculationLeaves` | src/min_cpu_forth/services/kernel/routines.py:204-227 | on a machine fresh from `boot`, `LIT a LIT b name BYE` halts on exactly the result, for `+`, `-`, `*`, the comparisons, `AND` and `OR` |
| `SmallPrograms.CalculationBoots` | src/min_cpu_forth/services/kernel/builder.py:43-95 | there is such a machine for any two integers and each of those names |
| `SmallPrograms.NopCompares` | src/min_cpu_forth/services/forth.py:60-65 | an image, a colon word and a machine that meet every hypothesis of the agreement of the two implementations |
| `Costs.ColonCost` | src/min_cpu_forth/services/kernel/routines.py:47-58 | a colon call that comes back costs fifteen steps more than the words of its body as they are evaluated, up to the `EXIT` it reaches |
| `Costs.MulCost` | src/min_cpu_forth/services/kernel/routines.py:232-244 | `*` with multiplier b costs 10+6b steps |
| `Nesting.ThreadsPointDown` | src/min_cpu_forth/services/kernel/builder.py:59-74 | every thread cell of a colon word is the code field address of an earlier word, strictly below its own |
| `Nesting.FewColonWords` | src/min_cpu_forth/layout.py:11-29 | an image that fits has at most 301 colon words |
| `Nesting.ReturnStackSuffices` | src/min_cpu_forth/layout.py:11-29 | in an image that fits and leaves `>R` alone, no call of any word with up to 722 return-stack cells taken ends in a full return stack, and a colon word does exactly what it does with none taken |
| `Nesting.CallsNeverOverflow` | src/min_cpu_forth/services/kernel/routines.py:53-58 | on the machine: along the whole run of such an image, as far as evaluation goes, no `PUSH_R` is refused |
| `RoundTrip.PrintThenRead` | src/min_cpu_forth/services/kernel/routines.py:535-628 | the decimal text of any integer that fits the buffer, between delimiters, comes back through `WORD NUMBER` as the integer and 1 with exactly the rest unread |
| `RoundTrip.KernelReads` | src/min_cpu_forth/adapters/io.py:24-28 | the same on the booted machine, run to a halt |
| `RoundTrip.DecimalRead` | src/min_cpu_forth/services/kernel/routines.py:539-595 | parsing the decimal text of an integer gives the integer |
| `Agreement.ImplementationsAgree` | src/min_cpu_forth/services/forth.py:55-108 | for unambiguous, plain and balanced colon words that use no memory words, and a `ForthService` with the same data stack and any memory: whenever the kernel's run of a call halts and `_execute_colon` does not raise, both leave the same data stack; it does not raise if its return stack is no fuller and Python allows the nested calls |
| `Agreement.ImplementationsShare` | src/min_cpu_forth/services/forth.py:91-92 | the same with `@` and `!`, for two that hold the same dictionary block, which they then leave the same too |
| `Agreement.WordAgrees` | src/min_cpu_forth/services/forth.py:60-65 | the same for every word that evaluation brings to an end and every state the two can be in, callers' return-stack cells included |
| `Agreement.WordSettles` | src/min_cpu_forth/services/kernel/builder.py:59-71 | a plain and balanced program never goes where evaluation does not follow: it ends, raises or loops |
| `AgreementErrors.ErrorsAgree` | src/min_cpu_forth/services/forth.py:60-108 | and they fail alike: when the kernel's run of a call ends in an underflow or an overflow of the data stack, `_execute_colon` raises the same error |
| `AgreementErrors.WordFails` | src/min_cpu_forth/services/forth.py:60-65 | the same for every word whose evaluation ends so, and every state the two can be in |
| `Definitions.UnambiguousIs` | src/min_cpu_forth/services/kernel/builder.py:65-71 | what the agreement asks of names: every definition takes one that is neither the kernel's nor an earlier definition's |
| `Definitions.PlainIs` | src/min_cpu_forth/services/forth.py:67-114 | what it asks of words: definitions are written in the twenty-odd names it lists and in names defined before, and that is exactly it |
| `Definitions.BalancedIs` | src/min_cpu_forth/services/kernel/routines.py:343-373 | what it asks of the return stack: reading `>R`, `R>` and `R@` off the text, each definition takes back what it has put there and no more, and that is exactly it |
| `Definitions.LeavesReturnStackIs` | src/min_cpu_forth/services/kernel/routines.py:343-351 | what `Nesting` asks: no definition names `>R` |
| `WrittenPrograms.WrittenAgree` | src/min_cpu_forth/services/forth.py:55-108 | the agreement for programs as written, with those three conditions on the text and none on what it is bound to |
| `WrittenPrograms.WrittenFail` | src/min_cpu_forth/services/forth.py:55-108 | the agreement of errors likewise |
| `WrittenPrograms.SquaredByBoth` | src/min_cpu_forth/services/forth.py:55-65 | `: SQ DUP * ;` on both: the machine halts on the square of any integer that is not negative, the service leaves that of any integer |
| `WrittenPrograms.SquareBooted` | src/min_cpu_forth/services/kernel/builder.py:43-95 | there is such a machine |
| `Agreement.SameBinding` | src/min_cpu_forth/services/forth.py:55-65 | where no colon word takes a taken name, looking a name up when it is reached finds what `build` bound it to |
| `Agreement.ComparisonsNegate` | src/min_cpu_forth/services/forth.py:99-105 | on every comparison the two give flags of opposite sign |
| `ForthService.ForthService.ExecuteColon` | src/min_cpu_forth/services/forth.py:60-65 | the loop over a definition's words, each looked up when reached, with a bound on nested calls: it returns where the words run through one after the other, raises the error of the first that raises, and `UnknownWordError` for the first that is no entry when it is reached |
| `ForthWords.CompletesIs` | src/min_cpu_forth/services/forth.py:60-65 | a definition runs through if and only if its words do, one from where the other ends |
| `ForthWords.AbortsIs` | src/min_cpu_forth/services/forth.py:60-65 | it raises an error if and only if one of its words does and those before it run through |
| `ForthNames.ServiceKnows` | src/min_cpu_forth/services/forth.py:67-119 | the names of `build_minimal_dictionary`, written out: those and no others are entries |
| `ForthNames.UnknownName` | src/min_cpu_forth/services/forth.py:62-65 | of a name that no definition has touched, a call raises `UnknownWordError` if and only if it is none of them |
| `ForthNames.StackNamesDo` | src/min_cpu_forth/services/forth.py:70-77 | the eight stack words by name, as the stacks they leave |
| `ForthNames.PairNamesDo` | src/min_cpu_forth/services/forth.py:79-107 | the nine words on two values by name, comparisons with 1 for true |
| `ForthNames.SingleNamesDo` | src/min_cpu_forth/services/forth.py:85-108 | the seven words on one value by name |
| `ForthNames.MemoryNamesDo` | src/min_cpu_forth/services/forth.py:91-92 | `@` and `!` by name, inside the dictionary block |
| `ForthNames.ReturnNamesDo` | src/min_cpu_forth/services/forth.py:95-114 | `>R`, `R>`, `R@`, `EXIT` and `BYE` by name |
| `ForthNames.DivisionNamesDo` | src/min_cpu_forth/services/forth.py:83-84 | `/` and `MOD` leave the one pair of quotient and remainder that make the dividend again, the remainder between zero and the divisor |
| `ForthNames.OtherNamesDo` | src/min_cpu_forth/services/forth.py:111-119 | division by zero, the words that need an argument, and the placeholders, which do nothing |
| `ForthNames.MissingOperands` | src/min_cpu_forth/services/forth.py:67-121 | every word by name, with operands missing: the underflow |
| `ForthNames.NoRoom` | src/min_cpu_forth/services/forth.py:67-121 | and with no room for what it adds: the overflow |
| `ForthService.ForthService.AddColonDef` | src/min_cpu_forth/services/forth.py:55-58 | the name is bound to the definition, whatever it was before; nothing runs |
| `ForthService.ForthService.Call` | src/min_cpu_forth/services/forth.py:67-108 | every primitive the two share, as its pops, peeks and pushes; `@` and `!` at any address as list reads and writes |
| `ForthService.ForthService.Fetch` | src/min_cpu_forth/services/forth.py:91-91 | `@` anywhere in memory, or the index error |
| `ForthService.ForthService.Rot` | src/min_cpu_forth/services/forth.py:145-152 | ( a b c -- b c a ), or the underflow |
| `ForthService.ForthService.Store` | src/min_cpu_forth/services/forth.py:177-181 | `!` anywhere in memory writes that one cell, or raises the index error; below the stack regions it changes neither stack |
| `ForthService.ForthService.Divide` | src/min_cpu_forth/services/forth.py:83-84 | `/` and `MOD` as their pops and push, or the division by zero |
| `ForthWords.FloorDivision` | src/min_cpu_forth/services/forth.py:83-84 | quotient and remainder are the only integers with a remainder between zero and the divisor |
| `Bits.AndBits` | src/min_cpu_forth/services/emulator.py:162-165 | bit k of the conjunction of any two integers is 1 if and only if bit k of both is, the bits being the digits of division by powers of two |
| `Bits.OrBits` | src/min_cpu_forth/services/emulator.py:167-170 | and of the disjunction if and only if bit k of one is |
| `Bits.InvertBits` | src/min_cpu_forth/services/emulator.py:172-175 | inversion swaps every bit |
| `Bits.DeMorgan` | src/min_cpu_forth/services/emulator.py:162-175 | the three logic opcodes obey De Morgan's law on all integers |

## Left out

- SourceText.AssembleSource: starts from the lines of a source, not from `splitlines`; every identifier it reads is an
  `Other` name, while the kernel's own source has constructors for its identifiers. Line numbers carry nothing.
- IntegerText.ReadsExactly: Python's limit on the length of a decimal integer.
- AssemblerSimulation.AssemblySimulates: a program counter made negative by a `JMP` counts from the end of the program
  in Python; a run by lines stops there, as it does in the middle of a `SET` or `MOV`.
- Text is ASCII; Unicode identifiers, digits and blanks are not modelled.
- Devices are one input sequence and one output sequence; registers are a total map that reads zero by default.
- The state an exception leaves behind; only which error is raised, and after how many steps.
- Correctness.CompilerCorrect: evaluation does not follow `@` and `!` outside the dictionary block, stores into the
  image or the system variables, a return stack used across definitions, strings that run past the block, tokens too
  long for the buffer, or a thread that runs off its end; of those runs the theorem says how far they get, and what the
  machine does then is covered step by step by `Machine` and `Emulator` only.
- Correctness.ControlKept: ends where evaluation does not follow, because nothing keeps a store from overwriting a
  thread, and an unbalanced return stack sends `IP` anywhere.
- Nesting.CallsNeverOverflow: ends there too.
- DictionaryAdapter.MemoryDictionary.AppendCell: the program checks no bound, so that the cell is in memory is asked
  of the caller.
- KernelBuilder.KernelBuilder.Build: building twice into one dictionary is not covered; every container starts with
  an empty one.
- ForthService.ForthService.ExecuteColon: Python's recursion limit is a parameter; what a definition does after a `@` or
  `!` outside the dictionary block is not described.
- AgreementErrors.ErrorsAgree: an overflow of the return stack, on which only the kernel's calls put anything.
- `containers.py` beyond the wiring `EndToEnd` repeats, `ports.py`, `source.py`, `build_standard_colon_defs`,
  `docs/prototypes` and the unbuilt phases of `docs/03-assembler-plan.md`: nothing to prove.
