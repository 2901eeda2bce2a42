/** Compiler correctness, all the way down: the booted image, run on the emulator with its one
    shared memory, halts exactly as evaluating the definitions says and after exactly as many steps. */
module Correctness {
  import opened Wrappers
  import opened Isa
  import opened Cpu
  import opened Layout
  import opened Stacks
  import opened Assembler
  import opened KernelSource
  import opened Symbolic
  import opened Control
  import opened KernelLayout
  import opened DictionaryShape
  import opened Words
  import opened Primitives
  import opened Evaluation
  import opened Threading
  import opened Building
  import opened Machine
  import opened Separation
  import A = AbstractMachine
  import O = SourceMachine
  import S = SimpleRoutines

  /** The first cell of the boot thread. */
  function BootIp(words: seq<WordSpec>): int { ImageEnd(words) }

  /** The first cell after the whole image. */
  function ImageTop(words: seq<WordSpec>, boot: seq<ThreadItem>): int { ImageEnd(words) + |boot| }

  /** The program an image is: its words, free to store from its top on. */
  function ImageProgram(asm: Assembly, words: seq<WordSpec>, boot: seq<ThreadItem>): Program {
    ProgramOf(asm, words, ImageTop(words, boot))
  }

  predicate Accepted(words: seq<WordSpec>, boot: seq<ThreadItem>) {
    AllResolvable(words) && BootResolvable(words, boot) && ImageTop(words, boot) <= DICTIONARY_TOP
  }

  /** The dictionary block holds the image. */
  ghost predicate ImageIn(asm: Assembly, words: seq<WordSpec>, boot: seq<ThreadItem>, low: seq<int>) {
    && Holds(ImageProgram(asm, words, boot), low)
    && ImageTop(words, boot) <= |low|
    && BootIp(words) >= 0
    && forall j :: 0 <= j < |boot| ==> low[BootIp(words) + j] == ItemCell(words, EntriesOf(asm, words), boot[j])
  }

  /** `boot(emulator, image)`: at `START`, with `IP` at the boot thread. */
  predicate Booted(words: seq<WordSpec>, m: State) {
    Sound(m) && m.pc == 0 && !m.halted && Read(m.regs, Reg(IP)) == BootIp(words)
  }

  /** What the boot thread means on the machine's data: the stacks and devices as they are, nothing
      of its own on the return stack yet. */
  function BootOutcome(asm: Assembly, words: seq<WordSpec>, boot: seq<ThreadItem>, m: State): Outcome
    requires Sound(m)
  {
    EvalThread(ImageProgram(asm, words, boot), |words|, boot, 0,
               View(m).d.(rs := Empty), Depth(ReturnStack(m)))
  }

  lemma BootThreadAt(asm: Assembly, words: seq<WordSpec>, boot: seq<ThreadItem>, low: seq<int>)
    requires Accepted(words, boot) && ImageIn(asm, words, boot, low)
    ensures ThreadAt(ImageProgram(asm, words, boot), |words|, boot, low, BootIp(words))
  {
    hide EntriesOf, Chain, CellOf;
    var p := ImageProgram(asm, words, boot);
    ImageEndIsEnd(asm, words);
    forall j | 0 <= j < |boot|
      ensures CellOf(p, |words|, boot[j]) == Some(low[BootIp(words) + j])
    {
      assert words[..|words|] == words;
      assert boot[j] in boot;
      CellStable(asm, words, p.context.top, |words|, boot[j]);
    }
  }

  /** The machine three steps after `START`. */
  function Started(asm: Assembly, m: State): A.Vm
    requires Sound(m)
  {
    var r := A.Steps(asm.program, View(m), 3);
    if r.Ok? then r.value else View(m)
  }

  /** From `START` to the first turn of the inner interpreter. */
  lemma BootThreaded(asm: Assembly, words: seq<WordSpec>, boot: seq<ThreadItem>, m: State)
    requires KernelLoaded(asm) && Accepted(words, boot) && Booted(words, m)
    requires ImageIn(asm, words, boot, m.mem[..DICTIONARY_SIZE])
    ensures A.Steps(asm.program, View(m), 3) == Ok(Started(asm, m))
    ensures Threaded(asm, ImageProgram(asm, words, boot), Started(asm, m), BootIp(words),
                     View(m).d.(rs := Empty), ReturnStack(m))
  {
    KernelSited(asm);
    hide KernelLoaded, Sited, Chain, EntriesOf, AllResolvable, BootResolvable, A.Steps, FormsAt, BlockSits;
    ImageEndIsEnd(asm, words);
    EntriesBuilt(asm, words, ImageTop(words, boot));
    StackAtDepth(m.mem, m.dsp, DATA_STACK_BASE);
    StackAtDepth(m.mem, m.rsp, RETURN_STACK_BASE);
    SitedCore(asm);
    S.StartReturns(asm, View(m));
    var d := View(m).d.(rs := Empty);
    assert Under(d, ReturnStack(m)) == View(m).d;
  }

  /** From there on the machine does what evaluating the boot thread says. */
  lemma BootRuns(asm: Assembly, words: seq<WordSpec>, boot: seq<ThreadItem>, m: State)
    requires KernelLoaded(asm) && Accepted(words, boot) && Booted(words, m)
    requires ImageIn(asm, words, boot, m.mem[..DICTIONARY_SIZE])
    ensures A.Steps(asm.program, View(m), 3) == Ok(Started(asm, m))
    ensures Exits(asm, ImageProgram(asm, words, boot), Started(asm, m), BootOutcome(asm, words, boot, m), ReturnStack(m))
  {
    hide KernelLoaded, EvalThread, Threaded, A.Steps, ThreadAt, View, Exits, Started;
    BootThreaded(asm, words, boot, m);
    BootThreadAt(asm, words, boot, m.mem[..DICTIONARY_SIZE]);
    var d := View(m).d.(rs := Empty);
    assert d.low == m.mem[..DICTIONARY_SIZE] by { ViewLow(m); }
    ThreadRuns(asm, ImageProgram(asm, words, boot), Started(asm, m), |words|, boot, 0, BootIp(words), d, ReturnStack(m));
  }

  lemma ViewLow(m: State)
    requires Sound(m)
    ensures View(m).d.low == m.mem[..DICTIONARY_SIZE]
  {
  }

  // ---- what the real machine does on each outcome ----

  /** After exactly `n` steps from `m` the machine has halted on `d`: that data stack, dictionary
      block, output and remaining input; when the `BYE` was the boot thread's own, its return-stack
      cells on top of what was there; every cell of the image as it was. */
  ghost predicate HaltsAs(program: seq<InstructionDto>, m: State, n: nat, d: A.Data, nested: bool, top: int) {
    && Sound(m)
    && Steps(program, m, n).Ok?
    && var end := Steps(program, m, n).value;
       && end.halted
       && DataStack(end) == d.ds
       && end.mem[..DICTIONARY_SIZE] == d.low
       && end.output == d.output
       && end.input == d.input
       && (!nested ==> ReturnStack(end) == Over(d.rs, ReturnStack(m)))
       && forall a :: 0 <= a < top && a < DICTIONARY_SIZE ==> end.mem[a] == m.mem[a]
  }

  /** `run` returns normally exactly when its budget covers the `n` steps to the halt. */
  ghost predicate RunNeeds(program: seq<InstructionDto>, m: State, n: nat)
    requires Sound(m)
  {
    && Steps(program, m, n).Ok?
    && forall maxSteps: nat ::
         Run(program, m, maxSteps) == if n <= maxSteps then Steps(program, m, n) else Err(StepLimit)
  }

  /** Exactly `n` steps succeed, and the next is a push, pop or read that is refused with the error of
      `fault`; `run` raises that error exactly when its budget reaches so far. */
  ghost predicate RaisesAs(program: seq<InstructionDto>, m: State, n: nat, fault: Fault) {
    && Sound(m)
    && Steps(program, m, n).Ok?
    && var end := Steps(program, m, n).value;
       && !end.halted
       && NextEffect(program, end).Ok? && FaultOf(NextEffect(program, end).value) == Some(fault)
       && Step(program, end) == Err(ErrorOf(fault))
       && forall maxSteps: nat :: Run(program, m, maxSteps) == Err(if n < maxSteps then ErrorOf(fault) else StepLimit)
  }

  /** There is no budget that `run` does not exceed, and no step that fails. */
  ghost predicate NeverStops(program: seq<InstructionDto>, m: State) {
    && Sound(m)
    && forall n: nat :: Steps(program, m, n).Ok? && Run(program, m, n) == Err(StepLimit)
  }

  /** What the machine does on the outcome `o`, `n` steps on from `m`. A thread that exits to a cell
      below its own, or goes where evaluation does not follow, gets that far. */
  ghost predicate Comports(program: seq<InstructionDto>, m: State, n: nat, o: Outcome, top: int)
    requires Sound(m)
  {
    match o
    case Stopped(d, k, nested) => HaltsAs(program, m, n + k, d, nested, top) && RunNeeds(program, m, n + k)
    case Raised(fault, k) => RaisesAs(program, m, n + k, fault)
    case Endless => NeverStops(program, m)
    case Finished(_, k) => Steps(program, m, n + k).Ok?
    case Lost(k) => Steps(program, m, n + k).Ok?
  }

  lemma HaltsConcretely(program: seq<InstructionDto>, m: State, n: nat, d: A.Data, nested: bool, top: int)
    requires Sound(m) && Intact(top, View(m).d.low, d.low)
    requires A.Steps(program, View(m), n).Ok? && A.Steps(program, View(m), n).value.halted
    requires var end := A.Steps(program, View(m), n).value.d;
      end == d.(rs := end.rs) && (!nested ==> end == Under(d, ReturnStack(m)))
    ensures HaltsAs(program, m, n, d, nested, top)
    ensures RunNeeds(program, m, n)
  {
    StepsRefine(program, m, n);
    hide A.Steps, Steps;
    var end := Steps(program, m, n).value;
    assert View(m).d.rs == ReturnStack(m);
    forall a | 0 <= a < top && a < DICTIONARY_SIZE
      ensures end.mem[a] == m.mem[a]
    {
      assert end.mem[..DICTIONARY_SIZE][a] == m.mem[..DICTIONARY_SIZE][a];
    }
    forall maxSteps: nat
      ensures Run(program, m, maxSteps) == if n <= maxSteps then Steps(program, m, n) else Err(StepLimit)
    {
      RunOfSteps(program, m, n, maxSteps);
    }
  }

  lemma RaisesConcretely(program: seq<InstructionDto>, m: State, n: nat, fault: Fault)
    requires Sound(m) && A.Steps(program, View(m), n).Ok?
    requires A.Raises(program, A.Steps(program, View(m), n).value, fault)
    ensures RaisesAs(program, m, n, fault)
  {
    StepsRefine(program, m, n);
    hide A.Steps, Steps, Step, A.Step, EffectAt;
    var end := Steps(program, m, n).value;
    StepRefines(program, end);
    assert View(end).pc == end.pc && View(end).regs == end.regs && View(end).halted == end.halted;
    forall maxSteps: nat
      ensures Run(program, m, maxSteps) == Err(if n < maxSteps then ErrorOf(fault) else StepLimit)
    {
      RunOfError(program, m, n, maxSteps);
    }
  }

  lemma NeverStopsConcretely(program: seq<InstructionDto>, m: State)
    requires Sound(m) && forall n: nat :: A.Steps(program, View(m), n).Ok?
    ensures NeverStops(program, m)
  {
    hide A.Steps, Steps, Run;
    forall n: nat
      ensures Steps(program, m, n).Ok? && Run(program, m, n) == Err(StepLimit)
    {
      assert A.Steps(program, View(m), n).Ok?;
      assert A.Steps(program, View(m), n + 1).Ok?;
      StepsRefine(program, m, n);
      StepsRefine(program, m, n + 1);
      NotHalted(program, m, n);
      RunTooLong(program, m, n);
    }
  }

  lemma NotHalted(program: seq<InstructionDto>, m: State, n: nat)
    requires Sound(m) && Steps(program, m, n).Ok? && Steps(program, m, n + 1).Ok?
    ensures !Steps(program, m, n).value.halted
  {
    StepsAdd(program, m, n, 1);
  }

  /** The first `n` steps are `Started`'s, and the outcome follows. */
  lemma ComportsFrom(
    asm: Assembly, p: Program, m: State, vm: A.Vm, n: nat, o: Outcome, top: int)
    requires Sound(m) && A.Steps(asm.program, View(m), n) == Ok(vm) && Exits(asm, p, vm, o, ReturnStack(m))
    requires o.Stopped? ==> Intact(top, View(m).d.low, o.d.low)
    ensures Comports(asm.program, m, n, o, top)
  {
    hide A.Steps, Steps, Runs, HaltsAs, RunNeeds, RaisesAs, NeverStops, A.Raises, Threaded;
    if o.Endless? {
      EndlessFrom(asm, p, m, vm, n);
      NeverStopsConcretely(asm.program, m);
    } else {
      A.StepsAdd(asm.program, View(m), n, o.cost);
      StepsRefine(asm.program, m, n + o.cost);
      match o
      case Stopped(d, k, nested) => HaltsConcretely(asm.program, m, n + k, d, nested, top);
      case Raised(fault, k) => RaisesConcretely(asm.program, m, n + k, fault);
      case _ =>
    }
  }

  lemma EndlessFrom(asm: Assembly, p: Program, m: State, vm: A.Vm, n: nat)
    requires Sound(m) && A.Steps(asm.program, View(m), n) == Ok(vm) && NeverEnds(asm, p, vm)
    ensures forall k: nat :: A.Steps(asm.program, View(m), k).Ok?
  {
    hide Runs;
    forall k: nat
      ensures A.Steps(asm.program, View(m), k).Ok?
    {
      if k < n {
        FewerSteps(asm.program, View(m), n, k);
      } else {
        assert Lasts(asm, p, vm, k - n);
        A.StepsAdd(asm.program, View(m), n, k - n);
      }
    }
  }

  lemma {:induction false} FewerSteps(program: seq<InstructionDto>, vm: A.Vm, n: nat, k: nat)
    requires A.Steps(program, vm, n).Ok? && k <= n
    ensures A.Steps(program, vm, k).Ok?
    decreases k
  {
    hide A.Step;
    if k > 0 {
      FewerSteps(program, A.Step(program, vm).value, n - 1, k - 1);
    }
  }

  /** The main theorem. For every list of colon words `build` accepts and every boot thread, the real
      machine, started at `START`, does three steps later exactly what evaluating the boot thread
      says: it halts with that data after exactly that many steps, raises that error after exactly
      that many, or never stops. */
  lemma CompilerCorrect(asm: Assembly, words: seq<WordSpec>, boot: seq<ThreadItem>, m: State)
    requires KernelLoaded(asm) && Accepted(words, boot) && Booted(words, m)
    requires ImageIn(asm, words, boot, m.mem[..DICTIONARY_SIZE])
    ensures Comports(asm.program, m, 3, BootOutcome(asm, words, boot, m), ImageTop(words, boot))
  {
    hide KernelLoaded, EvalThread, A.Steps, Steps, Chain, EntriesOf, Comports, Exits, Started;
    var p := ImageProgram(asm, words, boot);
    BootRuns(asm, words, boot, m);
    EvalThreadIntact(p, |words|, boot, 0, View(m).d.(rs := Empty), Depth(ReturnStack(m)));
    ComportsFrom(asm, p, m, Started(asm, m), 3, BootOutcome(asm, words, boot, m), ImageTop(words, boot));
  }

  // ---- what every step of the run keeps ----

  /** `ip` is the `j`-th cell of the thread of word `i`. */
  ghost predicate ThreadCell(es: seq<WordEntry>, i: nat, j: nat, ip: int) {
    i < |es| && j < |es[i].thread| && ip == Cfa(es, i) + 1 + j
  }

  /** `IP` addresses a cell of a word's thread or of the boot thread, and that cell holds the code field
      address of a word. */
  ghost predicate AtLiveCell(es: seq<WordEntry>, words: seq<WordSpec>, boot: seq<ThreadItem>, m: State) {
    var ip := Read(m.regs, Reg(IP));
    && ((exists i: nat, j: nat :: ThreadCell(es, i, j, ip)) || BootIp(words) <= ip < BootIp(words) + |boot|)
    && 0 <= ip < |m.mem|
    && exists r: nat :: r < |es| && m.mem[ip] == Cfa(es, r)
  }

  /** The `JMP` that ends `NEXT` goes where the code field of the word in `W` says. */
  ghost predicate EntersRoutine(asm: Assembly, es: seq<WordEntry>, m: State, pc': int) {
    && m.pc == Address(asm, NEXT) + 3
    && exists r: nat :: r < |es| && Read(m.regs, Reg(W)) == Cfa(es, r) && pc' == es[r].field
  }

  /** Between `START` and the end: control is inside the program, `NEXTREG` holds the index of `NEXT`,
      `IP` addresses a live thread cell whenever control is at `NEXT`, and a `JMP` goes to `NEXT`, to
      the label just `SET`, or to the routine of the word that `NEXT` has fetched. */
  ghost predicate InOrder(
    asm: Assembly, es: seq<WordEntry>, words: seq<WordSpec>, boot: seq<ThreadItem>, m: State, next: State)
  {
    && 0 <= m.pc < |asm.program| && !m.halted
    && Read(m.regs, Reg(NEXTREG)) == Address(asm, NEXT)
    && (m.pc == Address(asm, NEXT) ==> AtLiveCell(es, words, boot, m))
    && (JumpsInOrder(asm, m.pc, next.pc) || EntersRoutine(asm, es, m, next.pc))
  }

  lemma {:induction false} RunsAt(asm: Assembly, p: Program, vm: A.Vm, n: nat, j: nat)
    requires Runs(asm, p, vm, n) && j < n
    ensures A.Steps(asm.program, vm, j).Ok? && Orderly(asm, p, A.Steps(asm.program, vm, j).value)
    ensures A.Steps(asm.program, vm, j + 1) == A.Step(asm.program, A.Steps(asm.program, vm, j).value)
    decreases j
  {
    hide A.Step, AtThreadCell, JumpsInOrder, EntersWord;
    if j == 0 {
      O.OneStep(asm.program, vm);
    } else {
      RunsAt(asm, p, A.Step(asm.program, vm).value, n - 1, j - 1);
    }
  }

  /** Step `k` of the run that evaluates to `o`: any, if there is no end. */
  predicate Within(o: Outcome, k: nat) { o.Endless? || k < o.cost }

  lemma ExitsRuns(asm: Assembly, p: Program, vm: A.Vm, o: Outcome, outer: Stack, k: nat)
    requires Exits(asm, p, vm, o, outer) && Within(o, k)
    ensures exists n: nat :: k < n && Runs(asm, p, vm, n)
  {
    hide Runs, A.Steps, Threaded, A.Raises;
    if o.Endless? {
      assert Lasts(asm, p, vm, k + 1);
    } else {
      assert Runs(asm, p, vm, o.cost);
    }
  }

  /** The control invariant of whole runs, whatever comes of them: in every state from `START` on, up to
      the halt, the step that raises, the word that evaluation cannot follow, or for ever. */
  lemma ControlKept(asm: Assembly, words: seq<WordSpec>, boot: seq<ThreadItem>, m: State, k: nat)
    requires KernelLoaded(asm) && Accepted(words, boot) && Booted(words, m)
    requires ImageIn(asm, words, boot, m.mem[..DICTIONARY_SIZE])
    requires 3 <= k && Within(BootOutcome(asm, words, boot, m), k - 3)
    ensures Steps(asm.program, m, k).Ok? && Steps(asm.program, m, k + 1).Ok?
    ensures InOrder(asm, EntriesOf(asm, words), words, boot,
                    Steps(asm.program, m, k).value, Steps(asm.program, m, k + 1).value)
  {
    hide KernelLoaded, EvalThread, A.Steps, Steps, Chain, EntriesOf, A.Step, Cfa, Started, Runs, ImageIn, Accepted,
         Exits, Within;
    var p := ImageProgram(asm, words, boot);
    BootRuns(asm, words, boot, m);
    ExitsRuns(asm, p, Started(asm, m), BootOutcome(asm, words, boot, m), ReturnStack(m), k - 3);
    var n: nat :| k - 3 < n && Runs(asm, p, Started(asm, m), n);
    RunsAt(asm, p, Started(asm, m), n, k - 3);
    A.StepsAdd(asm.program, View(m), 3, k - 3);
    A.StepsAdd(asm.program, View(m), 3, k - 2);
    StepsRefine(asm.program, m, k);
    StepsRefine(asm.program, m, k + 1);
    ImageEndIsEnd(asm, words);
    Concretely(asm, p, words, boot, Steps(asm.program, m, k).value, Steps(asm.program, m, k + 1).value);
  }

  lemma Concretely(asm: Assembly, p: Program, words: seq<WordSpec>, boot: seq<ThreadItem>, m: State, next: State)
    requires Sound(m) && Sound(next) && Orderly(asm, p, View(m))
    requires A.Step(asm.program, View(m)) == Ok(View(next))
    requires End(p.context.dict) == BootIp(words) && p.context.top == ImageTop(words, boot)
    ensures InOrder(asm, p.context.dict, words, boot, m, next)
  {
    hide A.Step, Cfa, JumpsInOrder;
    var es := p.context.dict;
    if m.pc == Address(asm, NEXT) {
      var ip := Read(m.regs, Reg(IP));
      var r: nat :| r < |es| && Names(p, View(m).d, ip, r);
      if !(End(es) <= ip < p.context.top) {
        var i: nat, j: nat :| InThread(p, i, j, ip);
        assert ThreadCell(es, i, j, ip);
      }
      assert m.mem[ip] == Cfa(es, r);
    }
  }
}
