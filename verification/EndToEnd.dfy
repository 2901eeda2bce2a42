/** The wired system: build an image into fresh memory, boot the emulator on it and run it. */
module EndToEnd {
  import opened Wrappers
  import opened Isa
  import opened Cpu
  import opened Layout
  import opened Stacks
  import opened Assembler
  import opened KernelLayout
  import opened DictionaryShape
  import opened DictionaryAdapter
  import opened Evaluation
  import opened Threading
  import opened Building
  import opened Correctness
  import opened Emulator
  import opened KernelBuilder
  import opened Separation
  import KernelAssembles
  import M = Machine

  lemma ChainBelow(mem: seq<int>, es: seq<WordEntry>, k: nat)
    requires Chain(mem, es) && End(es) <= k <= |mem|
    ensures Chain(mem[..k], es)
  {
    hide End, EntryAt, NameField, Link, CellsAt;
    forall i | 0 <= i < |es|
      ensures EntryIn(mem[..k], es, i)
    {
      ChainEntry(mem, es, i);
      EndBefore(es, i);
      CellsBelow(mem, End(es[..i]), es[i].before, k);
      EntryBelow(mem, NameField(es, i), es[i], Link(es, i), k);
    }
  }

  lemma EntryBelow(mem: seq<int>, nf: int, e: WordEntry, link: int, k: nat)
    requires EntryAt(mem, nf, e, link) && nf + 2 + |e.name| + |e.thread| <= k <= |mem|
    ensures EntryAt(mem[..k], nf, e, link)
  {
  }

  /** What `build` leaves in memory is the image the correctness theorem is about. */
  lemma BuiltImage(asm: Assembly, words: seq<WordSpec>, boot: seq<ThreadItem>, mem: seq<int>)
    requires Chain(mem, EntriesOf(asm, words))
    requires CellsAt(mem, End(EntriesOf(asm, words)), ItemCells(words, EntriesOf(asm, words), boot))
    requires ImageTop(words, boot) <= DICTIONARY_SIZE <= |mem|
    ensures ImageIn(asm, words, boot, mem[..DICTIONARY_SIZE])
  {
    hide EntriesOf, ItemCell, Chain, End, CellsAt, ImageEnd;
    var es := EntriesOf(asm, words);
    ImageEndIsEnd(asm, words);
    EndAtLeast(es);
    ChainBelow(mem, es, DICTIONARY_SIZE);
    CellsBelow(mem, End(es), ItemCells(words, es, boot), DICTIONARY_SIZE);
  }

  lemma CellsBelow(mem: seq<int>, at: int, cells: seq<int>, k: nat)
    requires CellsAt(mem, at, cells) && at + |cells| <= k <= |mem|
    ensures CellsAt(mem[..k], at, cells)
    ensures forall j :: 0 <= j < |cells| ==> at + j < k && mem[..k][at + j] == cells[j]
  {
    assert mem[..k][at..at + |cells|] == mem[at..at + |cells|];
    forall j | 0 <= j < |cells|
      ensures mem[at + j] == cells[j]
    {
      assert mem[at..at + |cells|][j] == mem[at + j];
    }
  }

  /** `boot`: load the image and point `IP` at its boot thread. */
  method Boot(emulator: EmulatorService, image: KernelImage)
    requires emulator.Valid()
    modifies emulator
    ensures emulator.Valid() && emulator.program == image.program
    ensures emulator.State()
         == old(emulator.State()).(pc := 0, halted := false, regs := Bind(old(emulator.registers), Reg(IP), image.bootIp))
  {
    emulator.Load(image.program);
    emulator.WriteRegister(Reg(IP), image.bootIp);
  }

  /** A machine fresh from `boot`: nothing on either stack, nothing written, all input unread. */
  ghost predicate Fresh(words: seq<WordSpec>, boot: seq<ThreadItem>, input: seq<int>, m: M.State) {
    && Booted(words, m)
    && ImageIn(Kernel(), words, boot, m.mem[..DICTIONARY_SIZE])
    && DataStack(m) == Empty && ReturnStack(m) == Empty
    && m.input == input && m.output == []
  }

  /** The machine has halted on exactly what evaluation says. */
  ghost predicate Shows(m: M.State, o: Outcome)
    requires o.Stopped?
  {
    && M.Sound(m) && m.halted
    && DataStack(m) == o.d.ds && m.mem[..DICTIONARY_SIZE] == o.d.low
    && m.output == o.d.output && m.input == o.d.input
  }

  /** The container's wiring, `build` and `boot`. */
  method BuildSystem(colon: seq<WordSpec>, boot: seq<ThreadItem>, input: seq<int>)
    returns (r: Result<EmulatorService, KernelError>)
    requires forall w :: w in colon ==> w.ColonWord?
    requires ImageTop(AllWords(colon), boot) <= DICTIONARY_TOP
    ensures r.Ok? <==> AllResolvable(AllWords(colon)) && BootResolvable(AllWords(colon), boot)
    ensures r.Ok? ==>
      var emulator := r.value;
      && fresh(emulator) && fresh(emulator.memory) && fresh(emulator.dataStack) && fresh(emulator.returnStack)
      && emulator.Valid() && emulator.program == Kernel().program
      && Fresh(AllWords(colon), boot, input, emulator.State())
      && (forall a :: ImageTop(AllWords(colon), boot) <= a < MEMORY_SIZE ==> emulator.memory[a] == 0)
  {
    hide AllResolvable, BootResolvable, ImageIn, Chain, CellsAt, EntriesOf, End, ImageEnd, AllWords, Knows, Kernel;
    var memory := new int[MEMORY_SIZE](_ => 0);
    var dictionary := new MemoryDictionary(memory);
    var emulator := new EmulatorService(memory, input);
    var builder := new KernelBuilder(dictionary);
    var built := builder.Build(colon, boot);
    if built.Err? {
      return Err(built.error);
    }
    Boot(emulator, built.value);
    BuiltImage(Kernel(), AllWords(colon), boot, memory[..]);
    return Ok(emulator);
  }

  /** What `run(maxSteps)` answers when the boot thread evaluates to `o`, `n` being the steps that lead to
      it; `m` is the machine afterwards, if it returns. */
  ghost predicate Answered(o: Outcome, n: nat, maxSteps: nat, r: Result<(), MachineError>, m: M.State) {
    && (o.Stopped? ==> (if n + o.cost <= maxSteps then r.Ok? && Shows(m, o) else r == Err(StepLimit)))
    && (o.Raised? ==> r == Err(if n + o.cost < maxSteps then ErrorOf(o.fault) else StepLimit))
    && (o.Endless? ==> r == Err(StepLimit))
  }

  /** Running a built and booted system: for every list of colon words, every boot thread, every input
      and every budget that fit, `run` returns, raises or exceeds its budget exactly as evaluating the
      boot thread says, and when it returns shows the evaluated stack, block, output and remaining input. */
  method RunSystem(emulator: EmulatorService, colon: seq<WordSpec>, boot: seq<ThreadItem>, input: seq<int>,
                   maxSteps: nat)
    returns (r: Result<(), MachineError>)
    requires emulator.Valid() && emulator.program == Kernel().program
    requires Fresh(AllWords(colon), boot, input, emulator.State())
    requires Accepted(AllWords(colon), boot)
    modifies emulator, emulator.memory, emulator.dataStack`pointer, emulator.returnStack`pointer
    ensures emulator.Valid()
    ensures emulator.program == Kernel().program
    ensures Answered(old(BootOutcome(Kernel(), AllWords(colon), boot, emulator.State())), 3, maxSteps, r,
                     emulator.State())
  {
    hide ImageIn, AllWords, EvalThread, Kernel, Accepted, ImageTop, Answered;
    ghost var start := emulator.State();
    r := emulator.Run(maxSteps);
    KernelRuns(AllWords(colon), boot, start, maxSteps, r, emulator.State());
  }

  /** What the correctness theorem says of `run` with a budget. */
  lemma KernelRuns(
    words: seq<WordSpec>, boot: seq<ThreadItem>, m: M.State, maxSteps: nat, r: Result<(), MachineError>, m': M.State)
    requires Accepted(words, boot) && Booted(words, m) && ImageIn(Kernel(), words, boot, m.mem[..DICTIONARY_SIZE])
    requires var run := M.Run(Kernel().program, m, maxSteps);
      if run.Ok? then r.Ok? && m' == run.value else r == Err(run.error)
    ensures Answered(BootOutcome(Kernel(), words, boot, m), 3, maxSteps, r, m')
  {
    KernelAssembles.KernelAssembled();
    hide Accepted, ImageIn, BootOutcome, Assemble, M.Steps, M.Run;
    CompilerCorrect(Kernel(), words, boot, m);
  }
}
