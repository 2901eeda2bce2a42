/** Running threads by double indirection computes what evaluation says: the compiler-correctness
    argument, by recursion on the words a definition may call. */
module Threading {
  import opened Wrappers
  import opened Isa
  import opened Cpu
  import opened Layout
  import opened Stacks
  import opened Assembler
  import opened AbstractMachine
  import opened Forms
  import opened KernelSource
  import opened Symbolic
  import opened Control
  import opened SourceMachine
  import opened KernelLayout
  import opened DictionaryShape
  import opened Words
  import opened Primitives
  import opened Troubles
  import opened Evaluation
  import Placement
  import S = SimpleRoutines

  /** A code field holds the entry of a routine: the word's own, or `ENTER` for a colon word. */
  function FieldOf(asm: Assembly, w: WordSpec): int {
    match w
    case CodeWord(_, prim, _) => Address(asm, Entry(prim))
    case ColonWord(_, _, _) => Address(asm, ENTER)
  }

  /** `items`, compiled with the first `limit` words installed, are the cells `thread`. */
  ghost predicate Compiled(p: Program, limit: nat, items: seq<ThreadItem>, thread: seq<int>)
    requires Matched(p) && limit <= |p.words|
  {
    && |thread| == |items|
    && forall j :: 0 <= j < |items| ==> CellOf(p, limit, items[j]) == Some(thread[j])
  }

  ghost predicate Installed(asm: Assembly, p: Program, i: nat)
    requires Matched(p) && i < |p.words|
  {
    var e := p.context.dict[i];
    && e.field == FieldOf(asm, p.words[i])
    && (p.words[i].ColonWord? ==> Compiled(p, i, ItemsOf(p.words[i].words), e.thread))
  }

  /** The dictionary of `p` is what building it with the assembled kernel `asm` produces. */
  ghost predicate Built(asm: Assembly, p: Program) {
    && Sited(asm)
    && Matched(p)
    && End(p.context.dict) <= p.context.top <= DICTIONARY_SIZE
    && forall i {:trigger p.words[i]} :: 0 <= i < |p.words| ==> Installed(asm, p, i)
  }

  /** The block in memory holds that dictionary. */
  ghost predicate Holds(p: Program, low: seq<int>) { |low| == DICTIONARY_SIZE && Chain(low, p.context.dict) }

  /** Somewhere the inner interpreter can be, with `d` over `outer`. */
  ghost predicate Threaded(asm: Assembly, p: Program, vm: Vm, ip: int, d: Data, outer: Stack) {
    && Built(asm, p)
    && Holds(p, d.low)
    && Ready(asm, vm, Address(asm, NEXT), ip, Under(d, outer))
    && Depth(d.ds) <= DATA_STACK_SIZE
    && Depth(d.rs) + Depth(outer) <= RETURN_STACK_SIZE
  }

  // ---- what every step of a run keeps ----

  /** `ip` is the `j`-th cell of the thread of word `i`. */
  ghost predicate InThread(p: Program, i: nat, j: nat, ip: int) {
    i < |p.context.dict| && j < |p.context.dict[i].thread| && ip == Cfa(p.context.dict, i) + 1 + j
  }

  /** `ip` is a cell of a word's thread, or of the boot thread, which lies between the last word and
      the first cell that programs may store to. */
  ghost predicate OnThread(p: Program, ip: int) {
    || (exists i: nat, j: nat :: InThread(p, i, j, ip))
    || End(p.context.dict) <= ip < p.context.top
  }

  /** The cell at `ip` is a thread cell, and names word `i`. */
  ghost predicate Names(p: Program, d: Data, ip: int, i: nat)
    requires i < |p.context.dict|
  {
    InBlock(d, ip) && OnThread(p, ip) && d.low[ip] == Cfa(p.context.dict, i)
  }

  /** `IP` addresses a thread cell of the image, which names a word. */
  ghost predicate AtThreadCell(p: Program, vm: Vm) {
    exists r: nat :: r < |p.context.dict| && Names(p, vm.d, Read(vm.regs, Reg(IP)), r)
  }

  /** The last step of `NEXT` goes where the code field says of the word whose CFA is in `W`. */
  ghost predicate EntersWord(asm: Assembly, p: Program, vm: Vm, pc': int) {
    && vm.pc == Address(asm, NEXT) + 3
    && exists r: nat :: r < |p.context.dict| && Read(vm.regs, Reg(W)) == Cfa(p.context.dict, r)
                        && pc' == p.context.dict[r].field
  }

  /** One step of an orderly run: inside the program, `NEXTREG` as `START` left it, `IP` at a thread
      cell whenever control is at `NEXT`, and every `JMP` goes to `NEXT`, to the label just `SET`, or
      to the routine of the word that `NEXT` has fetched. */
  ghost predicate Orderly(asm: Assembly, p: Program, vm: Vm) {
    && 0 <= vm.pc < |asm.program|
    && !vm.halted
    && Read(vm.regs, Reg(NEXTREG)) == Address(asm, NEXT)
    && (vm.pc == Address(asm, NEXT) ==> AtThreadCell(p, vm))
    && Step(asm.program, vm).Ok?
    && var next := Step(asm.program, vm).value;
       JumpsInOrder(asm, vm.pc, next.pc) || EntersWord(asm, p, vm, next.pc)
  }

  /** The next `n` steps are orderly. */
  ghost predicate Runs(asm: Assembly, p: Program, vm: Vm, n: nat)
    decreases n
  {
    n == 0 || (Orderly(asm, p, vm) && Runs(asm, p, Step(asm.program, vm).value, n - 1))
  }

  lemma {:induction false} WalksRuns(asm: Assembly, p: Program, vm: Vm, n: nat)
    requires Walks(asm, vm, n)
    ensures Runs(asm, p, vm, n)
    decreases n
  {
    hide AtThreadCell, Step, JumpsInOrder;
    if n > 0 {
      WalksRuns(asm, p, Step(asm.program, vm).value, n - 1);
    }
  }

  lemma {:induction false} RunsAdd(asm: Assembly, p: Program, vm: Vm, n: nat, k: nat)
    requires Steps(asm.program, vm, n).Ok?
    requires Runs(asm, p, vm, n) && Runs(asm, p, Steps(asm.program, vm, n).value, k)
    ensures Runs(asm, p, vm, n + k)
    decreases n
  {
    hide Orderly, Step;
    if n > 0 {
      assert Steps(asm.program, vm, n) == Steps(asm.program, Step(asm.program, vm).value, n - 1);
      RunsAdd(asm, p, Step(asm.program, vm).value, n - 1, k);
    }
  }

  lemma {:induction false} RunsLess(asm: Assembly, p: Program, vm: Vm, n: nat, k: nat)
    requires Steps(asm.program, vm, n).Ok? && Runs(asm, p, vm, n) && k <= n
    ensures Steps(asm.program, vm, k).Ok? && Runs(asm, p, vm, k)
    decreases k
  {
    hide Orderly, Step;
    if k > 0 {
      RunsLess(asm, p, Step(asm.program, vm).value, n - 1, k - 1);
    }
  }

  /** There are `n` more steps, and they are orderly. */
  ghost predicate Lasts(asm: Assembly, p: Program, vm: Vm, n: nat) {
    Steps(asm.program, vm, n).Ok? && Runs(asm, p, vm, n)
  }

  /** After exactly `n` orderly steps the next one is refused. */
  ghost predicate Fails(asm: Assembly, p: Program, vm: Vm, n: nat, fault: Fault) {
    Lasts(asm, p, vm, n) && Raises(asm.program, Steps(asm.program, vm, n).value, fault)
  }

  /** However many steps, there are that many, and they are orderly. */
  ghost predicate NeverEnds(asm: Assembly, p: Program, vm: Vm) { forall n: nat :: Lasts(asm, p, vm, n) }

  /** In exactly `n` orderly steps the machine has halted on `d`; only a `BYE` of the outermost thread
      leaves a return stack worth naming. */
  ghost predicate Halts(asm: Assembly, p: Program, vm: Vm, n: nat, d: Data, nested: bool, outer: Stack) {
    && Steps(asm.program, vm, n).Ok? && Runs(asm, p, vm, n)
    && var end := Steps(asm.program, vm, n).value;
       && end.halted
       && end.d == d.(rs := end.d.rs)
       && (!nested ==> end.d == Under(d, outer))
  }

  /** In exactly `n` orderly steps the machine is back at `NEXT` in good order. */
  ghost predicate Continues(asm: Assembly, p: Program, vm: Vm, n: nat, ip: int, d: Data, outer: Stack) {
    && Steps(asm.program, vm, n).Ok? && Runs(asm, p, vm, n)
    && Threaded(asm, p, Steps(asm.program, vm, n).value, ip, d, outer)
  }

  /** A routine entered in an orderly run keeps it orderly. */
  lemma Reached(asm: Assembly, p: Program, vm: Vm, n: nat, k: nat)
    requires Steps(asm.program, vm, n).Ok? && Runs(asm, p, vm, n)
    requires Walks(asm, Steps(asm.program, vm, n).value, k)
    ensures Runs(asm, p, vm, n + k)
    ensures Steps(asm.program, vm, n + k) == Steps(asm.program, Steps(asm.program, vm, n).value, k)
  {
    hide Runs, Walks;
    WalksRuns(asm, p, Steps(asm.program, vm, n).value, k);
    RunsAdd(asm, p, vm, n, k);
    StepsAdd(asm.program, vm, n, k);
  }

  lemma ContinuesLater(
    asm: Assembly, p: Program, vm: Vm, n: nat, k: nat, ip: int, d: Data, outer: Stack)
    requires Lasts(asm, p, vm, n)
    requires Continues(asm, p, Steps(asm.program, vm, n).value, k, ip, d, outer)
    ensures Continues(asm, p, vm, n + k, ip, d, outer)
  {
    hide Threaded, Runs;
    StepsAdd(asm.program, vm, n, k);
    RunsAdd(asm, p, vm, n, k);
  }

  lemma HaltsLater(asm: Assembly, p: Program, vm: Vm, n: nat, k: nat, d: Data, nested: bool, outer: Stack)
    requires Lasts(asm, p, vm, n)
    requires Halts(asm, p, Steps(asm.program, vm, n).value, k, d, nested, outer)
    ensures Halts(asm, p, vm, n + k, d, nested, outer)
  {
    hide Runs;
    StepsAdd(asm.program, vm, n, k);
    RunsAdd(asm, p, vm, n, k);
  }

  lemma LastsLater(asm: Assembly, p: Program, vm: Vm, n: nat, k: nat)
    requires Lasts(asm, p, vm, n) && Lasts(asm, p, Steps(asm.program, vm, n).value, k)
    ensures Lasts(asm, p, vm, n + k)
    ensures Steps(asm.program, vm, n + k) == Steps(asm.program, Steps(asm.program, vm, n).value, k)
  {
    hide Runs;
    StepsAdd(asm.program, vm, n, k);
    RunsAdd(asm, p, vm, n, k);
  }

  lemma FailsLater(asm: Assembly, p: Program, vm: Vm, n: nat, k: nat, fault: Fault)
    requires Lasts(asm, p, vm, n) && Fails(asm, p, Steps(asm.program, vm, n).value, k, fault)
    ensures Fails(asm, p, vm, n + k, fault)
  {
    hide Steps, Lasts, Raises;
    LastsLater(asm, p, vm, n, k);
    hide *;
  }

  lemma NeverEndsLater(asm: Assembly, p: Program, vm: Vm, n: nat)
    requires Lasts(asm, p, vm, n) && NeverEnds(asm, p, Steps(asm.program, vm, n).value)
    ensures NeverEnds(asm, p, vm)
  {
    hide Steps, Runs;
    forall m: nat
      ensures Lasts(asm, p, vm, m)
    {
      if m < n {
        RunsLess(asm, p, vm, n, m);
      } else {
        assert Lasts(asm, p, Steps(asm.program, vm, n).value, m - n);
        LastsLater(asm, p, vm, n, m - n);
      }
    }
  }

  // ---- what the dictionary holds ----

  lemma HoldsIntact(asm: Assembly, p: Program, low: seq<int>, low': seq<int>)
    requires Built(asm, p) && Holds(p, low) && Intact(p.context.top, low, low')
    ensures Holds(p, low')
  {
    hide Sited, Installed;
    var es := p.context.dict;
    EndAtLeast(es);
    forall i | 0 <= i < |es|
      ensures EntryIn(low', es, i)
    {
      assert EntryIn(low, es, i);
      WithinEnd(es, i);
      CellsIntact(p.context.top, low, low', End(es[..i]), es[i].before);
      EntryIntact(p.context.top, low, low', NameField(es, i), es[i], Link(es, i));
    }
  }

  lemma CellsIntact(top: int, low: seq<int>, low': seq<int>, at: int, cells: seq<int>)
    requires CellsAt(low, at, cells) && Intact(top, low, low') && at + |cells| <= top
    ensures CellsAt(low', at, cells)
  {
    assert low'[at..at + |cells|] == low[at..at + |cells|];
  }

  lemma EntryIntact(top: int, low: seq<int>, low': seq<int>, nf: int, e: WordEntry, link: int)
    requires EntryAt(low, nf, e, link) && Intact(top, low, low') && nf + 2 + |e.name| + |e.thread| <= top
    ensures EntryAt(low', nf, e, link)
  {
  }

  /** The code field and the thread of word `i`, cell by cell. */
  lemma WordCells(asm: Assembly, p: Program, low: seq<int>, i: nat)
    requires Built(asm, p) && Holds(p, low) && i < |p.words|
    ensures var cfa := Cfa(p.context.dict, i);
      && 0 <= cfa && cfa + 1 + |p.context.dict[i].thread| <= p.context.top <= |low|
      && low[cfa] == FieldOf(asm, p.words[i])
      && (forall j :: 0 <= j < |p.context.dict[i].thread| ==> low[cfa + 1 + j] == p.context.dict[i].thread[j])
  {
    hide Sited;
    var es := p.context.dict;
    assert p.words[i] == p.words[i];
    WithinEnd(es, i);
    assert EntryIn(low, es, i);
  }

  // ---- one turn of the inner interpreter ----

  /** `NEXT` reaches the routine of the word the thread names, with `W` at its code field. */
  lemma NextReaches(asm: Assembly, p: Program, vm: Vm, ip: int, d: Data, outer: Stack, i: nat)
    requires Threaded(asm, p, vm, ip, d, outer) && i < |p.words| && Names(p, d, ip, i)
    ensures Lasts(asm, p, vm, 4)
    ensures var vm1 := Steps(asm.program, vm, 4).value;
      && Ready(asm, vm1, FieldOf(asm, p.words[i]), ip + 1, Under(d, outer))
      && Read(vm1.regs, Reg(W)) == Cfa(p.context.dict, i)
  {
    WordCells(asm, p, d.low, i);
    assert p.words[i] == p.words[i];
    assert Installed(asm, p, i);
    hide Holds, Chain, Cfa, FormsAt, BlockSits, RegistersApart, Steps, Sited, FieldOf, Runs, OnThread, Compiled;
    SitedCore(asm);
    S.NextRuns(asm, vm, ip, Under(d, outer));
    NextOrderly(asm, p, vm, ip, Under(d, outer), i);
  }

  /** The four instructions of `NEXT`, one by one. */
  lemma NextOrderly(asm: Assembly, p: Program, vm: Vm, ip: int, d: Data, i: nat)
    requires RegistersApart(asm) && Lbl(NEXT) in asm.labels && FormsAt(asm, NEXT_BLOCK, Address(asm, NEXT))
    requires Ready(asm, vm, Address(asm, NEXT), ip, d) && i < |p.context.dict|
    requires Names(p, d, ip, i) && InBlock(d, d.low[ip]) && d.low[d.low[ip]] == p.context.dict[i].field
    ensures Runs(asm, p, vm, 4)
  {
    hide Cfa, Runs, LineAt, FormsAt, Calm, Walks, OnThread, Steps;
    var vm1 := vm.(pc := vm.pc + 1, regs := Bind(vm.regs, Reg(W), d.low[ip]));
    NextLoads(asm, p, vm, ip, d, i);
    NextWalks(asm, vm1);
    var vm3 := Steps(asm.program, vm1, 2).value;
    NextJumps(asm, p, vm3, i);
    WalksRuns(asm, p, vm1, 2);
    RunsAdd(asm, p, vm1, 2, 1);
    OneMore(asm, p, vm, vm1, 3);
  }

  lemma OneMore(asm: Assembly, p: Program, vm: Vm, vm1: Vm, n: nat)
    requires Orderly(asm, p, vm) && Step(asm.program, vm) == Ok(vm1) && Runs(asm, p, vm1, n)
    ensures Runs(asm, p, vm, n + 1)
  {
  }

  /** `LOAD W, IP`. */
  lemma NextLoads(asm: Assembly, p: Program, vm: Vm, ip: int, d: Data, i: nat)
    requires RegistersApart(asm) && FormsAt(asm, NEXT_BLOCK, Address(asm, NEXT))
    requires Ready(asm, vm, Address(asm, NEXT), ip, d) && i < |p.context.dict| && Names(p, d, ip, i)
    ensures Orderly(asm, p, vm)
    ensures Step(asm.program, vm) == Ok(vm.(pc := vm.pc + 1, regs := Bind(vm.regs, Reg(W), d.low[ip])))
    ensures FormsAt(asm, NEXT_BLOCK[2..], vm.pc + 1)
  {
    hide Cfa, OnThread, FormsAt, LineAt, Raises, JumpsInOrder, Step;
    FirstForm(asm, NEXT_BLOCK, vm.pc);
    FirstForm(asm, NEXT_BLOCK[1..], vm.pc);
    var line := Text(Two(LOAD, W, IP));
    RealLineRuns(asm, line, vm);
    OpcodeAt(asm, line, vm.pc);
    NoJump(asm, vm.pc, vm.pc + 1);
    assert NEXT_BLOCK[1..][1..] == NEXT_BLOCK[2..];
  }

  /** `ADD IP, 1`. */
  lemma NextAdvances(asm: Assembly, vm: Vm)
    requires RegistersApart(asm) && FormsAt(asm, NEXT_BLOCK[2..], vm.pc) && Ordered(asm, vm, None)
    ensures var vm1 := vm.(pc := vm.pc + 1, regs := Bind(vm.regs, Reg(IP), Read(vm.regs, Reg(IP)) + 1));
      && Steps(asm.program, vm, 1) == Ok(vm1) && Walks(asm, vm, 1) && Ordered(asm, vm1, None)
      && FormsAt(asm, NEXT_BLOCK[3..], vm1.pc)
  {
    var vm1 := vm.(pc := vm.pc + 1, regs := Bind(vm.regs, Reg(IP), Read(vm.regs, Reg(IP)) + 1));
    assert NEXT_BLOCK[2..][0] == WithInt(ADD, IP, 1) && NEXT_BLOCK[2..][1..] == NEXT_BLOCK[3..];
    hide Ordered, FormsAt, Walks, Steps;
    LineFalls(asm, NEXT_BLOCK[2..], vm, vm1);
  }

  /** `LOAD XT, W`. */
  lemma NextFetches(asm: Assembly, vm: Vm)
    requires RegistersApart(asm) && FormsAt(asm, NEXT_BLOCK[3..], vm.pc) && Ordered(asm, vm, None)
    requires InBlock(vm.d, Read(vm.regs, Reg(W)))
    ensures var vm1 := vm.(pc := vm.pc + 1, regs := Bind(vm.regs, Reg(XT), vm.d.low[Read(vm.regs, Reg(W))]));
      && Steps(asm.program, vm, 1) == Ok(vm1) && Walks(asm, vm, 1) && Ordered(asm, vm1, None)
      && FormsAt(asm, NEXT_BLOCK[4..], vm1.pc)
  {
    var vm1 := vm.(pc := vm.pc + 1, regs := Bind(vm.regs, Reg(XT), vm.d.low[Read(vm.regs, Reg(W))]));
    assert NEXT_BLOCK[3..][0] == Two(LOAD, XT, W) && NEXT_BLOCK[3..][1..] == NEXT_BLOCK[4..];
    hide Ordered, FormsAt, Walks, Steps;
    LineFalls(asm, NEXT_BLOCK[3..], vm, vm1);
  }

  /** `NEXT` between its first step and its last, from a code field address in `W`. */
  lemma NextWalks(asm: Assembly, vm: Vm)
    requires RegistersApart(asm) && FormsAt(asm, NEXT_BLOCK[2..], vm.pc)
    requires Ordered(asm, vm, None) && InBlock(vm.d, Read(vm.regs, Reg(W)))
    ensures Steps(asm.program, vm, 2).Ok? && Walks(asm, vm, 2)
    ensures var vm1 := Steps(asm.program, vm, 2).value;
      && FormsAt(asm, NEXT_BLOCK[4..], vm1.pc) && Ordered(asm, vm1, None) && vm1.pc == vm.pc + 2
      && Read(vm1.regs, Reg(W)) == Read(vm.regs, Reg(W))
      && Read(vm1.regs, Reg(XT)) == vm.d.low[Read(vm.regs, Reg(W))]
  {
    hide Walks, FormsAt, Ordered, Steps;
    NextAdvances(asm, vm);
    var vm1 := Steps(asm.program, vm, 1).value;
    NextFetches(asm, vm1);
    WalksAdd(asm, vm, 1, 1);
  }

  /** `JMP XT`. */
  lemma NextJumps(asm: Assembly, p: Program, vm: Vm, i: nat)
    requires FormsAt(asm, NEXT_BLOCK[4..], vm.pc) && Ordered(asm, vm, None) && vm.pc == Address(asm, NEXT) + 3
    requires i < |p.context.dict| && Read(vm.regs, Reg(W)) == Cfa(p.context.dict, i)
    requires Read(vm.regs, Reg(XT)) == p.context.dict[i].field
    ensures Runs(asm, p, vm, 1)
  {
    hide Cfa;
    FirstForm(asm, NEXT_BLOCK[4..], vm.pc);
    RealLineRuns(asm, Text(One(JMP, XT)), vm);
    OpcodeAt(asm, Text(One(JMP, XT)), vm.pc);
    hide LineAt, JumpsInOrder, AtThreadCell, Step;
    var vm1 := Step(asm.program, vm).value;
    assert EntersWord(asm, p, vm, vm1.pc);
    assert Runs(asm, p, vm1, 0);
  }

  lemma LineFalls(asm: Assembly, forms: seq<Form>, vm: Vm, vm1: Vm)
    requires FormsAt(asm, forms, vm.pc) && forms != [] && FormNeat(forms[0], None) && Ordered(asm, vm, None)
    requires Size(Text(forms[0])) == 1 && RunLine(Text(forms[0]), asm.labels, vm) == Falls(vm1)
    ensures Steps(asm.program, vm, 1) == Ok(vm1) && Walks(asm, vm, 1) && Ordered(asm, vm1, None)
    ensures FormsAt(asm, forms[1..], vm1.pc)
  {
    hide LineAt, RunLine, Walks, Settled, FormsAt, Steps;
    FirstForm(asm, forms, vm.pc);
    LineRuns(asm, Text(forms[0]), vm);
    LineWalks(asm, forms[0], vm, None);
  }

  lemma SitedCore(asm: Assembly)
    requires Sited(asm)
    ensures RegistersApart(asm)
    ensures Lbl(NEXT) in asm.labels && FormsAt(asm, NEXT_BLOCK, Address(asm, NEXT))
    ensures BlockSits(asm, ENTER_BLOCK, Address(asm, ENTER)) && FormsAt(asm, START_BLOCK, 0)
  {
  }

  /** A routine entered after `n` orderly steps comes back after `k` more. */
  lemma Resumes(asm: Assembly, p: Program, vm: Vm, n: nat, k: nat, ip: int, d: Data, outer: Stack)
    requires Built(asm, p) && Holds(p, d.low) && Steps(asm.program, vm, n).Ok? && Runs(asm, p, vm, n)
    requires Returns(asm, Steps(asm.program, vm, n).value, k, ip, Under(d, outer))
    requires Depth(d.ds) <= DATA_STACK_SIZE && Depth(d.rs) + Depth(outer) <= RETURN_STACK_SIZE
    ensures Continues(asm, p, vm, n + k, ip, d, outer)
  {
    hide Built, Holds, Steps, Depth, Under, Runs, Walks;
    Reached(asm, p, vm, n, k);
  }

  lemma CodeWordCalled(asm: Assembly, p: Program, vm: Vm, ip: int, d: Data, outer: Stack, i: nat)
    requires Threaded(asm, p, vm, ip, d, outer) && i < |p.words| && p.words[i].CodeWord? && Names(p, d, ip, i)
    ensures Lasts(asm, p, vm, 4)
    ensures Calling(asm, Steps(asm.program, vm, 4).value, p.words[i].prim, ip + 1, d, outer)
  {
    hide Sited, Installed, Holds, Names, Steps, Runs, Depth, Under, Ready;
    NextReaches(asm, p, vm, ip, d, outer, i);
  }

  /** A CODE word that is refused something. */
  lemma CodeWordFails(asm: Assembly, p: Program, vm: Vm, ip: int, d: Data, outer: Stack, i: nat, fault: Fault)
    requires Threaded(asm, p, vm, ip, d, outer) && i < |p.words| && p.words[i].CodeWord? && Names(p, d, ip, i)
    requires Meaning(p.context, p.words[i].prim, d, Depth(outer)).None?
    requires TroubleOf(p.words[i].prim, d, Depth(outer)) == Hits(fault)
    ensures Fails(asm, p, vm, 4 + TroubleCost(p.context, p.words[i].prim, d), fault)
  {
    hide Sited, Installed, Chain, Names, Steps, Runs, Depth, Under, Meaning, TroubleOf, TroubleCost, Calling, Ready, Raises;
    var prim := p.words[i].prim;
    CodeWordCalled(asm, p, vm, ip, d, outer, i);
    PrimitiveStumbles(asm, p.context, Steps(asm.program, vm, 4).value, prim, ip + 1, d, outer);
    StumblesFails(asm, p, vm, 4, TroubleCost(p.context, prim, d), fault);
  }

  lemma StumblesFails(asm: Assembly, p: Program, vm: Vm, n: nat, k: nat, fault: Fault)
    requires Lasts(asm, p, vm, n) && Stumbles(asm, Steps(asm.program, vm, n).value, k, fault)
    ensures Fails(asm, p, vm, n + k, fault)
  {
    hide Steps, Runs, Walks, Raises;
    Reached(asm, p, vm, n, k);
  }

  /** A `*` that never ends. */
  lemma MulNeverEnds(asm: Assembly, p: Program, vm: Vm, ip: int, d: Data, outer: Stack, i: nat)
    requires Threaded(asm, p, vm, ip, d, outer) && i < |p.words| && IsPrim(p, i, MUL) && Names(p, d, ip, i)
    requires Depth(d.ds) >= 2 && Meaning(p.context, MUL, d, Depth(outer)).None?
    ensures NeverEnds(asm, p, vm)
  {
    hide Sited, Installed, Chain, Names, Steps, Runs, Depth, Under, Meaning, Calling, Ready, Walks, Threaded;
    CodeWordCalled(asm, p, vm, ip, d, outer, i);
    var vm1 := Steps(asm.program, vm, 4).value;
    forall n: nat
      ensures Lasts(asm, p, vm, n)
    {
      if n < 4 {
        RunsLess(asm, p, vm, 4, n);
      } else {
        MulForever(asm, p.context, vm1, ip + 1, d, outer, n - 4);
        Reached(asm, p, vm, 4, n - 4);
      }
    }
  }

  /** A CODE word with a meaning. */
  lemma CodeWordRuns(asm: Assembly, p: Program, vm: Vm, ip: int, d: Data, outer: Stack, i: nat, d': Data)
    requires Threaded(asm, p, vm, ip, d, outer) && i < |p.words| && p.words[i].CodeWord?
    requires Names(p, d, ip, i)
    requires Meaning(p.context, p.words[i].prim, d, Depth(outer)) == Some(d')
    ensures Continues(asm, p, vm, 4 + RoutineCost(p.context, p.words[i].prim, d), ip + 1, d', outer)
  {
    hide Sited, Installed, Chain, Cfa, Steps, Runs, Depth, Under, Meaning, RoutineCost, Intact, Calling, Ready, Returns;
    var prim := p.words[i].prim;
    CodeWordCalled(asm, p, vm, ip, d, outer, i);
    PrimitiveReturns(asm, p.context, Steps(asm.program, vm, 4).value, prim, ip + 1, d, outer);
    MeaningKeeps(p.context, prim, d, Depth(outer));
    HoldsIntact(asm, p, d.low, d'.low);
    Resumes(asm, p, vm, 4, RoutineCost(p.context, prim, d), ip + 1, d', outer);
  }

  /** Calling a colon word: nine steps into its thread, the way back on the return stack. */
  lemma ColonWordEntered(asm: Assembly, p: Program, vm: Vm, ip: int, d: Data, outer: Stack, i: nat)
    requires Threaded(asm, p, vm, ip, d, outer) && i < |p.words| && p.words[i].ColonWord?
    requires Names(p, d, ip, i)
    requires Depth(outer) + Depth(d.rs) < RETURN_STACK_SIZE
    ensures Continues(asm, p, vm, 9, Cfa(p.context.dict, i) + 1, d.(rs := Empty), Push(ip + 1, Over(d.rs, outer)))
  {
    hide Steps, Runs, Sited, Installed, Chain, Names, Cfa, BlockSits, RegistersApart, Returns;
    NextReaches(asm, p, vm, ip, d, outer, i);
    var vm1 := Steps(asm.program, vm, 4).value;
    DepthOver(d.rs, outer);
    SitedCore(asm);
    S.EnterReturns(asm, vm1, ip + 1, Under(d, outer));
    var back := Push(ip + 1, Over(d.rs, outer));
    assert Under(d, outer).(rs := back) == Under(d.(rs := Empty), back);
    Resumes(asm, p, vm, 4, 5, Cfa(p.context.dict, i) + 1, d.(rs := Empty), back);
  }

  /** `EXIT` with nothing left of the definition's own: back to the caller. */
  lemma ExitRuns(asm: Assembly, p: Program, vm: Vm, ip: int, d: Data, outer: Stack, i: nat)
    requires Threaded(asm, p, vm, ip, d, outer) && i < |p.words| && IsPrim(p, i, EXIT)
    requires Names(p, d, ip, i)
    requires d.rs.Empty? && outer.Push?
    ensures Continues(asm, p, vm, 6, outer.top, d, outer.rest)
  {
    hide Sited, Installed, Chain, Cfa, Steps, Runs, Returns, BlockSits, RegistersApart;
    CodeWordCalled(asm, p, vm, ip, d, outer, i);
    var vm1 := Steps(asm.program, vm, 4).value;
    Placement.TransferAt(asm, EXIT);
    assert Placement.TransferBlock(EXIT) == EXIT_BLOCK;
    S.ExitReturns(asm, vm1, ip + 1, Under(d, outer));
    Resumes(asm, p, vm, 4, 2, outer.top, d, outer.rest);
  }

  /** `LIT` pushes the cell after it and steps over it. */
  lemma LitRuns(asm: Assembly, p: Program, vm: Vm, ip: int, d: Data, outer: Stack, i: nat)
    requires Threaded(asm, p, vm, ip, d, outer) && i < |p.words| && IsPrim(p, i, LIT)
    requires Names(p, d, ip, i)
    requires InBlock(d, ip + 1) && Depth(d.ds) < DATA_STACK_SIZE
    ensures Continues(asm, p, vm, 8, ip + 2, d.(ds := Push(d.low[ip + 1], d.ds)), outer)
  {
    hide Sited, Installed, Chain, Cfa, Steps, Runs, Returns, BlockSits, RegistersApart;
    var d' := d.(ds := Push(d.low[ip + 1], d.ds));
    CodeWordCalled(asm, p, vm, ip, d, outer, i);
    var vm1 := Steps(asm.program, vm, 4).value;
    Placement.TransferAt(asm, LIT);
    assert Under(d', outer) == Under(d, outer).(ds := Push(d.low[ip + 1], d.ds));
    S.LitReturns(asm, vm1, ip + 1, Under(d, outer));
    Resumes(asm, p, vm, 4, 4, ip + 2, d', outer);
  }

  lemma ByeRuns(asm: Assembly, p: Program, vm: Vm, ip: int, d: Data, outer: Stack, i: nat)
    requires Threaded(asm, p, vm, ip, d, outer) && i < |p.words| && IsPrim(p, i, BYE)
    requires Names(p, d, ip, i)
    ensures Halts(asm, p, vm, 5, d, false, outer)
  {
    hide Sited, Installed, Chain, Cfa, Steps, Runs, Returns, BlockSits, RegistersApart;
    CodeWordCalled(asm, p, vm, ip, d, outer, i);
    var vm1 := Steps(asm.program, vm, 4).value;
    Placement.TransferAt(asm, BYE);
    assert Placement.TransferBlock(BYE) == BYE_BLOCK;
    S.ByeHalts(asm, vm1, ip + 1, Under(d, outer));
    Reached(asm, p, vm, 4, 1);
  }

  /** The control words where they are refused: `EXIT` with no way back, `LIT` with no room for the
      literal, a call with no room for the way back. */
  lemma ExitFails(asm: Assembly, p: Program, vm: Vm, ip: int, d: Data, i: nat)
    requires Threaded(asm, p, vm, ip, d, Empty) && i < |p.words| && IsPrim(p, i, EXIT) && Names(p, d, ip, i)
    requires d.rs.Empty?
    ensures Fails(asm, p, vm, 4, EmptyReturn)
  {
    hide Sited, Installed, Chain, Names, Steps, Runs, Stumbles, BlockSits, RegistersApart;
    CodeWordCalled(asm, p, vm, ip, d, Empty, i);
    Placement.TransferAt(asm, EXIT);
    S.ReturnRunsDry(asm, Steps(asm.program, vm, 4).value, EXIT_BLOCK, ip + 1, Under(d, Empty));
    StumblesFails(asm, p, vm, 4, 0, EmptyReturn);
  }

  lemma LitFails(asm: Assembly, p: Program, vm: Vm, ip: int, d: Data, outer: Stack, i: nat)
    requires Threaded(asm, p, vm, ip, d, outer) && i < |p.words| && IsPrim(p, i, LIT) && Names(p, d, ip, i)
    requires InBlock(d, ip + 1) && Depth(d.ds) >= DATA_STACK_SIZE
    ensures Fails(asm, p, vm, 5, FullData)
  {
    hide Sited, Installed, Chain, Names, Steps, Runs, Stumbles, BlockSits, RegistersApart;
    CodeWordCalled(asm, p, vm, ip, d, outer, i);
    Placement.TransferAt(asm, LIT);
    S.LitOverflows(asm, Steps(asm.program, vm, 4).value, ip + 1, Under(d, outer));
    StumblesFails(asm, p, vm, 4, 1, FullData);
  }

  lemma CallFails(asm: Assembly, p: Program, vm: Vm, ip: int, d: Data, outer: Stack, i: nat)
    requires Threaded(asm, p, vm, ip, d, outer) && i < |p.words| && p.words[i].ColonWord? && Names(p, d, ip, i)
    requires Depth(outer) + Depth(d.rs) >= RETURN_STACK_SIZE
    ensures Fails(asm, p, vm, 4, FullReturn)
  {
    hide Sited, Installed, Chain, Names, Steps, Runs, Stumbles, BlockSits, RegistersApart;
    NextReaches(asm, p, vm, ip, d, outer, i);
    DepthOver(d.rs, outer);
    SitedCore(asm);
    S.EnterOverflows(asm, Steps(asm.program, vm, 4).value, ip + 1, Under(d, outer));
    StumblesFails(asm, p, vm, 4, 0, FullReturn);
  }

  // ---- threads and words ----

  /** The cells from `base` on are the compiled `items`, and cells of a thread. */
  ghost predicate ThreadAt(p: Program, limit: nat, items: seq<ThreadItem>, low: seq<int>, base: int)
    requires Matched(p) && limit <= |p.words|
  {
    && 0 <= base && base + |items| <= p.context.top <= |low|
    && (forall j :: 0 <= j < |items| ==> CellOf(p, limit, items[j]) == Some(low[base + j]))
    && (forall a :: base <= a < base + |items| ==> OnThread(p, a))
  }

  /** What the machine does on an outcome that does not come back. */
  ghost predicate Ends(asm: Assembly, p: Program, vm: Vm, o: Outcome, outer: Stack)
    requires !o.Finished?
  {
    match o
    case Stopped(d, n, nested) => Halts(asm, p, vm, n, d, nested, outer)
    case Raised(fault, n) => Fails(asm, p, vm, n, fault)
    case Endless => NeverEnds(asm, p, vm)
    case Lost(n) => Lasts(asm, p, vm, n)
  }

  /** What the machine does on the outcome of a word called from the cell before `ip`. */
  ghost predicate Realises(asm: Assembly, p: Program, vm: Vm, o: Outcome, ip: int, outer: Stack) {
    if o.Finished? then Continues(asm, p, vm, o.cost, ip, o.d, outer) else Ends(asm, p, vm, o, outer)
  }

  /** What the machine does on the outcome of a thread: its exit goes where the cell on top of
      `outer` says. */
  ghost predicate Exits(asm: Assembly, p: Program, vm: Vm, o: Outcome, outer: Stack) {
    if o.Finished? then
      o.d.rs.Empty? && outer.Push? && Continues(asm, p, vm, o.cost, outer.top, o.d, outer.rest)
    else Ends(asm, p, vm, o, outer)
  }

  lemma ThreadIntact(p: Program, limit: nat, items: seq<ThreadItem>, low: seq<int>, low': seq<int>, base: int)
    requires Matched(p) && limit <= |p.words|
    requires ThreadAt(p, limit, items, low, base) && Intact(p.context.top, low, low')
    ensures ThreadAt(p, limit, items, low', base)
  {
    hide CellOf, OnThread;
  }

  lemma CompiledThread(asm: Assembly, p: Program, low: seq<int>, i: nat)
    requires Built(asm, p) && Holds(p, low) && i < |p.words| && p.words[i].ColonWord?
    ensures ThreadAt(p, i, ItemsOf(p.words[i].words), low, Cfa(p.context.dict, i) + 1)
  {
    hide CellOf, Chain, Sited, Cfa;
    WordCells(asm, p, low, i);
    assert p.words[i] == p.words[i];
    assert Installed(asm, p, i);
    var items := ItemsOf(p.words[i].words);
    var base := Cfa(p.context.dict, i) + 1;
    forall a | base <= a < base + |items|
      ensures OnThread(p, a)
    {
      assert InThread(p, i, a - base, a);
    }
  }

  lemma EndsLater(asm: Assembly, p: Program, vm: Vm, n: nat, o: Outcome, outer: Stack)
    requires !o.Finished? && Lasts(asm, p, vm, n) && Ends(asm, p, Steps(asm.program, vm, n).value, o, outer)
    ensures Ends(asm, p, vm, Delayed(n, o), outer)
  {
    hide Steps, Runs, Halts, Fails, NeverEnds;
    match o
    case Stopped(d, k, nested) => HaltsLater(asm, p, vm, n, k, d, nested, outer);
    case Raised(fault, k) => FailsLater(asm, p, vm, n, k, fault);
    case Endless => NeverEndsLater(asm, p, vm, n);
    case Lost(k) => LastsLater(asm, p, vm, n, k);
  }

  lemma ExitsLater(asm: Assembly, p: Program, vm: Vm, n: nat, o: Outcome, outer: Stack)
    requires Lasts(asm, p, vm, n)
    requires Exits(asm, p, Steps(asm.program, vm, n).value, o, outer)
    ensures Exits(asm, p, vm, Delayed(n, o), outer)
  {
    hide Steps, Lasts, Ends, Continues;
    if o.Finished? {
      ContinuesLater(asm, p, vm, n, o.cost, outer.top, o.d, outer.rest);
    } else {
      EndsLater(asm, p, vm, n, o, outer);
    }
  }

  /** The caller's return-stack cells come back into its own hands. */
  lemma Reframed(asm: Assembly, p: Program, vm: Vm, n: nat, ip: int, d: Data, rs: Stack, outer: Stack)
    requires Continues(asm, p, vm, n, ip, d, Over(rs, outer)) && d.rs.Empty?
    ensures Continues(asm, p, vm, n, ip, d.(rs := rs), outer)
  {
    hide Steps, Runs, Built, Holds, Ready;
    DepthOver(rs, outer);
    assert Under(d.(rs := rs), outer) == Under(d, Over(rs, outer));
  }

  lemma PrimRuns(asm: Assembly, p: Program, vm: Vm, i: nat, ip: int, d: Data, outer: Stack)
    requires Threaded(asm, p, vm, ip, d, outer) && i < |p.words| && p.words[i].CodeWord? && Names(p, d, ip, i)
    ensures Realises(asm, p, vm, EvalWord(p, i, d, Depth(outer)), ip + 1, outer)
  {
    hide Steps, Runs, Threaded, Meaning, Halts, Continues, Names, RoutineCost, Built, Holds, TroubleOf,
         TroubleCost, Fails, NeverEnds;
    Facts(asm, p, vm, ip, d, outer);
    var prim := p.words[i].prim;
    if prim == BYE {
      ByeRuns(asm, p, vm, ip, d, outer, i);
    } else if Meaning(p.context, prim, d, Depth(outer)).Some? {
      CodeWordRuns(asm, p, vm, ip, d, outer, i, Meaning(p.context, prim, d, Depth(outer)).value);
    } else {
      match TroubleOf(prim, d, Depth(outer))
      case Hits(fault) => CodeWordFails(asm, p, vm, ip, d, outer, i, fault);
      case Forever =>
        ForeverIs(prim, d, Depth(outer));
        MulNeverEnds(asm, p, vm, ip, d, outer, i);
      case Beyond => CodeWordCalled(asm, p, vm, ip, d, outer, i);
    }
  }

  lemma ForeverIs(prim: Prim, d: Data, depth: nat)
    requires TroubleOf(prim, d, depth).Forever?
    ensures prim == MUL && Depth(d.ds) >= 2
  {
    hide RunsDry, Counted;
  }

  lemma {:induction false} WordRuns(asm: Assembly, p: Program, vm: Vm, i: nat, ip: int, d: Data, outer: Stack)
    requires Threaded(asm, p, vm, ip, d, outer) && i < |p.words| && Names(p, d, ip, i)
    ensures Realises(asm, p, vm, EvalWord(p, i, d, Depth(outer)), ip + 1, outer)
    decreases i, 1, 0
  {
    Facts(asm, p, vm, ip, d, outer);
    if p.words[i].CodeWord? {
      hide *;
      PrimRuns(asm, p, vm, i, ip, d, outer);
    } else if Depth(outer) + Depth(d.rs) < RETURN_STACK_SIZE {
      hide *;
      ColonWordRuns(asm, p, vm, i, ip, d, outer);
    } else {
      CallFails(asm, p, vm, ip, d, outer, i);
      assert EvalWord(p, i, d, Depth(outer)) == Raised(FullReturn, 4);
      hide *;
    }
  }

  /** What being threaded amounts to, for those who need no more. */
  lemma Facts(asm: Assembly, p: Program, vm: Vm, ip: int, d: Data, outer: Stack)
    requires Threaded(asm, p, vm, ip, d, outer)
    ensures Built(asm, p) && Matched(p) && Holds(p, d.low) && p.context.top <= |d.low|
    ensures Lasts(asm, p, vm, 0)
  {
    hide Sited;
  }

  lemma {:induction false} ColonWordRuns(asm: Assembly, p: Program, vm: Vm, i: nat, ip: int, d: Data, outer: Stack)
    requires Threaded(asm, p, vm, ip, d, outer) && i < |p.words| && p.words[i].ColonWord? && Names(p, d, ip, i)
    requires Depth(outer) + Depth(d.rs) < RETURN_STACK_SIZE
    ensures Realises(asm, p, vm, EvalWord(p, i, d, Depth(outer)), ip + 1, outer)
    decreases i, 0, |p.words[i].words| + 2
  {
    hide Steps, Runs, Threaded, Halts, Fails, NeverEnds, Cfa, OnThread, EvalThread, Built, Holds, ThreadAt;
    Facts(asm, p, vm, ip, d, outer);
    var items := ItemsOf(p.words[i].words);
    var d1 := d.(rs := Empty);
    var back := Push(ip + 1, Over(d.rs, outer));
    DepthOver(d.rs, outer);
    assert Depth(back) == Depth(outer) + Depth(d.rs) + 1;
    ColonWordEntered(asm, p, vm, ip, d, outer, i);
    var vm1 := Steps(asm.program, vm, 9).value;
    CompiledThread(asm, p, d.low, i);
    ThreadRuns(asm, p, vm1, i, items, 0, Cfa(p.context.dict, i) + 1, d1, back);
    var o := EvalThread(p, i, items, 0, d1, Depth(back));
    ExitsLater(asm, p, vm, 9, o, back);
    match o
    case Finished(d', n) => Reframed(asm, p, vm, 9 + n, ip + 1, d', d.rs, outer);
    case Stopped(d', n, nested) => HaltsNested(asm, p, vm, 9 + n, d', nested, back, outer);
    case _ =>
  }

  lemma HaltsNested(asm: Assembly, p: Program, vm: Vm, n: nat, d: Data, nested: bool, back: Stack, outer: Stack)
    requires Halts(asm, p, vm, n, d, nested, back)
    ensures Halts(asm, p, vm, n, d, true, outer)
  {
  }

  lemma {:induction false} ThreadRuns(
    asm: Assembly, p: Program, vm: Vm, limit: nat, items: seq<ThreadItem>, j: nat, base: int, d: Data, outer: Stack)
    requires Threaded(asm, p, vm, base + j, d, outer)
    requires limit <= |p.words| && j <= |items| && ThreadAt(p, limit, items, d.low, base)
    ensures Exits(asm, p, vm, EvalThread(p, limit, items, j, d, Depth(outer)), outer)
    decreases limit, 0, |items| - j
  {
    hide Steps, Runs, Threaded, Halts, Fails, NeverEnds, Continues, Cfa, OnThread, Built, Holds, Lasts;
    Facts(asm, p, vm, base + j, d, outer);
    if j < |items| && items[j].WordReference? && Lookup(p.words[..limit], items[j].name).Some? {
      var r := Lookup(p.words[..limit], items[j].name).value;
      assert Names(p, d, base + j, r);
      hide Names;
      if IsPrim(p, r, EXIT) {
        ExitDone(asm, p, vm, limit, items, j, base, d, outer, r);
      } else if IsPrim(p, r, LIT) {
        LitContinues(asm, p, vm, limit, items, j, base, d, outer, r);
      } else {
        WordRuns(asm, p, vm, r, base + j, d, outer);
        CallContinues(asm, p, vm, limit, items, j, base, d, outer, r);
      }
    }
  }

  lemma {:induction false} LitContinues(
    asm: Assembly, p: Program, vm: Vm, limit: nat, items: seq<ThreadItem>, j: nat, base: int, d: Data, outer: Stack,
    r: nat)
    requires Threaded(asm, p, vm, base + j, d, outer)
    requires limit <= |p.words| && j < |items| && ThreadAt(p, limit, items, d.low, base)
    requires items[j].WordReference? && Lookup(p.words[..limit], items[j].name) == Some(r)
    requires IsPrim(p, r, LIT) && Names(p, d, base + j, r)
    ensures Exits(asm, p, vm, EvalThread(p, limit, items, j, d, Depth(outer)), outer)
    decreases limit, 0, |items| - j, 0
  {
    hide Steps, Runs, Threaded, Halts, Fails, NeverEnds, Continues, OnThread, Built, Holds, Lasts, Names;
    Facts(asm, p, vm, base + j, d, outer);
    if j + 1 == |items| {
      CodeWordCalled(asm, p, vm, base + j, d, outer, r);
    } else if Depth(d.ds) >= DATA_STACK_SIZE {
      LitFails(asm, p, vm, base + j, d, outer, r);
    } else {
      LitRuns(asm, p, vm, base + j, d, outer, r);
      var d1 := d.(ds := Push(d.low[base + j + 1], d.ds));
      ContinuesLasts(asm, p, vm, 8, base + j + 2, d1, outer);
      ThreadRuns(asm, p, Steps(asm.program, vm, 8).value, limit, items, j + 2, base, d1, outer);
      ExitsLater(asm, p, vm, 8, EvalThread(p, limit, items, j + 2, d1, Depth(outer)), outer);
    }
  }

  lemma ContinuesLasts(asm: Assembly, p: Program, vm: Vm, n: nat, ip: int, d: Data, outer: Stack)
    requires Continues(asm, p, vm, n, ip, d, outer)
    ensures Steps(asm.program, vm, n).Ok? && Lasts(asm, p, vm, n)
    ensures Threaded(asm, p, Steps(asm.program, vm, n).value, ip, d, outer)
  {
    hide Threaded, Runs;
  }

  lemma ExitDone(
    asm: Assembly, p: Program, vm: Vm, limit: nat, items: seq<ThreadItem>, j: nat, base: int, d: Data, outer: Stack,
    r: nat)
    requires Threaded(asm, p, vm, base + j, d, outer) && Matched(p)
    requires limit <= |p.words| && j < |items| && items[j].WordReference?
    requires Lookup(p.words[..limit], items[j].name) == Some(r) && IsPrim(p, r, EXIT) && Names(p, d, base + j, r)
    ensures Exits(asm, p, vm, EvalThread(p, limit, items, j, d, Depth(outer)), outer)
  {
    hide Steps, Runs, Threaded, Halts, Fails, Continues, Names, Lasts;
    if d.rs.Push? {
      CodeWordCalled(asm, p, vm, base + j, d, outer, r);
    } else if outer.Push? {
      ExitRuns(asm, p, vm, base + j, d, outer, r);
    } else {
      ExitFails(asm, p, vm, base + j, d, r);
    }
  }

  lemma {:induction false} CallContinues(
    asm: Assembly, p: Program, vm: Vm, limit: nat, items: seq<ThreadItem>, j: nat, base: int, d: Data, outer: Stack,
    r: nat)
    requires Threaded(asm, p, vm, base + j, d, outer)
    requires limit <= |p.words| && j < |items| && ThreadAt(p, limit, items, d.low, base)
    requires items[j].WordReference? && Lookup(p.words[..limit], items[j].name) == Some(r)
    requires !IsPrim(p, r, EXIT) && !IsPrim(p, r, LIT)
    requires Realises(asm, p, vm, EvalWord(p, r, d, Depth(outer)), base + j + 1, outer)
    ensures Exits(asm, p, vm, EvalThread(p, limit, items, j, d, Depth(outer)), outer)
    decreases limit, 0, |items| - j, 0
  {
    hide Steps, Runs, Threaded, Halts, Cfa, Built, Holds, EvalWord, ThreadAt, Ends, Lasts;
    Facts(asm, p, vm, base + j, d, outer);
    match EvalWord(p, r, d, Depth(outer))
    case Finished(d', n) =>
      EvalIntact(p, r, d, Depth(outer));
      ThreadIntact(p, limit, items, d.low, d'.low, base);
      ContinuesLasts(asm, p, vm, n, base + j + 1, d', outer);
      ThreadRuns(asm, p, Steps(asm.program, vm, n).value, limit, items, j + 1, base, d', outer);
      ExitsLater(asm, p, vm, n, EvalThread(p, limit, items, j + 1, d', Depth(outer)), outer);
    case _ =>
  }
}
