/** What control may do between two visits to `NEXT`, followed instruction by instruction. */
module Control {
  import opened Wrappers
  import opened Isa
  import opened Cpu
  import opened Stacks
  import opened Assembler
  import opened AbstractMachine
  import opened SourceMachine
  import opened Blocks
  import opened Forms
  import opened Symbolic

  /** Right before `pc` a `SET` has put label `l` into the register of the instruction at `pc`. */
  ghost predicate JustSet(asm: Assembly, pc: int, l: Label)
    requires 0 <= pc < |asm.program|
  {
    && pc >= 2 && asm.program[pc].a.Some? && Lbl(l) in asm.labels
    && asm.program[pc - 2..pc] == ZeroThenAdd(asm.program[pc].a.value, Imm(asm.labels[Lbl(l)]))
  }

  /** A `JMP` goes back to `NEXT`, or to the label that was just `SET`. */
  ghost predicate JumpsInOrder(asm: Assembly, pc: int, pc': int)
    requires 0 <= pc < |asm.program|
  {
    asm.program[pc].opcode == JMP ==>
      pc' == Address(asm, NEXT) || exists l: Label :: JustSet(asm, pc, l) && pc' == asm.labels[Lbl(l)]
  }

  /** Inside the program, not at `NEXT`, and `NEXTREG` as `START` left it. */
  ghost predicate Calm(asm: Assembly, vm: Vm) {
    && 0 <= vm.pc < |asm.program| && vm.pc != Address(asm, NEXT)
    && !vm.halted
    && Read(vm.regs, Reg(NEXTREG)) == Address(asm, NEXT)
  }

  /** The next `n` steps are calm and each of their `JMP`s is in order: `NEXT` is not visited before
      they are over. */
  ghost predicate Walks(asm: Assembly, vm: Vm, n: nat)
    decreases n
  {
    n == 0
    || (&& Calm(asm, vm)
        && Step(asm.program, vm).Ok?
        && JumpsInOrder(asm, vm.pc, Step(asm.program, vm).value.pc)
        && Walks(asm, Step(asm.program, vm).value, n - 1))
  }

  lemma {:induction false} WalksAdd(asm: Assembly, vm: Vm, n: nat, k: nat)
    requires Steps(asm.program, vm, n).Ok? && Walks(asm, vm, n) && Walks(asm, Steps(asm.program, vm, n).value, k)
    ensures Walks(asm, vm, n + k)
    ensures Steps(asm.program, vm, n + k) == Steps(asm.program, Steps(asm.program, vm, n).value, k)
    decreases n
  {
    hide Calm, JumpsInOrder, Step;
    if n > 0 {
      WalksAdd(asm, Step(asm.program, vm).value, n - 1, k);
    }
  }

  lemma NoWalk(asm: Assembly, vm: Vm)
    ensures Steps(asm.program, vm, 0) == Ok(vm) && Walks(asm, vm, 0)
  {
  }

  // ---- lines that keep control in order ----

  /** The register a line has just pointed at a label. */
  function SettledBy(form: Form): Option<Register> {
    if form.SetLabel? then Some(form.r) else None
  }

  /** A line leaves `NEXTREG` alone and only jumps through `NEXTREG` or through the register the line
      before it has `settled` on a label. */
  predicate FormNeat(form: Form, settled: Option<Register>) {
    match form
    case At(_) => true
    case Halts => true
    case One(opcode, r) => if opcode == JMP then r == NEXTREG || settled == Some(r) else r != NEXTREG
    case _ => form.r != NEXTREG
  }

  function SettledBefore(forms: seq<Form>, i: nat): Option<Register>
    requires i < |forms|
  {
    if i == 0 then None else SettledBy(forms[i - 1])
  }

  ghost predicate Neat(forms: seq<Form>) {
    forall i :: 0 <= i < |forms| ==> FormNeat(forms[i], SettledBefore(forms, i))
  }

  /** `forms` sit at `address`, past `NEXT`, and keep control in order. */
  ghost predicate BlockSits(asm: Assembly, forms: seq<Form>, address: int) {
    FormsAt(asm, forms, address) && Lbl(NEXT) in asm.labels && Address(asm, NEXT) < address && Neat(forms)
  }

  lemma SitsThere(asm: Assembly, forms: seq<Form>, address: int)
    requires BlockSits(asm, forms, address)
    ensures FormsAt(asm, forms, address)
  {
  }

  ghost predicate Settled(asm: Assembly, vm: Vm, settled: Option<Register>) {
    settled.Some? ==> exists l: Label :: SettledOn(asm, vm, settled.value, l)
  }

  /** The line before has put label `l` into `r`. */
  ghost predicate SettledOn(asm: Assembly, vm: Vm, r: Register, l: Label) {
    && Lbl(l) in asm.labels && Read(vm.regs, Reg(r)) == asm.labels[Lbl(l)]
    && 2 <= vm.pc <= |asm.program|
    && asm.program[vm.pc - 2..vm.pc] == ZeroThenAdd(Reg(r), Imm(asm.labels[Lbl(l)]))
  }

  /** Between the lines of a block. */
  ghost predicate Ordered(asm: Assembly, vm: Vm, settled: Option<Register>) {
    && !vm.halted
    && Address(asm, NEXT) < vm.pc
    && Read(vm.regs, Reg(NEXTREG)) == Address(asm, NEXT)
    && Lbl(NEXT) in asm.labels
    && Settled(asm, vm, settled)
  }

  /** The register a line writes. */
  function Writes(form: Form): Option<Register> {
    match form
    case One(opcode, r) => if opcode in {POP_D, POP_R, IN, INVERT} then Some(r) else None
    case Two(opcode, r, _) => if opcode == STORE then None else Some(r)
    case WithInt(_, r, _) => Some(r)
    case To(opcode, r, _) => if opcode == JZ || opcode == JS then None else Some(r)
    case SetInt(r, _) => Some(r)
    case SetLabel(r, _) => Some(r)
    case Copy(r, _) => Some(r)
    case _ => None
  }

  /** A line leaves every other register as it was. */
  lemma WritesOnly(form: Form, labels: Labels, vm: Vm)
    requires RunLine(Text(form), labels, vm).Falls? || RunLine(Text(form), labels, vm).Goes?
    ensures forall r: Register :: Writes(form) != Some(r) ==>
      Read(RunLine(Text(form), labels, vm).vm.regs, Reg(r)) == Read(vm.regs, Reg(r))
  {
    hide Arithmetic;
  }

  /** A line that falls through leaves `NEXTREG` as it was. */
  lemma KeepsNext(form: Form, labels: Labels, vm: Vm, settled: Option<Register>)
    requires FormNeat(form, settled) && RunLine(Text(form), labels, vm).Falls? && !vm.halted
    ensures var vm' := RunLine(Text(form), labels, vm).vm;
      Read(vm'.regs, Reg(NEXTREG)) == Read(vm.regs, Reg(NEXTREG)) && vm'.pc == vm.pc + Size(Text(form)) && !vm'.halted
  {
    hide Arithmetic;
    WritesOnly(form, labels, vm);
  }

  /** The instruction a line of one instruction becomes. */
  lemma OpcodeAt(asm: Assembly, line: Line, pc: int)
    requires LineAt(asm, line, pc) && line.mnemonic.Some? && line.mnemonic.value.Real?
    ensures 0 <= pc < |asm.program| && asm.program[pc].opcode == line.mnemonic.value.opcode
    ensures |line.operands| == 1 && line.operands[0].Ident? ==> asm.program[pc].a == Some(line.operands[0].name)
  {
    RealLineCode(line, pc, asm.labels);
    assert asm.program[pc..pc + 1][0] == asm.program[pc];
    FillKeeps(line, pc, asm.labels);
  }

  lemma FillKeeps(line: Line, address: int, labels: Labels)
    requires EmitLine(line, address, labels).Ok? && line.mnemonic.Some? && line.mnemonic.value.Real?
    ensures |EmitLine(line, address, labels).value| == 1
    ensures EmitLine(line, address, labels).value[0].opcode == line.mnemonic.value.opcode
  {
    hide OperandSpecs;
    var opcode := line.mnemonic.value.opcode;
    var blank := InstructionDto(opcode, None, None, None);
    if FillOperands(OperandSpecs(opcode), line.operands, labels, address, blank).Ok? {
      FillKeepsOpcode(OperandSpecs(opcode), line.operands, labels, address, blank);
    }
  }

  /** A `JMP` of an orderly line is in order. */
  lemma JumpInOrder(asm: Assembly, r: Register, vm: Vm, settled: Option<Register>)
    requires LineAt(asm, Text(One(JMP, r)), vm.pc) && FormNeat(One(JMP, r), settled) && Ordered(asm, vm, settled)
    ensures 0 <= vm.pc < |asm.program| && JumpsInOrder(asm, vm.pc, Read(vm.regs, Reg(r)))
  {
    OpcodeAt(asm, Text(One(JMP, r)), vm.pc);
    hide LineAt;
    if r != NEXTREG {
      var l: Label :| SettledOn(asm, vm, r, l);
      assert JustSet(asm, vm.pc, l);
    }
  }

  /** A line of one instruction. */
  lemma RealLineWalks(asm: Assembly, form: Form, vm: Vm, settled: Option<Register>)
    requires LineAt(asm, Text(form), vm.pc) && FormNeat(form, settled) && Ordered(asm, vm, settled)
    requires Text(form).mnemonic.Some? && Text(form).mnemonic.value.Real?
    ensures var flow := RunLine(Text(form), asm.labels, vm);
      && (flow.Falls? || flow.Goes? ==> Walks(asm, vm, 1))
      && (flow.Falls? ==> Ordered(asm, flow.vm, None))
  {
    RealLineRuns(asm, Text(form), vm);
    OpcodeAt(asm, Text(form), vm.pc);
    hide LineAt, Step, EmitLine, BinaryEffect, JumpsInOrder, SettledOn, Raises;
    var flow := RunLine(Text(form), asm.labels, vm);
    if flow.Falls? {
      KeepsNext(form, asm.labels, vm, settled);
    }
    if flow.Falls? || flow.Goes? {
      var vm1 := Step(asm.program, vm).value;
      assert Walks(asm, vm1, 0);
      if asm.program[vm.pc].opcode == JMP {
        JumpInOrder(asm, form.r, vm, settled);
        assert vm1.pc == Read(vm.regs, Reg(form.r));
      } else {
        NoJump(asm, vm.pc, vm1.pc);
      }
    }
  }

  lemma NoJump(asm: Assembly, pc: int, pc': int)
    requires 0 <= pc < |asm.program| && asm.program[pc].opcode != JMP
    ensures JumpsInOrder(asm, pc, pc')
  {
  }

  /** A line of two instructions. */
  lemma PairWalks(asm: Assembly, line: Line, vm: Vm)
    requires LineAt(asm, line, vm.pc) && (line.mnemonic == Some(Set) || line.mnemonic == Some(Mov))
    requires Ordered(asm, vm, None)
    requires Asks(line, asm.labels, vm.pc, vm.regs).Does? && Asks(line, asm.labels, vm.pc, vm.regs).effect.Write?
    requires Asks(line, asm.labels, vm.pc, vm.regs).effect.r != Reg(NEXTREG)
    ensures Walks(asm, vm, 2)
  {
    PairRuns(asm, line, vm);
    PairAsks(asm, line, vm.pc, vm.regs);
    PairOpcodes(asm, line, vm.pc);
    hide LineAt, Asks, EffectAt, Step;
    var vm1 := Step(asm.program, vm).value;
    NoJump(asm, vm.pc, vm1.pc);
    NoJump(asm, vm1.pc, Step(asm.program, vm1).value.pc);
    assert Calm(asm, vm1);
    assert Walks(asm, vm1, 1);
  }

  lemma PairOpcodes(asm: Assembly, line: Line, pc: int)
    requires LineAt(asm, line, pc) && (line.mnemonic == Some(Set) || line.mnemonic == Some(Mov))
    ensures 0 <= pc && pc + 2 <= |asm.program|
    ensures asm.program[pc].opcode == SUB && asm.program[pc + 1].opcode == ADD
  {
    var code := asm.program[pc..pc + 2];
    assert code[0] == asm.program[pc] && code[1] == asm.program[pc + 1];
  }

  lemma LineWalks(asm: Assembly, form: Form, vm: Vm, settled: Option<Register>)
    requires LineAt(asm, Text(form), vm.pc) && FormNeat(form, settled) && Ordered(asm, vm, settled)
    ensures var flow := RunLine(Text(form), asm.labels, vm);
      && (flow.Falls? ==> Walks(asm, vm, Size(Text(form))) && Ordered(asm, flow.vm, SettledBy(form)))
      && (flow.Goes? ==> Size(Text(form)) == 1 && Walks(asm, vm, 1))
  {
    var line := Text(form);
    var flow := RunLine(line, asm.labels, vm);
    if form.At? {
    } else if line.mnemonic.value.Real? {
      RealLineWalks(asm, form, vm, settled);
    } else {
      PairFalls(asm, form, vm);
      PairWalks(asm, line, vm);
      KeepsNext(form, asm.labels, vm, settled);
    }
  }

  /** A `SET` or `MOV` writes its register, and a `SET` to a label settles it. */
  lemma PairFalls(asm: Assembly, form: Form, vm: Vm)
    requires LineAt(asm, Text(form), vm.pc) && !vm.halted && (form.SetInt? || form.SetLabel? || form.Copy?)
    ensures Asks(Text(form), asm.labels, vm.pc, vm.regs).Does? && Asks(Text(form), asm.labels, vm.pc, vm.regs).effect.Write?
    ensures Asks(Text(form), asm.labels, vm.pc, vm.regs).effect.r == Reg(form.r)
    ensures RunLine(Text(form), asm.labels, vm).Falls?
    ensures Settled(asm, RunLine(Text(form), asm.labels, vm).vm, SettledBy(form))
  {
    PairRuns(asm, Text(form), vm);
    PairAsks(asm, Text(form), vm.pc, vm.regs);
    if form.SetLabel? {
      assert SettledOn(asm, RunLine(Text(form), asm.labels, vm).vm, form.r, form.l);
    }
  }

  ghost predicate NeatAfter(forms: seq<Form>, settled: Option<Register>) {
    forms == []
    || (FormNeat(forms[0], settled) && forall i :: 0 < i < |forms| ==> FormNeat(forms[i], SettledBefore(forms, i)))
  }

  /** Running a neat block walks. */
  lemma {:induction false} FormsWalk(
    asm: Assembly, forms: seq<Form>, vm: Vm, cost: nat, settled: Option<Register>)
    requires FormsAt(asm, forms, vm.pc) && NeatAfter(forms, settled) && Ordered(asm, vm, settled)
    ensures var r := RunForms(forms, asm.labels, Inside(vm, cost));
      !r.Stopped? ==> r.cost >= cost && Walks(asm, vm, r.cost - cost)
    decreases |forms|
  {
    hide RunLine, LineAt, Walks, FormNeat, NeatAfter, Steps, FormsAt, Settled, Raises;
    OneForm(forms, asm.labels, Inside(vm, cost));
    if forms == [] {
      NoWalk(asm, vm);
    } else {
      FirstForm(asm, forms, vm.pc);
      LineRuns(asm, Text(forms[0]), vm);
      NeatTail(forms, settled);
      LineWalks(asm, forms[0], vm, settled);
      var flow := RunLine(Text(forms[0]), asm.labels, vm);
      match flow
      case Falls(vm1) =>
        var size := Size(Text(forms[0]));
        FormsWalk(asm, forms[1..], vm1, cost + size, SettledBy(forms[0]));
        var r := RunForms(forms, asm.labels, Inside(vm, cost));
        if !r.Stopped? {
          WalksAdd(asm, vm, size, r.cost - cost - size);
        }
      case Goes(vm1) => GoneStays(Lines(forms[1..]), asm.labels, Gone(vm1, cost + 1));
      case Faults(fault) =>
        GoneStays(Lines(forms[1..]), asm.labels, Refused(vm, cost, fault));
        NoWalk(asm, vm);
      case Strays => GoneStays(Lines(forms[1..]), asm.labels, Stopped);
    }
  }

  lemma NeatTail(forms: seq<Form>, settled: Option<Register>)
    requires forms != [] && NeatAfter(forms, settled)
    ensures FormNeat(forms[0], settled) && NeatAfter(forms[1..], SettledBy(forms[0]))
  {
    hide FormNeat;
    var rest := forms[1..];
    forall i | 0 < i < |rest|
      ensures FormNeat(rest[i], SettledBefore(rest, i))
    {
      assert FormNeat(forms[i + 1], SettledBefore(forms, i + 1));
    }
    if rest != [] {
      assert FormNeat(forms[1], SettledBefore(forms, 1));
    }
  }

  lemma NeatWhole(forms: seq<Form>)
    requires Neat(forms)
    ensures NeatAfter(forms, None)
  {
    hide FormNeat;
    if forms != [] {
      assert FormNeat(forms[0], SettledBefore(forms, 0));
    }
  }

  lemma FirstForm(asm: Assembly, forms: seq<Form>, address: int)
    requires FormsAt(asm, forms, address) && forms != []
    ensures LineAt(asm, Text(forms[0]), address)
    ensures FormsAt(asm, forms[1..], address + Size(Text(forms[0])))
  {
    hide LineAt;
    PlacedCons(asm, Lines(forms), address);
    assert Lines(forms)[1..] == Lines(forms[1..]);
  }

  // ---- what a routine promises ----

  /** In exactly `n` steps, not visiting it before, the machine is back at `NEXT` with `ip` and `d`. */
  ghost predicate Returns(asm: Assembly, vm: Vm, n: nat, ip: int, d: Data) {
    && Steps(asm.program, vm, n).Ok? && Walks(asm, vm, n)
    && Ready(asm, Steps(asm.program, vm, n).value, Address(asm, NEXT), ip, d)
  }

  /** After exactly `n` steps, not visiting `NEXT`, the next one is refused. */
  ghost predicate Stumbles(asm: Assembly, vm: Vm, n: nat, fault: Fault) {
    && Steps(asm.program, vm, n).Ok? && Walks(asm, vm, n)
    && Raises(asm.program, Steps(asm.program, vm, n).value, fault)
  }

  lemma StumblesLater(asm: Assembly, vm: Vm, n: nat, k: nat, fault: Fault)
    requires Steps(asm.program, vm, n).Ok? && Walks(asm, vm, n)
    requires Stumbles(asm, Steps(asm.program, vm, n).value, k, fault)
    ensures Stumbles(asm, vm, n + k, fault)
  {
    hide Walks, Raises;
    WalksAdd(asm, vm, n, k);
  }

  lemma Later(asm: Assembly, vm: Vm, n: nat, k: nat, ip: int, d: Data)
    requires Steps(asm.program, vm, n).Ok? && Walks(asm, vm, n)
    requires Returns(asm, Steps(asm.program, vm, n).value, k, ip, d)
    ensures Returns(asm, vm, n + k, ip, d)
  {
    hide Walks;
    WalksAdd(asm, vm, n, k);
  }

  /** Everything needed to run the block at `vm.pc` by reading its lines. */
  lemma Execute(asm: Assembly, forms: seq<Form>, vm: Vm)
    requires BlockSits(asm, forms, vm.pc) && !vm.halted
    requires Read(vm.regs, Reg(NEXTREG)) == Address(asm, NEXT)
    ensures Unrolls(forms, asm.labels, Inside(vm, 0))
    ensures var r := RunForms(forms, asm.labels, Inside(vm, 0));
      && (!r.Stopped? ==> Steps(asm.program, vm, r.cost) == Ok(r.vm) && Walks(asm, vm, r.cost))
      && (r.Refused? ==> Raises(asm.program, r.vm, r.fault))
      && (r.Inside? ==> r.vm.pc == vm.pc + TotalSize(Lines(forms)) && !r.vm.halted)
  {
    hide Unrolls, FormsAt, Walks, RunForms, Raises;
    ExecuteLines(asm, forms, vm);
    NeatWhole(forms);
    FormsWalk(asm, forms, vm, 0, None);
  }

  /** A walk that is long enough is a walk of every shorter length. */
  lemma {:induction false} WalksLess(asm: Assembly, vm: Vm, n: nat, k: nat)
    requires Steps(asm.program, vm, n).Ok? && Walks(asm, vm, n) && k <= n
    ensures Steps(asm.program, vm, k).Ok? && Walks(asm, vm, k)
    decreases k
  {
    hide Calm, JumpsInOrder, Step;
    if k > 0 {
      WalksLess(asm, Step(asm.program, vm).value, n - 1, k - 1);
    }
  }

  // ---- operands that are not there ----

  /** `forms` open with `n` pops, behind a label. */
  predicate OpensWithPops(forms: seq<Form>, n: nat) {
    n < |forms| && forms[0].At? && forall i :: 1 <= i <= n ==> forms[i].One? && forms[i].opcode == POP_D
  }

  /** Popping what is there, line by line. */
  lemma {:induction false} PopsSoFar(forms: seq<Form>, n: nat, k: nat, labels: Labels, vm: Vm)
    requires OpensWithPops(forms, n) && k <= n && k <= Depth(vm.d.ds)
    ensures RunFirst(forms, k + 1, labels, Inside(vm, 0)).Inside?
    ensures var r := RunFirst(forms, k + 1, labels, Inside(vm, 0));
      r.cost == k && Depth(r.vm.d.ds) == Depth(vm.d.ds) - k
    decreases k
  {
    hide ThenForm;
    StackEquations(labels);
    AssignmentEquations(labels);
    if k == 0 {
      assert forms[0] == At(forms[0].l);
      assert RunFirst(forms, 0, labels, Inside(vm, 0)) == Inside(vm, 0);
    } else {
      PopsSoFar(forms, n, k - 1, labels, vm);
      assert forms[k] == One(POP_D, forms[k].r);
    }
  }

  /** A routine that wants `n` operands and finds fewer takes those there are and then stumbles. */
  lemma PopsRunDry(asm: Assembly, forms: seq<Form>, n: nat, vm: Vm)
    requires BlockSits(asm, forms, vm.pc) && !vm.halted && Read(vm.regs, Reg(NEXTREG)) == Address(asm, NEXT)
    requires OpensWithPops(forms, n) && Depth(vm.d.ds) < n
    ensures Stumbles(asm, vm, Depth(vm.d.ds), EmptyData)
  {
    hide ThenForm, Steps, Walks, Raises, BlockSits, RunForms, Unrolls;
    var k := Depth(vm.d.ds);
    PopsSoFar(forms, n, k, asm.labels, vm);
    FaultEquations(asm.labels);
    assert forms[k + 1] == One(POP_D, forms[k + 1].r);
    RefusedLasts(forms, k + 2, |forms|, asm.labels, Inside(vm, 0));
    RunsInOrder(forms, asm.labels, Inside(vm, 0));
    Execute(asm, forms, vm);
  }
}
