/** How the kernel's lines run, one equation per shape, and what a routine promises in terms of them. */
module Symbolic {
  import opened Wrappers
  import opened Isa
  import opened Cpu
  import opened Layout
  import opened Stacks
  import opened Assembler
  import opened AbstractMachine
  import opened SourceMachine
  import opened Blocks
  import opened Forms
  import Bits

  /** `forms` sit one after the other from `address` on. */
  ghost predicate FormsAt(asm: Assembly, forms: seq<Form>, address: int) { Placed(asm, Lines(forms), address) }

  lemma FormsSplit(asm: Assembly, xs: seq<Form>, ys: seq<Form>, address: int)
    requires FormsAt(asm, xs + ys, address)
    ensures FormsAt(asm, xs, address) && FormsAt(asm, ys, address + TotalSize(Lines(xs)))
  {
    assert Lines(xs + ys) == Lines(xs) + Lines(ys);
    PlacedSplit(asm, Lines(xs), Lines(ys), address);
  }

  /** The progress the flow of a line of one instruction makes. */
  function After(flow: Flow, vm: Vm, c: nat): Progress {
    match flow
    case Falls(vm') => Inside(vm', c + 1)
    case Goes(vm') => Gone(vm', c + 1)
    case Faults(fault) => Refused(vm, c, fault)
    case Strays => Stopped
  }

  /** A line that asks for a single effect, if any. */
  function Single(e: Option<Effect>, vm: Vm): Flow { Flowing(Requested(e, 1), vm) }

  function ThenForm(at: Progress, form: Form, labels: Labels): Progress { Then(at, Text(form), labels) }

  /** Every way of writing a line reaches the machine's one- and two-operand opcodes. */
  ghost predicate ShapeLines(labels: Labels) {
    && (forall vm: Vm, c: nat, op: Opcode, r: Register {:trigger ThenForm(Inside(vm, c), One(op, r), labels)} ::
          op != HALT ==>
          ThenForm(Inside(vm, c), One(op, r), labels) == After(Single(UnaryEffect(op, Reg(r), vm.regs), vm), vm, c))
    && (forall vm: Vm, c: nat, op: Opcode, r: Register, s: Register
          {:trigger ThenForm(Inside(vm, c), Two(op, r, s), labels)} ::
          op != HALT ==>
          ThenForm(Inside(vm, c), Two(op, r, s), labels)
          == After(Single(BinaryEffect(op, Reg(r), Ident(Reg(s)), labels, vm.pc, vm.regs), vm), vm, c))
    && (forall vm: Vm, c: nat, op: Opcode, r: Register, k: int
          {:trigger ThenForm(Inside(vm, c), WithInt(op, r, k), labels)} ::
          op != HALT ==>
          ThenForm(Inside(vm, c), WithInt(op, r, k), labels)
          == After(Single(BinaryEffect(op, Reg(r), Int(k), labels, vm.pc, vm.regs), vm), vm, c))
    && (forall vm: Vm, c: nat, op: Opcode, r: Register, l: Label
          {:trigger ThenForm(Inside(vm, c), To(op, r, l), labels)} ::
          op != HALT ==>
          ThenForm(Inside(vm, c), To(op, r, l), labels)
          == After(Single(BinaryEffect(op, Reg(r), Ident(Lbl(l)), labels, vm.pc, vm.regs), vm), vm, c))
  }

  lemma ShapesRun(labels: Labels)
    ensures ShapeLines(labels)
  {
    hide UnaryEffect, BinaryEffect, Carried;
  }

  /** How each effect carries a line. */
  lemma SinglesRun()
    ensures forall vm: Vm, r: Name, v: int {:trigger Single(Some(Write(r, v)), vm)} ::
      Single(Some(Write(r, v)), vm) == Falls(vm.(pc := vm.pc + 1, regs := Bind(vm.regs, r, v)))
    ensures forall vm: Vm, t: int {:trigger Single(Some(Jump(t)), vm)} :: Single(Some(Jump(t)), vm) == Goes(vm.(pc := t))
    ensures forall vm: Vm {:trigger Single(Some(Skip), vm)} :: Single(Some(Skip), vm) == Falls(vm.(pc := vm.pc + 1))
    ensures forall vm: Vm, r: Name, a: int {:trigger Single(Some(Load(r, a)), vm)} :: InBlock(vm.d, a) ==>
      Single(Some(Load(r, a)), vm) == Falls(vm.(pc := vm.pc + 1, regs := Bind(vm.regs, r, vm.d.low[a])))
    ensures forall vm: Vm, a: int, v: int {:trigger Single(Some(Store(a, v)), vm)} :: InBlock(vm.d, a) ==>
      Single(Some(Store(a, v)), vm) == Falls(vm.(pc := vm.pc + 1, d := vm.d.(low := vm.d.low[a := v])))
  {
  }

  /** How a line runs when it has something to act on: stacks, devices, inversion and jumps. */
  lemma StackEquations(labels: Labels)
    ensures forall vm: Vm, c: nat, r: Register {:trigger ThenForm(Inside(vm, c), One(PUSH_D, r), labels)} ::
        Depth(vm.d.ds) < DATA_STACK_SIZE ==>
        ThenForm(Inside(vm, c), One(PUSH_D, r), labels)
        == Inside(vm.(pc := vm.pc + 1, d := vm.d.(ds := Push(Read(vm.regs, Reg(r)), vm.d.ds))), c + 1)
    ensures forall vm: Vm, c: nat, r: Register {:trigger ThenForm(Inside(vm, c), One(PUSH_R, r), labels)} ::
        Depth(vm.d.rs) < RETURN_STACK_SIZE ==>
        ThenForm(Inside(vm, c), One(PUSH_R, r), labels)
        == Inside(vm.(pc := vm.pc + 1, d := vm.d.(rs := Push(Read(vm.regs, Reg(r)), vm.d.rs))), c + 1)
    ensures forall vm: Vm, c: nat, r: Register {:trigger ThenForm(Inside(vm, c), One(POP_D, r), labels)} ::
        vm.d.ds.Push? ==>
        ThenForm(Inside(vm, c), One(POP_D, r), labels)
        == Inside(vm.(pc := vm.pc + 1, regs := Bind(vm.regs, Reg(r), vm.d.ds.top), d := vm.d.(ds := vm.d.ds.rest)), c + 1)
    ensures forall vm: Vm, c: nat, r: Register {:trigger ThenForm(Inside(vm, c), One(POP_R, r), labels)} ::
        vm.d.rs.Push? ==>
        ThenForm(Inside(vm, c), One(POP_R, r), labels)
        == Inside(vm.(pc := vm.pc + 1, regs := Bind(vm.regs, Reg(r), vm.d.rs.top), d := vm.d.(rs := vm.d.rs.rest)), c + 1)
    ensures forall vm: Vm, c: nat, r: Register {:trigger ThenForm(Inside(vm, c), One(IN, r), labels)} ::
        vm.d.input != [] ==>
        ThenForm(Inside(vm, c), One(IN, r), labels)
        == Inside(vm.(pc := vm.pc + 1, regs := Bind(vm.regs, Reg(r), vm.d.input[0]), d := vm.d.(input := vm.d.input[1..])), c + 1)
    ensures forall vm: Vm, c: nat, r: Register {:trigger ThenForm(Inside(vm, c), One(OUT, r), labels)} ::
        ThenForm(Inside(vm, c), One(OUT, r), labels)
        == Inside(vm.(pc := vm.pc + 1, d := vm.d.(output := vm.d.output + [Read(vm.regs, Reg(r))])), c + 1)
    ensures forall vm: Vm, c: nat, r: Register {:trigger ThenForm(Inside(vm, c), One(INVERT, r), labels)} ::
        ThenForm(Inside(vm, c), One(INVERT, r), labels)
        == Inside(vm.(pc := vm.pc + 1, regs := Bind(vm.regs, Reg(r), Bits.Invert(Read(vm.regs, Reg(r))))), c + 1)
    ensures forall vm: Vm, c: nat, r: Register {:trigger ThenForm(Inside(vm, c), One(JMP, r), labels)} ::
        ThenForm(Inside(vm, c), One(JMP, r), labels)
        == Gone(vm.(pc := Read(vm.regs, Reg(r))), c + 1)
  {
    ShapesRun(labels);
    hide ThenForm, BinaryEffect;
  }

  /** How a line runs when it has something to act on: register arithmetic. */
  lemma ArithmeticEquations(labels: Labels)
    requires forall r: Register :: Reg(r) !in labels
    ensures forall vm: Vm, c: nat, r: Register, s: Register {:trigger ThenForm(Inside(vm, c), Two(ADD, r, s), labels)} ::
        ThenForm(Inside(vm, c), Two(ADD, r, s), labels)
        == Inside(vm.(pc := vm.pc + 1, regs := Bind(vm.regs, Reg(r), Read(vm.regs, Reg(r)) + Read(vm.regs, Reg(s)))), c + 1)
    ensures forall vm: Vm, c: nat, r: Register, s: Register {:trigger ThenForm(Inside(vm, c), Two(SUB, r, s), labels)} ::
        ThenForm(Inside(vm, c), Two(SUB, r, s), labels)
        == Inside(vm.(pc := vm.pc + 1, regs := Bind(vm.regs, Reg(r), Read(vm.regs, Reg(r)) - Read(vm.regs, Reg(s)))), c + 1)
    ensures forall vm: Vm, c: nat, r: Register, s: Register {:trigger ThenForm(Inside(vm, c), Two(AND, r, s), labels)} ::
        ThenForm(Inside(vm, c), Two(AND, r, s), labels)
        == Inside(vm.(pc := vm.pc + 1, regs := Bind(vm.regs, Reg(r), Bits.And(Read(vm.regs, Reg(r)), Read(vm.regs, Reg(s))))), c + 1)
    ensures forall vm: Vm, c: nat, r: Register, s: Register {:trigger ThenForm(Inside(vm, c), Two(OR, r, s), labels)} ::
        ThenForm(Inside(vm, c), Two(OR, r, s), labels)
        == Inside(vm.(pc := vm.pc + 1, regs := Bind(vm.regs, Reg(r), Bits.Or(Read(vm.regs, Reg(r)), Read(vm.regs, Reg(s))))), c + 1)
  {
    ShapesRun(labels);
    SinglesRun();
    hide Single, ThenForm, UnaryEffect, Bits.And, Bits.Or;
  }

  /** How a line runs when it has something to act on: arithmetic with a constant. */
  lemma ConstantEquations(labels: Labels)
    ensures forall vm: Vm, c: nat, r: Register, k: int {:trigger ThenForm(Inside(vm, c), WithInt(ADD, r, k), labels)} ::
        ThenForm(Inside(vm, c), WithInt(ADD, r, k), labels)
        == Inside(vm.(pc := vm.pc + 1, regs := Bind(vm.regs, Reg(r), Read(vm.regs, Reg(r)) + k)), c + 1)
    ensures forall vm: Vm, c: nat, r: Register, k: int {:trigger ThenForm(Inside(vm, c), WithInt(SUB, r, k), labels)} ::
        ThenForm(Inside(vm, c), WithInt(SUB, r, k), labels)
        == Inside(vm.(pc := vm.pc + 1, regs := Bind(vm.regs, Reg(r), Read(vm.regs, Reg(r)) - k)), c + 1)
  {
    ShapesRun(labels);
    SinglesRun();
    hide Single, ThenForm, UnaryEffect, Bits.And, Bits.Or;
  }

  /** How a line runs when it has something to act on: memory and branches. */
  lemma MemoryEquations(labels: Labels)
    ensures forall vm: Vm, c: nat, r: Register, s: Register {:trigger ThenForm(Inside(vm, c), Two(LOAD, r, s), labels)} ::
        InBlock(vm.d, Read(vm.regs, Reg(s))) ==>
        ThenForm(Inside(vm, c), Two(LOAD, r, s), labels)
        == Inside(vm.(pc := vm.pc + 1, regs := Bind(vm.regs, Reg(r), vm.d.low[Read(vm.regs, Reg(s))])), c + 1)
    ensures forall vm: Vm, c: nat, r: Register, s: Register {:trigger ThenForm(Inside(vm, c), Two(STORE, r, s), labels)} ::
        InBlock(vm.d, Read(vm.regs, Reg(r))) ==>
        ThenForm(Inside(vm, c), Two(STORE, r, s), labels)
        == Inside(vm.(pc := vm.pc + 1, d := vm.d.(low := vm.d.low[Read(vm.regs, Reg(r)) := Read(vm.regs, Reg(s))])), c + 1)
    ensures forall vm: Vm, c: nat, r: Register, l: Label {:trigger ThenForm(Inside(vm, c), To(JZ, r, l), labels)} ::
        Lbl(l) in labels ==>
        ThenForm(Inside(vm, c), To(JZ, r, l), labels)
        == if Read(vm.regs, Reg(r)) == 0 then Gone(vm.(pc := labels[Lbl(l)]), c + 1) else Inside(vm.(pc := vm.pc + 1), c + 1)
    ensures forall vm: Vm, c: nat, r: Register, l: Label {:trigger ThenForm(Inside(vm, c), To(JS, r, l), labels)} ::
        Lbl(l) in labels ==>
        ThenForm(Inside(vm, c), To(JS, r, l), labels)
        == if Read(vm.regs, Reg(r)) < 0 then Gone(vm.(pc := labels[Lbl(l)]), c + 1) else Inside(vm.(pc := vm.pc + 1), c + 1)
  {
    ShapesRun(labels);
    SinglesRun();
    hide Single, ThenForm, UnaryEffect;
  }

  /** How a line runs when it has something to act on: labels, constants, copies and halting. */
  lemma AssignmentEquations(labels: Labels)
    ensures forall vm: Vm, c: nat, l: Label {:trigger ThenForm(Inside(vm, c), At(l), labels)} ::
        ThenForm(Inside(vm, c), At(l), labels)
        == Inside(vm, c)
    ensures forall vm: Vm, c: nat, r: Register, k: int {:trigger ThenForm(Inside(vm, c), SetInt(r, k), labels)} ::
        ThenForm(Inside(vm, c), SetInt(r, k), labels)
        == Inside(vm.(pc := vm.pc + 2, regs := Bind(vm.regs, Reg(r), k)), c + 2)
    ensures forall vm: Vm, c: nat, r: Register, l: Label {:trigger ThenForm(Inside(vm, c), SetLabel(r, l), labels)} ::
        Lbl(l) in labels ==>
        ThenForm(Inside(vm, c), SetLabel(r, l), labels)
        == Inside(vm.(pc := vm.pc + 2, regs := Bind(vm.regs, Reg(r), labels[Lbl(l)])), c + 2)
    ensures forall vm: Vm, c: nat, r: Register, s: Register {:trigger ThenForm(Inside(vm, c), Copy(r, s), labels)} ::
        r != s ==>
        ThenForm(Inside(vm, c), Copy(r, s), labels)
        == Inside(vm.(pc := vm.pc + 2, regs := Bind(vm.regs, Reg(r), Read(vm.regs, Reg(s)))), c + 2)
    ensures forall vm: Vm, c: nat {:trigger ThenForm(Inside(vm, c), Halts, labels)} ::
        ThenForm(Inside(vm, c), Halts, labels) == Gone(vm.(pc := vm.pc + 1, halted := true), c + 1)
    ensures forall vm: Vm, c: nat, form: Form {:trigger ThenForm(Gone(vm, c), form, labels)} ::
        ThenForm(Gone(vm, c), form, labels) == Gone(vm, c)
  {
    hide UnaryEffect, BinaryEffect;
  }

  /** How a line is refused for want of something on a stack or a device. */
  lemma FaultEquations(labels: Labels)
    ensures forall vm: Vm, c: nat, r: Register {:trigger ThenForm(Inside(vm, c), One(PUSH_D, r), labels)} ::
        Depth(vm.d.ds) >= DATA_STACK_SIZE ==>
        ThenForm(Inside(vm, c), One(PUSH_D, r), labels) == Refused(vm, c, FullData)
    ensures forall vm: Vm, c: nat, r: Register {:trigger ThenForm(Inside(vm, c), One(PUSH_R, r), labels)} ::
        Depth(vm.d.rs) >= RETURN_STACK_SIZE ==>
        ThenForm(Inside(vm, c), One(PUSH_R, r), labels) == Refused(vm, c, FullReturn)
    ensures forall vm: Vm, c: nat, r: Register {:trigger ThenForm(Inside(vm, c), One(POP_D, r), labels)} ::
        vm.d.ds.Empty? ==> ThenForm(Inside(vm, c), One(POP_D, r), labels) == Refused(vm, c, EmptyData)
    ensures forall vm: Vm, c: nat, r: Register {:trigger ThenForm(Inside(vm, c), One(POP_R, r), labels)} ::
        vm.d.rs.Empty? ==> ThenForm(Inside(vm, c), One(POP_R, r), labels) == Refused(vm, c, EmptyReturn)
    ensures forall vm: Vm, c: nat, r: Register {:trigger ThenForm(Inside(vm, c), One(IN, r), labels)} ::
        vm.d.input == [] ==> ThenForm(Inside(vm, c), One(IN, r), labels) == Refused(vm, c, NoInput)
  {
    ShapesRun(labels);
    hide ThenForm, BinaryEffect;
  }

  lemma NothingFollows(labels: Labels)
    ensures forall vm: Vm, c: nat, f: Fault, form: Form {:trigger ThenForm(Refused(vm, c, f), form, labels)} ::
        ThenForm(Refused(vm, c, f), form, labels) == Refused(vm, c, f)
  {
  }

  function RunForms(forms: seq<Form>, labels: Labels, at: Progress): Progress { RunBlock(Lines(forms), labels, at) }

  lemma OneForm(forms: seq<Form>, labels: Labels, at: Progress)
    ensures RunForms(forms, labels, at)
         == if forms == [] then at else RunForms(forms[1..], labels, ThenForm(at, forms[0], labels))
  {
    if forms != [] {
      assert Lines(forms)[1..] == Lines(forms[1..]);
    }
  }

  /** The progress after the first `n` lines. */
  function RunFirst(forms: seq<Form>, n: nat, labels: Labels, at: Progress): Progress
    requires n <= |forms|
    decreases n
  {
    if n == 0 then at else ThenForm(RunFirst(forms, n - 1, labels, at), forms[n - 1], labels)
  }

  /** `RunForms` line by line, for blocks short enough to be read at a glance. */
  ghost predicate Unrolls(forms: seq<Form>, labels: Labels, at: Progress) {
    && (|forms| == 1 ==> RunForms(forms, labels, at) == RunFirst(forms, 1, labels, at))
    && (|forms| == 2 ==> RunForms(forms, labels, at) == RunFirst(forms, 2, labels, at))
    && (|forms| == 3 ==> RunForms(forms, labels, at) == RunFirst(forms, 3, labels, at))
    && (|forms| == 4 ==> RunForms(forms, labels, at) == RunFirst(forms, 4, labels, at))
    && (|forms| == 5 ==> RunForms(forms, labels, at) == RunFirst(forms, 5, labels, at))
    && (|forms| == 6 ==> RunForms(forms, labels, at) == RunFirst(forms, 6, labels, at))
    && (|forms| == 7 ==> RunForms(forms, labels, at) == RunFirst(forms, 7, labels, at))
    && (|forms| == 8 ==> RunForms(forms, labels, at) == RunFirst(forms, 8, labels, at))
    && (|forms| == 9 ==> RunForms(forms, labels, at) == RunFirst(forms, 9, labels, at))
    && (|forms| == 10 ==> RunForms(forms, labels, at) == RunFirst(forms, 10, labels, at))
    && (|forms| == 11 ==> RunForms(forms, labels, at) == RunFirst(forms, 11, labels, at))
  }

  /** A run refused after its first `i` lines goes no further. */
  lemma {:induction false} RefusedLasts(forms: seq<Form>, i: nat, n: nat, labels: Labels, at: Progress)
    requires i <= n <= |forms| && RunFirst(forms, i, labels, at).Refused?
    ensures RunFirst(forms, n, labels, at) == RunFirst(forms, i, labels, at)
    decreases n
  {
    if i < n {
      RefusedLasts(forms, i, n - 1, labels, at);
    }
  }

  /** Running the first line first or the last line last. */
  lemma {:induction false} RunFirstTail(forms: seq<Form>, n: nat, labels: Labels, at: Progress)
    requires 0 < n <= |forms|
    ensures RunFirst(forms, n, labels, at) == RunFirst(forms[1..], n - 1, labels, ThenForm(at, forms[0], labels))
  {
    hide ThenForm;
    if n > 1 {
      RunFirstTail(forms, n - 1, labels, at);
    }
  }

  lemma {:induction false} RunsInOrder(forms: seq<Form>, labels: Labels, at: Progress)
    ensures RunForms(forms, labels, at) == RunFirst(forms, |forms|, labels, at)
    decreases |forms|
  {
    OneForm(forms, labels, at);
    hide ThenForm, RunForms;
    if forms != [] {
      RunsInOrder(forms[1..], labels, ThenForm(at, forms[0], labels));
      RunFirstTail(forms, |forms|, labels, at);
    }
  }

  // ---- what a routine promises ----

  /** No register is also a label, so a register operand is never taken for an immediate. */
  ghost predicate RegistersApart(asm: Assembly) { forall r: Register :: Reg(r) !in asm.labels }

  /** The register file as an array: reading back what was bound, and everything else untouched. */
  lemma ReadBind()
    ensures forall regs: Regs, n: Name, v: int, k: Name {:trigger Read(Bind(regs, n, v), k)} ::
      Read(Bind(regs, n, v), k) == if k == n then v else Read(regs, k)
  {
  }

  /** The address of a label; the kernel defines every one that is asked for. */
  function Address(asm: Assembly, l: Label): int { if Lbl(l) in asm.labels then asm.labels[Lbl(l)] else -1 }

  /** The machine is at `pc` with the reserved registers intact. */
  ghost predicate Ready(asm: Assembly, vm: Vm, pc: int, ip: int, d: Data) {
    && vm.pc == pc
    && !vm.halted
    && Read(vm.regs, Reg(NEXTREG)) == Address(asm, NEXT)
    && Read(vm.regs, Reg(IP)) == ip
    && vm.d == d
  }

  /** Everything needed to run the block at `vm.pc` by reading its lines. */
  lemma ExecuteLines(asm: Assembly, forms: seq<Form>, vm: Vm)
    requires FormsAt(asm, forms, vm.pc) && !vm.halted
    ensures Unrolls(forms, asm.labels, Inside(vm, 0))
    ensures var r := RunForms(forms, asm.labels, Inside(vm, 0));
      && (!r.Stopped? ==> Steps(asm.program, vm, r.cost) == Ok(r.vm))
      && (r.Refused? ==> Raises(asm.program, r.vm, r.fault))
      && (r.Inside? ==> r.vm.pc == vm.pc + TotalSize(Lines(forms)) && !r.vm.halted)
  {
    hide ThenForm, Steps, TotalSize;
    RunsInOrder(forms, asm.labels, Inside(vm, 0));
    BlockRuns(asm, Lines(forms), vm, 0);
  }
}
