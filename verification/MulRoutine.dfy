/** `*`: multiplication by repeated addition, on every pair of cells. */
module MulRoutine {
  import opened Wrappers
  import opened Isa
  import opened Cpu
  import opened Layout
  import opened Stacks
  import opened Assembler
  import opened AbstractMachine
  import opened SourceMachine
  import opened Blocks
  import opened Forms
  import opened KernelSource
  import opened Symbolic
  import opened Control
  import opened SimpleRoutines

  ghost predicate MulSits(asm: Assembly, pc: int) {
    && RegistersApart(asm)
    && BlockSits(asm, MUL_BLOCK, pc)
    && Lbl(MUL_LOOP) in asm.labels && Address(asm, MUL_LOOP) == pc + TotalSize(Lines(MUL_BLOCK))
    && BlockSits(asm, MUL_LOOP_BLOCK, Address(asm, MUL_LOOP))
    && Lbl(MUL_DONE) in asm.labels && BlockSits(asm, MUL_DONE_BLOCK, Address(asm, MUL_DONE))
  }

  /** At the head of the loop, with `x` additions of `y` still to do. */
  ghost predicate AtLoop(asm: Assembly, vm: Vm, ip: int, d: Data, x: int, y: int, acc: int) {
    && Ready(asm, vm, Address(asm, MUL_LOOP), ip, d)
    && Read(vm.regs, Reg(X)) == x
    && Read(vm.regs, Reg(Y)) == y
    && Read(vm.regs, Reg(ACC)) == acc
  }

  /** One turn of the loop: six steps, for every counter but zero. */
  lemma MulTurn(asm: Assembly, pc: int, vm: Vm, ip: int, d: Data, x: int, y: int, acc: int)
    requires MulSits(asm, pc) && AtLoop(asm, vm, ip, d, x, y, acc) && x != 0
    ensures Steps(asm.program, vm, 6).Ok? && Walks(asm, vm, 6)
    ensures AtLoop(asm, Steps(asm.program, vm, 6).value, ip, d, x - 1, y, acc + y)
  {
    hide BlockSits, RunForms, ThenForm, Steps, Walks, TotalSize, Lines, Read, Bind;
    ReadBind();
    Execute(asm, MUL_LOOP_BLOCK, vm);
    StackEquations(asm.labels);
    ArithmeticEquations(asm.labels);
    ConstantEquations(asm.labels);
    MemoryEquations(asm.labels);
    AssignmentEquations(asm.labels);
  }

  lemma MulEnds(asm: Assembly, pc: int, vm: Vm, ip: int, d: Data, y: int, acc: int)
    requires MulSits(asm, pc) && AtLoop(asm, vm, ip, d, 0, y, acc) && Depth(d.ds) < DATA_STACK_SIZE
    ensures Returns(asm, vm, 3, ip, d.(ds := Push(acc, d.ds)))
  {
    hide BlockSits, RunForms, ThenForm, Steps, Walks, TotalSize, Lines, Read, Bind;
    ReadBind();
    Execute(asm, MUL_LOOP_BLOCK, vm);
    StackEquations(asm.labels);
    ArithmeticEquations(asm.labels);
    ConstantEquations(asm.labels);
    MemoryEquations(asm.labels);
    AssignmentEquations(asm.labels);
    var vm1 := RunForms(MUL_LOOP_BLOCK, asm.labels, Inside(vm, 0)).vm;
    Execute(asm, MUL_DONE_BLOCK, vm1);
    Later(asm, vm, 1, 2, ip, d.(ds := Push(acc, d.ds)));
  }

  lemma {:induction false} MulLoopReturns(asm: Assembly, pc: int, vm: Vm, ip: int, d: Data, x: nat, y: int, acc: int)
    requires MulSits(asm, pc) && AtLoop(asm, vm, ip, d, x, y, acc) && Depth(d.ds) < DATA_STACK_SIZE
    ensures Returns(asm, vm, 6 * x + 3, ip, d.(ds := Push(acc + y * x, d.ds)))
    decreases x
  {
    hide MulSits, Steps, Walks, AtLoop, Returns;
    if x == 0 {
      MulEnds(asm, pc, vm, ip, d, y, acc);
    } else {
      MulTurn(asm, pc, vm, ip, d, x, y, acc);
      var vm1 := Steps(asm.program, vm, 6).value;
      MulLoopReturns(asm, pc, vm1, ip, d, x - 1, y, acc + y);
      assert acc + y + y * (x - 1) == acc + y * x;
      Later(asm, vm, 6, 6 * (x - 1) + 3, ip, d.(ds := Push(acc + y * x, d.ds)));
    }
  }

  lemma MulStarts(asm: Assembly, vm: Vm, ip: int, d: Data)
    requires MulSits(asm, vm.pc) && Ready(asm, vm, vm.pc, ip, d)
    requires d.ds.Push? && d.ds.rest.Push?
    ensures Steps(asm.program, vm, 3).Ok? && Walks(asm, vm, 3)
    ensures AtLoop(asm, Steps(asm.program, vm, 3).value, ip, d.(ds := d.ds.rest.rest), d.ds.top, d.ds.rest.top, 0)
  {
    hide BlockSits, RunForms, ThenForm, Steps, Walks, TotalSize, Lines, Read, Bind;
    ReadBind();
    Execute(asm, MUL_BLOCK, vm);
    StackEquations(asm.labels);
    ArithmeticEquations(asm.labels);
    AssignmentEquations(asm.labels);
  }

  /** For every `a` and every `b >= 0`, `*` pushes `a * b` in exactly `6b + 6` steps. */
  lemma MulReturns(asm: Assembly, vm: Vm, ip: int, d: Data)
    requires MulSits(asm, vm.pc) && Ready(asm, vm, vm.pc, ip, d) && Depth(d.ds) <= DATA_STACK_SIZE
    requires d.ds.Push? && d.ds.rest.Push? && d.ds.top >= 0
    ensures Returns(asm, vm, 6 * d.ds.top + 6, ip, d.(ds := Push(d.ds.rest.top * d.ds.top, d.ds.rest.rest)))
  {
    hide MulSits, Steps, Walks, AtLoop, Returns, Ready;
    assert Depth(d.ds) == 1 + Depth(d.ds.rest);
    assert Depth(d.ds.rest) == 1 + Depth(d.ds.rest.rest);
    MulStarts(asm, vm, ip, d);
    var vm1 := Steps(asm.program, vm, 3).value;
    var d1 := d.(ds := d.ds.rest.rest);
    var b, product := d.ds.top, d.ds.rest.top * d.ds.top;
    MulLoopReturns(asm, vm.pc, vm1, ip, d1, b, d.ds.rest.top, 0);
    assert d1.(ds := Push(product, d1.ds)) == d.(ds := Push(product, d.ds.rest.rest));
    Later(asm, vm, 3, 6 * b + 3, ip, d.(ds := Push(product, d.ds.rest.rest)));
  }

  /** The first steps of a turn stay inside the loop. */
  lemma MulFirstSteps(asm: Assembly, pc: int, vm: Vm, ip: int, d: Data, x: int, y: int, acc: int, n: nat)
    requires MulSits(asm, pc) && AtLoop(asm, vm, ip, d, x, y, acc) && x != 0 && n < 6
    ensures Steps(asm.program, vm, n).Ok? && !Steps(asm.program, vm, n).value.halted
    ensures Address(asm, MUL_LOOP) <= Steps(asm.program, vm, n).value.pc <= Address(asm, MUL_LOOP) + 5
  {
    hide BlockSits, FormsAt, RunForms, ThenForm, Steps, TotalSize, Lines, Read, Bind;
    ReadBind();
    SitsThere(asm, MUL_LOOP_BLOCK, vm.pc);
    var k := if n < 4 then n + 1 else 5;
    var head := MUL_LOOP_BLOCK[..k];
    assert MUL_LOOP_BLOCK == head + MUL_LOOP_BLOCK[k..];
    FormsSplit(asm, head, MUL_LOOP_BLOCK[k..], vm.pc);
    ExecuteLines(asm, head, vm);
    StackEquations(asm.labels);
    ArithmeticEquations(asm.labels);
    ConstantEquations(asm.labels);
    MemoryEquations(asm.labels);
    AssignmentEquations(asm.labels);
    if n == 4 {
      assert MUL_LOOP_BLOCK[..4] + MUL_LOOP_BLOCK[4..] == MUL_LOOP_BLOCK;
      FormsSplit(asm, MUL_LOOP_BLOCK[..4], MUL_LOOP_BLOCK[4..], vm.pc);
      ExecuteLines(asm, MUL_LOOP_BLOCK[..4], vm);
      var vm3 := RunForms(MUL_LOOP_BLOCK[..4], asm.labels, Inside(vm, 0)).vm;
      SetHalf(asm, MUL_LOOP_BLOCK[4..], vm3, R, MUL_LOOP);
      StepsAdd(asm.program, vm, 3, 1);
    }
  }

  /** The first of the two instructions of a `SET` moves on by one. */
  lemma SetHalf(asm: Assembly, forms: seq<Form>, vm: Vm, r: Register, l: Label)
    requires FormsAt(asm, forms, vm.pc) && !vm.halted && forms != [] && forms[0] == SetLabel(r, l)
    ensures Steps(asm.program, vm, 1).Ok?
    ensures !Steps(asm.program, vm, 1).value.halted && Steps(asm.program, vm, 1).value.pc == vm.pc + 1
  {
    PlacedCons(asm, Lines(forms), vm.pc);
    assert LineAt(asm, Text(forms[0]), vm.pc);
    var code := asm.program[vm.pc..vm.pc + 2];
    assert code[0] == asm.program[vm.pc];
    OneStep(asm.program, vm);
  }

  /** In a loop that never ends no number of steps ever leaves it: no return, no halt, no error. */
  lemma {:induction false} MulLoopForever(
    asm: Assembly, pc: int, vm: Vm, ip: int, d: Data, x: int, y: int, acc: int, n: nat)
    requires MulSits(asm, pc) && AtLoop(asm, vm, ip, d, x, y, acc) && x < 0
    ensures Steps(asm.program, vm, n).Ok? && Walks(asm, vm, n) && !Steps(asm.program, vm, n).value.halted
    ensures Address(asm, MUL_LOOP) <= Steps(asm.program, vm, n).value.pc <= Address(asm, MUL_LOOP) + 5
    decreases n
  {
    hide MulSits, Steps, Walks, AtLoop;
    MulTurn(asm, pc, vm, ip, d, x, y, acc);
    if n < 6 {
      WalksLess(asm, vm, 6, n);
      MulFirstSteps(asm, pc, vm, ip, d, x, y, acc, n);
    } else {
      MulLoopForever(asm, pc, Steps(asm.program, vm, 6).value, ip, d, x - 1, y, acc + y, n - 6);
      WalksAdd(asm, vm, 6, n - 6);
    }
  }

  /** For every `a` and every `b < 0`, from its entry on `*` takes any number of steps without
      returning, halting or raising. */
  lemma MulNeverReturns(asm: Assembly, vm: Vm, ip: int, d: Data, n: nat)
    requires MulSits(asm, vm.pc) && Ready(asm, vm, vm.pc, ip, d)
    requires d.ds.Push? && d.ds.rest.Push? && d.ds.top < 0
    ensures Steps(asm.program, vm, n).Ok? && Walks(asm, vm, n)
    ensures n >= 3 ==>
      && !Steps(asm.program, vm, n).value.halted
      && Address(asm, MUL_LOOP) <= Steps(asm.program, vm, n).value.pc <= Address(asm, MUL_LOOP) + 5
  {
    hide MulSits, Steps, Walks, AtLoop, Ready;
    MulStarts(asm, vm, ip, d);
    if n < 3 {
      WalksLess(asm, vm, 3, n);
    } else {
      var vm1 := Steps(asm.program, vm, 3).value;
      MulLoopForever(asm, vm.pc, vm1, ip, d.(ds := d.ds.rest.rest), d.ds.top, d.ds.rest.top, 0, n - 3);
      WalksAdd(asm, vm, 3, n - 3);
    }
  }
}
