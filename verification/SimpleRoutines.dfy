/** The routines without loops: each runs from its entry back to `NEXT` and does what its word means. */
module SimpleRoutines {
  import opened Wrappers
  import opened Isa
  import opened Cpu
  import opened Layout
  import opened Stacks
  import opened Assembler
  import opened AbstractMachine
  import opened Blocks
  import opened Forms
  import opened KernelSource
  import opened Symbolic
  import opened Control
  import opened Words
  import Bits

  /** The machine is about to run `forms` as the routine of a word called from `ip` with `d`. */
  ghost predicate Entering(asm: Assembly, vm: Vm, forms: seq<Form>, ip: int, d: Data) {
    && RegistersApart(asm)
    && BlockSits(asm, forms, vm.pc)
    && Ready(asm, vm, vm.pc, ip, d)
    && Depth(d.ds) <= DATA_STACK_SIZE
  }

  // ---- stack words ----

  function ShuffleBlock(p: Prim): seq<Form> {
    match p
    case DUP => DUP_BLOCK
    case DROP => DROP_BLOCK
    case SWAP => SWAP_BLOCK
    case OVER => OVER_BLOCK
    case ROT => ROT_BLOCK
    case NROT => NROT_BLOCK
    case NIP => NIP_BLOCK
    case _ => TUCK_BLOCK
  }

  function ShuffleCost(p: Prim): nat {
    if p == DROP then 2 else if p == DUP || p == NIP then 4 else if p == SWAP then 5
    else if p == ROT || p == NROT then 7 else 6
  }

  lemma ShortShuffleReturns(asm: Assembly, vm: Vm, p: Prim, ip: int, d: Data)
    requires p == DUP || p == DROP || p == SWAP || p == NIP
    requires Entering(asm, vm, ShuffleBlock(p), ip, d)
    requires Shuffle(p, d.ds).Some? && Depth(Shuffle(p, d.ds).value) <= DATA_STACK_SIZE
    ensures Returns(asm, vm, ShuffleCost(p), ip, d.(ds := Shuffle(p, d.ds).value))
  {
    hide BlockSits, RunForms, ThenForm, Steps, Walks, TotalSize, Lines, Read, Bind;
    ReadBind();
    assert Depth(d.ds) == 1 + Depth(d.ds.rest);
    Execute(asm, ShuffleBlock(p), vm);
    StackEquations(asm.labels);
    AssignmentEquations(asm.labels);
  }

  lemma OverReturns(asm: Assembly, vm: Vm, p: Prim, ip: int, d: Data)
    requires p == OVER
    requires Entering(asm, vm, OVER_BLOCK, ip, d)
    requires Shuffle(p, d.ds).Some? && Depth(Shuffle(p, d.ds).value) <= DATA_STACK_SIZE
    ensures Returns(asm, vm, ShuffleCost(p), ip, d.(ds := Shuffle(p, d.ds).value))
  {
    hide BlockSits, RunForms, ThenForm, Steps, Walks, TotalSize, Lines, Read, Bind;
    ReadBind();
    assert Depth(d.ds) == 1 + Depth(d.ds.rest);
    assert Depth(d.ds.rest) == 1 + Depth(d.ds.rest.rest);
    Execute(asm, OVER_BLOCK, vm);
    StackEquations(asm.labels);
    AssignmentEquations(asm.labels);
  }

  lemma TuckReturns(asm: Assembly, vm: Vm, p: Prim, ip: int, d: Data)
    requires p == TUCK
    requires Entering(asm, vm, TUCK_BLOCK, ip, d)
    requires Shuffle(p, d.ds).Some? && Depth(Shuffle(p, d.ds).value) <= DATA_STACK_SIZE
    ensures Returns(asm, vm, ShuffleCost(p), ip, d.(ds := Shuffle(p, d.ds).value))
  {
    hide BlockSits, RunForms, ThenForm, Steps, Walks, TotalSize, Lines, Read, Bind;
    ReadBind();
    assert Depth(d.ds) == 1 + Depth(d.ds.rest);
    assert Depth(d.ds.rest) == 1 + Depth(d.ds.rest.rest);
    Execute(asm, TUCK_BLOCK, vm);
    StackEquations(asm.labels);
    AssignmentEquations(asm.labels);
  }

  lemma RotReturns(asm: Assembly, vm: Vm, p: Prim, ip: int, d: Data)
    requires p == ROT
    requires Entering(asm, vm, ROT_BLOCK, ip, d)
    requires Shuffle(p, d.ds).Some? && Depth(Shuffle(p, d.ds).value) <= DATA_STACK_SIZE
    ensures Returns(asm, vm, ShuffleCost(p), ip, d.(ds := Shuffle(p, d.ds).value))
  {
    hide BlockSits, RunForms, ThenForm, Steps, Walks, TotalSize, Lines, Read, Bind;
    ReadBind();
    assert Depth(d.ds) == 1 + Depth(d.ds.rest);
    assert Depth(d.ds.rest) == 1 + Depth(d.ds.rest.rest);
    assert Depth(d.ds.rest.rest) == 1 + Depth(d.ds.rest.rest.rest);
    Execute(asm, ROT_BLOCK, vm);
    StackEquations(asm.labels);
    AssignmentEquations(asm.labels);
  }

  lemma NrotReturns(asm: Assembly, vm: Vm, p: Prim, ip: int, d: Data)
    requires p == NROT
    requires Entering(asm, vm, NROT_BLOCK, ip, d)
    requires Shuffle(p, d.ds).Some? && Depth(Shuffle(p, d.ds).value) <= DATA_STACK_SIZE
    ensures Returns(asm, vm, ShuffleCost(p), ip, d.(ds := Shuffle(p, d.ds).value))
  {
    hide BlockSits, RunForms, ThenForm, Steps, Walks, TotalSize, Lines, Read, Bind;
    ReadBind();
    assert Depth(d.ds) == 1 + Depth(d.ds.rest);
    assert Depth(d.ds.rest) == 1 + Depth(d.ds.rest.rest);
    assert Depth(d.ds.rest.rest) == 1 + Depth(d.ds.rest.rest.rest);
    Execute(asm, NROT_BLOCK, vm);
    StackEquations(asm.labels);
    AssignmentEquations(asm.labels);
  }

  // ---- arithmetic and logic ----

  function UnaryBlock(p: Prim): seq<Form> {
    match p
    case NEGATE => NEGATE_BLOCK
    case ONEPLUS => ONE_PLUS_BLOCK
    case ONEMINUS => ONE_MINUS_BLOCK
    case _ => INVERT_BLOCK
  }

  lemma NegateReturns(asm: Assembly, vm: Vm, ip: int, d: Data)
    requires Entering(asm, vm, NEGATE_BLOCK, ip, d) && d.ds.Push?
    ensures Returns(asm, vm, 5, ip, d.(ds := Push(-d.ds.top, d.ds.rest)))
  {
    hide BlockSits, RunForms, ThenForm, Steps, Walks, TotalSize, Lines, Read, Bind;
    ReadBind();
    assert Depth(d.ds) == 1 + Depth(d.ds.rest);
    Execute(asm, NEGATE_BLOCK, vm);
    StackEquations(asm.labels);
    ArithmeticEquations(asm.labels);
    AssignmentEquations(asm.labels);
  }

  lemma ReplaceReturns(asm: Assembly, vm: Vm, p: Prim, ip: int, d: Data)
    requires p == ONEPLUS || p == ONEMINUS || p == BITINVERT
    requires Entering(asm, vm, UnaryBlock(p), ip, d) && d.ds.Push?
    ensures Returns(asm, vm, 4, ip, d.(ds := Push(Unary(p, d.ds.top).value, d.ds.rest)))
  {
    hide BlockSits, RunForms, ThenForm, Steps, Walks, TotalSize, Lines, Read, Bind;
    ReadBind();
    assert Depth(d.ds) == 1 + Depth(d.ds.rest);
    Execute(asm, UnaryBlock(p), vm);
    StackEquations(asm.labels);
    ConstantEquations(asm.labels);
    AssignmentEquations(asm.labels);
  }

  lemma UnaryReturns(asm: Assembly, vm: Vm, p: Prim, ip: int, d: Data)
    requires p == NEGATE || p == ONEPLUS || p == ONEMINUS || p == BITINVERT
    requires Entering(asm, vm, UnaryBlock(p), ip, d) && d.ds.Push?
    ensures Returns(asm, vm, if p == NEGATE then 5 else 4, ip, d.(ds := Push(Unary(p, d.ds.top).value, d.ds.rest)))
  {
    hide Entering, Returns;
    if p == NEGATE {
      NegateReturns(asm, vm, ip, d);
    } else {
      ReplaceReturns(asm, vm, p, ip, d);
    }
  }

  lemma AbsKeeps(asm: Assembly, vm: Vm, ip: int, d: Data)
    requires Entering(asm, vm, ABS_BLOCK, ip, d) && d.ds.Push? && d.ds.top >= 0
    requires Lbl(ABS_NEG) in asm.labels
    ensures Returns(asm, vm, 4, ip, d)
  {
    hide BlockSits, RunForms, ThenForm, Steps, Walks, TotalSize, Lines, Read, Bind;
    ReadBind();
    assert Depth(d.ds) == 1 + Depth(d.ds.rest);
    Execute(asm, ABS_BLOCK, vm);
    StackEquations(asm.labels);
    MemoryEquations(asm.labels);
    AssignmentEquations(asm.labels);
  }

  lemma AbsBranches(asm: Assembly, vm: Vm, ip: int, d: Data)
    requires Entering(asm, vm, ABS_BLOCK, ip, d) && d.ds.Push? && d.ds.top < 0
    requires Lbl(ABS_NEG) in asm.labels
    ensures Steps(asm.program, vm, 2).Ok? && Walks(asm, vm, 2)
    ensures Ready(asm, Steps(asm.program, vm, 2).value, Address(asm, ABS_NEG), ip, d.(ds := d.ds.rest))
    ensures Read(Steps(asm.program, vm, 2).value.regs, Reg(X)) == d.ds.top
  {
    hide BlockSits, RunForms, ThenForm, Steps, Walks, TotalSize, Lines, Read, Bind;
    ReadBind();
    Execute(asm, ABS_BLOCK, vm);
    StackEquations(asm.labels);
    MemoryEquations(asm.labels);
    AssignmentEquations(asm.labels);
  }

  lemma AbsNegates(asm: Assembly, vm: Vm, ip: int, d: Data, x: int)
    requires RegistersApart(asm) && BlockSits(asm, ABS_NEG_BLOCK, vm.pc) && Ready(asm, vm, vm.pc, ip, d)
    requires Read(vm.regs, Reg(X)) == x && Depth(d.ds) < DATA_STACK_SIZE
    ensures Returns(asm, vm, 4, ip, d.(ds := Push(-x, d.ds)))
  {
    hide BlockSits, RunForms, ThenForm, Steps, Walks, TotalSize, Lines, Read, Bind;
    ReadBind();
    Execute(asm, ABS_NEG_BLOCK, vm);
    StackEquations(asm.labels);
    ArithmeticEquations(asm.labels);
    AssignmentEquations(asm.labels);
  }

  lemma AbsReturns(asm: Assembly, vm: Vm, ip: int, d: Data)
    requires Entering(asm, vm, ABS_BLOCK, ip, d) && d.ds.Push?
    requires Lbl(ABS_NEG) in asm.labels && BlockSits(asm, ABS_NEG_BLOCK, Address(asm, ABS_NEG))
    ensures Returns(asm, vm, if d.ds.top < 0 then 6 else 4, ip,
                    d.(ds := Push(if d.ds.top < 0 then -d.ds.top else d.ds.top, d.ds.rest)))
  {
    hide BlockSits, Steps, Walks, Read, RegistersApart;
    if d.ds.top < 0 {
      assert Depth(d.ds) == 1 + Depth(d.ds.rest);
      AbsBranches(asm, vm, ip, d);
      AbsNegates(asm, Steps(asm.program, vm, 2).value, ip, d.(ds := d.ds.rest), d.ds.top);
      Later(asm, vm, 2, 4, ip, d.(ds := Push(-d.ds.top, d.ds.rest)));
    } else {
      AbsKeeps(asm, vm, ip, d);
    }
  }

  // ---- two operands ----

  function BinaryBlock(p: Prim): seq<Form> {
    match p
    case PLUS => PLUS_BLOCK
    case MINUS => MINUS_BLOCK
    case BITAND => AND_BLOCK
    case _ => OR_BLOCK
  }

  lemma SumReturns(asm: Assembly, vm: Vm, p: Prim, ip: int, d: Data)
    requires p == PLUS || p == MINUS
    requires Entering(asm, vm, BinaryBlock(p), ip, d) && d.ds.Push? && d.ds.rest.Push?
    ensures Returns(asm, vm, 5, ip, d.(ds := Push(Binary(p, d.ds.rest.top, d.ds.top).value, d.ds.rest.rest)))
  {
    hide BlockSits, RunForms, ThenForm, Steps, Walks, TotalSize, Lines, Read, Bind, Bits.And, Bits.Or;
    ReadBind();
    assert Depth(d.ds) == 1 + Depth(d.ds.rest);
    assert Depth(d.ds.rest) == 1 + Depth(d.ds.rest.rest);
    Execute(asm, BinaryBlock(p), vm);
    StackEquations(asm.labels);
    ArithmeticEquations(asm.labels);
    AssignmentEquations(asm.labels);
  }

  lemma AndReturns(asm: Assembly, vm: Vm, ip: int, d: Data)
    requires Entering(asm, vm, AND_BLOCK, ip, d) && d.ds.Push? && d.ds.rest.Push?
    ensures Returns(asm, vm, 5, ip, d.(ds := Push(Bits.And(d.ds.rest.top, d.ds.top), d.ds.rest.rest)))
  {
    hide BlockSits, RunForms, ThenForm, Steps, Walks, TotalSize, Lines, Read, Bind, Bits.And, Bits.Or;
    ReadBind();
    assert Depth(d.ds) == 1 + Depth(d.ds.rest);
    assert Depth(d.ds.rest) == 1 + Depth(d.ds.rest.rest);
    Execute(asm, AND_BLOCK, vm);
    StackEquations(asm.labels);
    ArithmeticEquations(asm.labels);
    AssignmentEquations(asm.labels);
  }

  lemma OrReturns(asm: Assembly, vm: Vm, ip: int, d: Data)
    requires Entering(asm, vm, OR_BLOCK, ip, d) && d.ds.Push? && d.ds.rest.Push?
    ensures Returns(asm, vm, 5, ip, d.(ds := Push(Bits.Or(d.ds.rest.top, d.ds.top), d.ds.rest.rest)))
  {
    hide BlockSits, RunForms, ThenForm, Steps, Walks, TotalSize, Lines, Read, Bind, Bits.And, Bits.Or;
    ReadBind();
    assert Depth(d.ds) == 1 + Depth(d.ds.rest);
    assert Depth(d.ds.rest) == 1 + Depth(d.ds.rest.rest);
    Execute(asm, OR_BLOCK, vm);
    StackEquations(asm.labels);
    ArithmeticEquations(asm.labels);
    AssignmentEquations(asm.labels);
  }

  lemma LogicReturns(asm: Assembly, vm: Vm, p: Prim, ip: int, d: Data)
    requires p == BITAND || p == BITOR
    requires Entering(asm, vm, BinaryBlock(p), ip, d) && d.ds.Push? && d.ds.rest.Push?
    ensures Returns(asm, vm, 5, ip, d.(ds := Push(Binary(p, d.ds.rest.top, d.ds.top).value, d.ds.rest.rest)))
  {
    hide Entering, Returns, Bits.And, Bits.Or;
    if p == BITAND {
      AndReturns(asm, vm, ip, d);
    } else {
      OrReturns(asm, vm, ip, d);
    }
  }

  // ---- comparisons ----

  /** Pushing a flag. */
  lemma FlagReturns(asm: Assembly, vm: Vm, forms: seq<Form>, l: Label, flag: int, ip: int, d: Data)
    requires forms == FlagLines(flag) || forms == LabelledFlag(l, flag)
    requires Entering(asm, vm, forms, ip, d) && Depth(d.ds) < DATA_STACK_SIZE
    ensures Returns(asm, vm, 4, ip, d.(ds := Push(flag, d.ds)))
  {
    hide BlockSits, RunForms, ThenForm, Steps, Walks, TotalSize, Lines, Read, Bind;
    ReadBind();
    Execute(asm, forms, vm);
    StackEquations(asm.labels);
    AssignmentEquations(asm.labels);
  }

  /** A comparison: its test, the flag it pushes when the test falls through, and the label and
      flag of the other outcome. */
  datatype Comparison = Comparison(test: seq<Form>, fall: int, goal: Label, taken: int)

  function ComparisonOf(p: Prim): Comparison {
    match p
    case EQUALS => Comparison(EQUALS_BLOCK, 0, EQ_TRUE, -1)
    case NOTEQUALS => Comparison(NOT_EQUALS_BLOCK, -1, NE_FALSE, 0)
    case LESSTHAN => Comparison(LESS_THAN_BLOCK, 0, LT_TRUE, -1)
    case GREATERTHAN => Comparison(GREATER_THAN_BLOCK, 0, GT_TRUE, -1)
    case ZEROEQ => Comparison(ZERO_EQ_BLOCK, 0, ZE_TRUE, -1)
    case _ => Comparison(ZERO_LT_BLOCK, 0, ZL_TRUE, -1)
  }

  ghost predicate ComparisonSits(asm: Assembly, c: Comparison, pc: int) {
    && BlockSits(asm, c.test, pc)
    && BlockSits(asm, FlagLines(c.fall), pc + TotalSize(Lines(c.test)))
    && Lbl(c.goal) in asm.labels
    && BlockSits(asm, LabelledFlag(c.goal, c.taken), Address(asm, c.goal))
  }

  /** How the test of a comparison ends: gone to its label when `taken`, fallen through otherwise,
      with the operands dropped. */
  ghost predicate Tested(asm: Assembly, vm: Vm, c: Comparison, n: nat, taken: bool, ip: int, d: Data) {
    && Steps(asm.program, vm, n).Ok? && Walks(asm, vm, n)
    && var vm1 := Steps(asm.program, vm, n).value;
       Ready(asm, vm1, if taken then Address(asm, c.goal) else vm.pc + TotalSize(Lines(c.test)), ip, d)
  }

  lemma TestedReturns(asm: Assembly, vm: Vm, c: Comparison, n: nat, taken: bool, ip: int, d: Data)
    requires RegistersApart(asm) && ComparisonSits(asm, c, vm.pc) && Depth(d.ds) < DATA_STACK_SIZE
    requires Tested(asm, vm, c, n, taken, ip, d)
    ensures Returns(asm, vm, n + 4, ip, d.(ds := Push(if taken then c.taken else c.fall, d.ds)))
  {
    hide BlockSits, Steps, Walks, TotalSize;
    var vm1 := Steps(asm.program, vm, n).value;
    if taken {
      FlagReturns(asm, vm1, LabelledFlag(c.goal, c.taken), c.goal, c.taken, ip, d);
    } else {
      FlagReturns(asm, vm1, FlagLines(c.fall), c.goal, c.fall, ip, d);
    }
    Later(asm, vm, n, 4, ip, d.(ds := Push(if taken then c.taken else c.fall, d.ds)));
  }

  lemma ZeroTest(asm: Assembly, vm: Vm, p: Prim, ip: int, d: Data)
    requires IsZeroTest(p) && Entering(asm, vm, ComparisonOf(p).test, ip, d) && d.ds.Push?
    requires Lbl(ComparisonOf(p).goal) in asm.labels
    ensures Tested(asm, vm, ComparisonOf(p), 2, Tests(p, d.ds.top), ip, d.(ds := d.ds.rest))
  {
    hide BlockSits, RunForms, ThenForm, Steps, Walks, TotalSize, Lines, Read, Bind;
    ReadBind();
    Execute(asm, ComparisonOf(p).test, vm);
    StackEquations(asm.labels);
    MemoryEquations(asm.labels);
    AssignmentEquations(asm.labels);
  }

  lemma ZeroTestReturns(asm: Assembly, vm: Vm, p: Prim, ip: int, d: Data)
    requires IsZeroTest(p) && Entering(asm, vm, ComparisonOf(p).test, ip, d) && d.ds.Push?
    requires ComparisonSits(asm, ComparisonOf(p), vm.pc)
    ensures Returns(asm, vm, 6, ip, d.(ds := Push(Flag(Tests(p, d.ds.top)), d.ds.rest)))
  {
    hide BlockSits, Returns, Ready, Tests, Tested;
    assert Depth(d.ds) == 1 + Depth(d.ds.rest);
    ZeroTest(asm, vm, p, ip, d);
    TestedReturns(asm, vm, ComparisonOf(p), 2, Tests(p, d.ds.top), ip, d.(ds := d.ds.rest));
  }

  /** Whether the test of a comparison branches: on equality, or on the order it asks for. */
  predicate Branches(p: Prim, a: int, b: int) { if p == NOTEQUALS then a == b else Compares(p, a, b) }

  lemma EqualityTest(asm: Assembly, vm: Vm, p: Prim, ip: int, d: Data)
    requires p == EQUALS || p == NOTEQUALS
    requires Entering(asm, vm, ComparisonOf(p).test, ip, d) && d.ds.Push? && d.ds.rest.Push?
    requires Lbl(ComparisonOf(p).goal) in asm.labels
    ensures Tested(asm, vm, ComparisonOf(p), 4, Branches(p, d.ds.rest.top, d.ds.top), ip, d.(ds := d.ds.rest.rest))
  {
    hide BlockSits, RunForms, ThenForm, Steps, Walks, TotalSize, Lines, Read, Bind;
    ReadBind();
    Execute(asm, ComparisonOf(p).test, vm);
    StackEquations(asm.labels);
    ArithmeticEquations(asm.labels);
    MemoryEquations(asm.labels);
    AssignmentEquations(asm.labels);
  }

  lemma OrderTest(asm: Assembly, vm: Vm, p: Prim, ip: int, d: Data)
    requires p == LESSTHAN || p == GREATERTHAN
    requires Entering(asm, vm, ComparisonOf(p).test, ip, d) && d.ds.Push? && d.ds.rest.Push?
    requires Lbl(ComparisonOf(p).goal) in asm.labels
    ensures Tested(asm, vm, ComparisonOf(p), 4, Branches(p, d.ds.rest.top, d.ds.top), ip, d.(ds := d.ds.rest.rest))
  {
    hide BlockSits, RunForms, ThenForm, Steps, Walks, TotalSize, Lines, Read, Bind;
    ReadBind();
    Execute(asm, ComparisonOf(p).test, vm);
    StackEquations(asm.labels);
    ArithmeticEquations(asm.labels);
    MemoryEquations(asm.labels);
    AssignmentEquations(asm.labels);
  }

  lemma PairTestReturns(asm: Assembly, vm: Vm, p: Prim, ip: int, d: Data)
    requires IsPairTest(p) && Entering(asm, vm, ComparisonOf(p).test, ip, d) && d.ds.Push? && d.ds.rest.Push?
    requires ComparisonSits(asm, ComparisonOf(p), vm.pc)
    ensures Returns(asm, vm, 8, ip, d.(ds := Push(Flag(Compares(p, d.ds.rest.top, d.ds.top)), d.ds.rest.rest)))
  {
    hide BlockSits, Returns, Ready, Tested;
    assert Depth(d.ds) == 1 + Depth(d.ds.rest);
    assert Depth(d.ds.rest) == 1 + Depth(d.ds.rest.rest);
    if p == EQUALS || p == NOTEQUALS {
      EqualityTest(asm, vm, p, ip, d);
    } else {
      OrderTest(asm, vm, p, ip, d);
    }
    TestedReturns(asm, vm, ComparisonOf(p), 4, Branches(p, d.ds.rest.top, d.ds.top), ip, d.(ds := d.ds.rest.rest));
  }

  // ---- memory ----

  lemma FetchReturns(asm: Assembly, vm: Vm, p: Prim, ip: int, d: Data)
    requires Entering(asm, vm, FetchBlock(p), ip, d) && d.ds.Push? && InBlock(d, d.ds.top)
    ensures Returns(asm, vm, 4, ip, d.(ds := Push(d.low[d.ds.top], d.ds.rest)))
  {
    hide BlockSits, RunForms, ThenForm, Steps, Walks, TotalSize, Lines, Read, Bind;
    ReadBind();
    assert Depth(d.ds) == 1 + Depth(d.ds.rest);
    Execute(asm, FetchBlock(p), vm);
    StackEquations(asm.labels);
    MemoryEquations(asm.labels);
    AssignmentEquations(asm.labels);
  }

  lemma StoreReturns(asm: Assembly, vm: Vm, p: Prim, ip: int, d: Data)
    requires Entering(asm, vm, StoreBlock(p), ip, d) && d.ds.Push? && d.ds.rest.Push? && InBlock(d, d.ds.top)
    ensures Returns(asm, vm, 4, ip, d.(low := d.low[d.ds.top := d.ds.rest.top], ds := d.ds.rest.rest))
  {
    hide BlockSits, RunForms, ThenForm, Steps, Walks, TotalSize, Lines, Read, Bind;
    ReadBind();
    Execute(asm, StoreBlock(p), vm);
    StackEquations(asm.labels);
    MemoryEquations(asm.labels);
    AssignmentEquations(asm.labels);
  }

  // ---- return stack ----

  lemma ToRReturns(asm: Assembly, vm: Vm, ip: int, d: Data)
    requires Entering(asm, vm, TO_R_BLOCK, ip, d) && d.ds.Push? && Depth(d.rs) < RETURN_STACK_SIZE
    ensures Returns(asm, vm, 3, ip, d.(rs := Push(d.ds.top, d.rs), ds := d.ds.rest))
  {
    hide BlockSits, RunForms, ThenForm, Steps, Walks, TotalSize, Lines, Read, Bind;
    ReadBind();
    Execute(asm, TO_R_BLOCK, vm);
    StackEquations(asm.labels);
    AssignmentEquations(asm.labels);
  }

  lemma FromRReturns(asm: Assembly, vm: Vm, ip: int, d: Data)
    requires Entering(asm, vm, FROM_R_BLOCK, ip, d) && d.rs.Push? && Depth(d.ds) < DATA_STACK_SIZE
    ensures Returns(asm, vm, 3, ip, d.(rs := d.rs.rest, ds := Push(d.rs.top, d.ds)))
  {
    hide BlockSits, RunForms, ThenForm, Steps, Walks, TotalSize, Lines, Read, Bind;
    ReadBind();
    Execute(asm, FROM_R_BLOCK, vm);
    StackEquations(asm.labels);
    AssignmentEquations(asm.labels);
  }

  lemma RFetchReturns(asm: Assembly, vm: Vm, ip: int, d: Data)
    requires Entering(asm, vm, RFetchBlock, ip, d) && d.rs.Push? && Depth(d.ds) < DATA_STACK_SIZE
    requires Depth(d.rs) <= RETURN_STACK_SIZE
    ensures Returns(asm, vm, 4, ip, d.(ds := Push(d.rs.top, d.ds)))
  {
    hide BlockSits, RunForms, ThenForm, Steps, Walks, TotalSize, Lines, Read, Bind;
    ReadBind();
    assert Depth(d.rs) == 1 + Depth(d.rs.rest);
    Execute(asm, RFetchBlock, vm);
    StackEquations(asm.labels);
    AssignmentEquations(asm.labels);
  }

  // ---- devices ----

  lemma KeyReturns(asm: Assembly, vm: Vm, ip: int, d: Data)
    requires Entering(asm, vm, KEY_BLOCK, ip, d) && d.input != [] && Depth(d.ds) < DATA_STACK_SIZE
    ensures Returns(asm, vm, 3, ip, d.(input := d.input[1..], ds := Push(d.input[0], d.ds)))
  {
    hide BlockSits, RunForms, ThenForm, Steps, Walks, TotalSize, Lines, Read, Bind;
    ReadBind();
    Execute(asm, KEY_BLOCK, vm);
    StackEquations(asm.labels);
    AssignmentEquations(asm.labels);
  }

  lemma EmitReturns(asm: Assembly, vm: Vm, ip: int, d: Data)
    requires Entering(asm, vm, EMIT_BLOCK, ip, d) && d.ds.Push?
    ensures Returns(asm, vm, 3, ip, d.(ds := d.ds.rest, output := d.output + [d.ds.top]))
  {
    hide BlockSits, RunForms, ThenForm, Steps, Walks, TotalSize, Lines, Read, Bind;
    ReadBind();
    Execute(asm, EMIT_BLOCK, vm);
    StackEquations(asm.labels);
    AssignmentEquations(asm.labels);
  }

  // ---- the threading core ----

  /** The inner interpreter: two indirections through the thread, in four steps. */
  lemma NextRuns(asm: Assembly, vm: Vm, ip: int, d: Data)
    requires RegistersApart(asm) && FormsAt(asm, NEXT_BLOCK, vm.pc) && Ready(asm, vm, vm.pc, ip, d)
    requires InBlock(d, ip) && InBlock(d, d.low[ip])
    ensures Steps(asm.program, vm, 4).Ok?
    ensures var vm1 := Steps(asm.program, vm, 4).value;
      Ready(asm, vm1, d.low[d.low[ip]], ip + 1, d) && Read(vm1.regs, Reg(W)) == d.low[ip]
  {
    hide FormsAt, RunForms, ThenForm, Steps, TotalSize, Lines, Read, Bind;
    ReadBind();
    ExecuteLines(asm, NEXT_BLOCK, vm);
    StackEquations(asm.labels);
    ConstantEquations(asm.labels);
    MemoryEquations(asm.labels);
    AssignmentEquations(asm.labels);
  }

  /** Entering a colon definition saves the caller's place and points `IP` past the code field. */
  lemma EnterReturns(asm: Assembly, vm: Vm, ip: int, d: Data)
    requires Entering(asm, vm, ENTER_BLOCK, ip, d) && Depth(d.rs) < RETURN_STACK_SIZE
    ensures Returns(asm, vm, 5, Read(vm.regs, Reg(W)) + 1, d.(rs := Push(ip, d.rs)))
  {
    hide BlockSits, RunForms, ThenForm, Steps, Walks, TotalSize, Lines, Read, Bind;
    ReadBind();
    Execute(asm, ENTER_BLOCK, vm);
    StackEquations(asm.labels);
    ConstantEquations(asm.labels);
    AssignmentEquations(asm.labels);
  }

  lemma LitReturns(asm: Assembly, vm: Vm, ip: int, d: Data)
    requires Entering(asm, vm, LIT_BLOCK, ip, d) && InBlock(d, ip) && Depth(d.ds) < DATA_STACK_SIZE
    ensures Returns(asm, vm, 4, ip + 1, d.(ds := Push(d.low[ip], d.ds)))
  {
    hide BlockSits, RunForms, ThenForm, Steps, Walks, TotalSize, Lines, Read, Bind;
    ReadBind();
    Execute(asm, LIT_BLOCK, vm);
    StackEquations(asm.labels);
    ConstantEquations(asm.labels);
    MemoryEquations(asm.labels);
    AssignmentEquations(asm.labels);
  }

  lemma ExitReturns(asm: Assembly, vm: Vm, ip: int, d: Data)
    requires Entering(asm, vm, EXIT_BLOCK, ip, d) && d.rs.Push?
    ensures Returns(asm, vm, 2, d.rs.top, d.(rs := d.rs.rest))
  {
    hide BlockSits, RunForms, ThenForm, Steps, Walks, TotalSize, Lines, Read, Bind;
    ReadBind();
    Execute(asm, EXIT_BLOCK, vm);
    StackEquations(asm.labels);
    AssignmentEquations(asm.labels);
  }

  lemma ByeHalts(asm: Assembly, vm: Vm, ip: int, d: Data)
    requires Entering(asm, vm, BYE_BLOCK, ip, d)
    ensures Steps(asm.program, vm, 1).Ok? && Walks(asm, vm, 1)
    ensures Steps(asm.program, vm, 1).value.halted && Steps(asm.program, vm, 1).value.d == d
  {
    hide BlockSits, RunForms, ThenForm, Steps, Walks, TotalSize, Lines, Read, Bind;
    ReadBind();
    Execute(asm, BYE_BLOCK, vm);
    AssignmentEquations(asm.labels);
  }

  /** `START` makes `NEXTREG` point at `NEXT` for the rest of the run. */
  lemma StartReturns(asm: Assembly, vm: Vm)
    requires RegistersApart(asm) && FormsAt(asm, START_BLOCK, vm.pc) && !vm.halted && Lbl(NEXT) in asm.labels
    ensures Steps(asm.program, vm, 3).Ok?
    ensures Ready(asm, Steps(asm.program, vm, 3).value, Address(asm, NEXT), Read(vm.regs, Reg(IP)), vm.d)
  {
    hide FormsAt, RunForms, ThenForm, Steps, TotalSize, Lines, Read, Bind;
    ReadBind();
    ExecuteLines(asm, START_BLOCK, vm);
    StackEquations(asm.labels);
    AssignmentEquations(asm.labels);
  }

  // ---- full stacks and empty devices ----

  lemma DupOverflows(asm: Assembly, vm: Vm, ip: int, d: Data)
    requires Entering(asm, vm, DUP_BLOCK, ip, d) && Depth(d.ds) == DATA_STACK_SIZE
    ensures Stumbles(asm, vm, 2, FullData)
  {
    hide BlockSits, RunForms, ThenForm, Steps, Walks, Raises, TotalSize, Lines, Read, Bind;
    ReadBind();
    Execute(asm, DUP_BLOCK, vm);
    StackEquations(asm.labels);
    AssignmentEquations(asm.labels);
    FaultEquations(asm.labels);
    NothingFollows(asm.labels);
  }

  lemma CopyOverflows(asm: Assembly, vm: Vm, p: Prim, ip: int, d: Data)
    requires p == OVER || p == TUCK
    requires Entering(asm, vm, ShuffleBlock(p), ip, d) && Depth(d.ds) == DATA_STACK_SIZE
    ensures Stumbles(asm, vm, 4, FullData)
  {
    hide BlockSits, RunForms, ThenForm, Steps, Walks, Raises, TotalSize, Lines, Read, Bind;
    ReadBind();
    assert d.ds.Push? && Depth(d.ds) == 1 + Depth(d.ds.rest);
    assert d.ds.rest.Push? && Depth(d.ds.rest) == 1 + Depth(d.ds.rest.rest);
    Execute(asm, ShuffleBlock(p), vm);
    StackEquations(asm.labels);
    AssignmentEquations(asm.labels);
    FaultEquations(asm.labels);
    NothingFollows(asm.labels);
  }

  lemma ToROverflows(asm: Assembly, vm: Vm, ip: int, d: Data)
    requires Entering(asm, vm, TO_R_BLOCK, ip, d) && d.ds.Push? && Depth(d.rs) >= RETURN_STACK_SIZE
    ensures Stumbles(asm, vm, 1, FullReturn)
  {
    hide BlockSits, RunForms, ThenForm, Steps, Walks, Raises, TotalSize, Lines, Read, Bind;
    ReadBind();
    Execute(asm, TO_R_BLOCK, vm);
    StackEquations(asm.labels);
    AssignmentEquations(asm.labels);
    FaultEquations(asm.labels);
    NothingFollows(asm.labels);
  }

  lemma FromROverflows(asm: Assembly, vm: Vm, ip: int, d: Data)
    requires Entering(asm, vm, FROM_R_BLOCK, ip, d) && d.rs.Push? && Depth(d.ds) == DATA_STACK_SIZE
    ensures Stumbles(asm, vm, 1, FullData)
  {
    hide BlockSits, RunForms, ThenForm, Steps, Walks, Raises, TotalSize, Lines, Read, Bind;
    ReadBind();
    Execute(asm, FROM_R_BLOCK, vm);
    StackEquations(asm.labels);
    AssignmentEquations(asm.labels);
    FaultEquations(asm.labels);
    NothingFollows(asm.labels);
  }

  lemma RFetchOverflows(asm: Assembly, vm: Vm, ip: int, d: Data)
    requires Entering(asm, vm, RFetchBlock, ip, d) && d.rs.Push? && Depth(d.ds) == DATA_STACK_SIZE
    requires Depth(d.rs) <= RETURN_STACK_SIZE
    ensures Stumbles(asm, vm, 2, FullData)
  {
    hide BlockSits, RunForms, ThenForm, Steps, Walks, Raises, TotalSize, Lines, Read, Bind;
    ReadBind();
    assert Depth(d.rs) == 1 + Depth(d.rs.rest);
    Execute(asm, RFetchBlock, vm);
    StackEquations(asm.labels);
    AssignmentEquations(asm.labels);
    FaultEquations(asm.labels);
    NothingFollows(asm.labels);
  }

  lemma KeyOverflows(asm: Assembly, vm: Vm, ip: int, d: Data)
    requires Entering(asm, vm, KEY_BLOCK, ip, d) && d.input != [] && Depth(d.ds) == DATA_STACK_SIZE
    ensures Stumbles(asm, vm, 1, FullData)
  {
    hide BlockSits, RunForms, ThenForm, Steps, Walks, Raises, TotalSize, Lines, Read, Bind;
    ReadBind();
    Execute(asm, KEY_BLOCK, vm);
    StackEquations(asm.labels);
    AssignmentEquations(asm.labels);
    FaultEquations(asm.labels);
    NothingFollows(asm.labels);
  }

  lemma LitOverflows(asm: Assembly, vm: Vm, ip: int, d: Data)
    requires Entering(asm, vm, LIT_BLOCK, ip, d) && InBlock(d, ip) && Depth(d.ds) == DATA_STACK_SIZE
    ensures Stumbles(asm, vm, 1, FullData)
  {
    hide BlockSits, RunForms, ThenForm, Steps, Walks, Raises, TotalSize, Lines, Read, Bind;
    ReadBind();
    Execute(asm, LIT_BLOCK, vm);
    StackEquations(asm.labels);
    MemoryEquations(asm.labels);
    AssignmentEquations(asm.labels);
    FaultEquations(asm.labels);
    NothingFollows(asm.labels);
  }

  /** A call with no room for the way back. */
  lemma EnterOverflows(asm: Assembly, vm: Vm, ip: int, d: Data)
    requires Entering(asm, vm, ENTER_BLOCK, ip, d) && Depth(d.rs) >= RETURN_STACK_SIZE
    ensures Stumbles(asm, vm, 0, FullReturn)
  {
    hide BlockSits, RunForms, ThenForm, Steps, Walks, Raises, TotalSize, Lines, Read, Bind;
    ReadBind();
    Execute(asm, ENTER_BLOCK, vm);
    AssignmentEquations(asm.labels);
    FaultEquations(asm.labels);
    NothingFollows(asm.labels);
  }

  lemma KeyRunsDry(asm: Assembly, vm: Vm, ip: int, d: Data)
    requires Entering(asm, vm, KEY_BLOCK, ip, d) && d.input == []
    ensures Stumbles(asm, vm, 0, NoInput)
  {
    hide BlockSits, RunForms, ThenForm, Steps, Walks, Raises, TotalSize, Lines, Read, Bind;
    ReadBind();
    Execute(asm, KEY_BLOCK, vm);
    AssignmentEquations(asm.labels);
    FaultEquations(asm.labels);
    NothingFollows(asm.labels);
  }

  /** `R>`, `R@` and `EXIT` on an empty return stack. */
  lemma ReturnRunsDry(asm: Assembly, vm: Vm, forms: seq<Form>, ip: int, d: Data)
    requires forms == FROM_R_BLOCK || forms == RFetchBlock || forms == EXIT_BLOCK
    requires Entering(asm, vm, forms, ip, d) && d.rs.Empty?
    ensures Stumbles(asm, vm, 0, EmptyReturn)
  {
    hide BlockSits, RunForms, ThenForm, Steps, Walks, Raises, TotalSize, Lines, Read, Bind;
    ReadBind();
    Execute(asm, forms, vm);
    AssignmentEquations(asm.labels);
    FaultEquations(asm.labels);
    NothingFollows(asm.labels);
  }
}
