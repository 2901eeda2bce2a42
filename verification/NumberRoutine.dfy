/** `NUMBER`: signed decimal parsing of a counted string, digit by digit. */
module NumberRoutine {
  import opened Wrappers
  import opened Isa
  import opened Cpu
  import opened Layout
  import opened Stacks
  import opened Assembler
  import opened AbstractMachine
  import opened SourceMachine
  import opened Blocks
  import opened Forms
  import opened KernelSource
  import opened Symbolic
  import opened Control
  import opened SimpleRoutines
  import opened Words

  ghost predicate LabelledAt(asm: Assembly, l: Label, forms: seq<Form>) {
    Lbl(l) in asm.labels && BlockSits(asm, forms, Address(asm, l))
  }

  /** Where the last stretch of the digit loop starts. */
  function AdvanceAddress(asm: Assembly): int {
    Address(asm, NUM_DIGIT_OK) + TotalSize(Lines(NUM_DIGIT_OK_BLOCK)) + TotalSize(Lines(NUM_DIGIT_ADD_BLOCK))
  }

  ghost predicate NumberSits(asm: Assembly, pc: int) {
    && RegistersApart(asm)
    && BlockSits(asm, NUMBER_BLOCK, pc)
    && BlockSits(asm, NUMBER_SIGN_BLOCK, pc + TotalSize(Lines(NUMBER_BLOCK)))
    && LabelledAt(asm, NUM_NEG, NUM_NEG_BLOCK)
    && Address(asm, NUM_LOOP) == Address(asm, NUM_NEG) + TotalSize(Lines(NUM_NEG_BLOCK))
    && LabelledAt(asm, NUM_LOOP, NUM_LOOP_BLOCK)
    && LabelledAt(asm, NUM_DIGIT_OK, NUM_DIGIT_OK_BLOCK)
    && BlockSits(asm, NUM_DIGIT_ADD_BLOCK, Address(asm, NUM_DIGIT_OK) + TotalSize(Lines(NUM_DIGIT_OK_BLOCK)))
    && BlockSits(asm, NUM_ADVANCE_BLOCK, AdvanceAddress(asm))
    && LabelledAt(asm, NUM_DONE, NUM_DONE_BLOCK)
    && Address(asm, NUM_PUSH) == Address(asm, NUM_DONE) + TotalSize(Lines(NUM_DONE_BLOCK))
    && LabelledAt(asm, NUM_PUSH, NUM_PUSH_BLOCK)
    && LabelledAt(asm, NUM_FAIL, NUM_FAIL_BLOCK)
  }

  /** Mid-parse at `pc`: `len` characters left at `ptr`, `n` read so far, `neg` set after a '-'. */
  ghost predicate Parsing(asm: Assembly, vm: Vm, pc: int, ip: int, d: Data, ptr: int, len: int, n: int, neg: int) {
    && Ready(asm, vm, pc, ip, d)
    && Read(vm.regs, Reg(PTR)) == ptr
    && Read(vm.regs, Reg(LEN)) == len
    && Read(vm.regs, Reg(N)) == n
    && Read(vm.regs, Reg(NEG)) == neg
  }

  // ---- the ends ----

  lemma FailReturns(asm: Assembly, pc: int, vm: Vm, ip: int, d: Data)
    requires NumberSits(asm, pc) && Ready(asm, vm, Address(asm, NUM_FAIL), ip, d)
    requires Depth(d.ds) + 2 <= DATA_STACK_SIZE
    ensures Returns(asm, vm, 4, ip, d.(ds := Push(0, Push(0, d.ds))))
  {
    hide BlockSits, RunForms, ThenForm, Steps, Walks, TotalSize, Lines, Read, Bind;
    ReadBind();
    Execute(asm, NUM_FAIL_BLOCK, vm);
    StackEquations(asm.labels);
    ArithmeticEquations(asm.labels);
    AssignmentEquations(asm.labels);
  }

  lemma PushReturns(asm: Assembly, pc: int, vm: Vm, ip: int, d: Data, n: int)
    requires NumberSits(asm, pc) && Ready(asm, vm, Address(asm, NUM_PUSH), ip, d) && Read(vm.regs, Reg(N)) == n
    requires Depth(d.ds) + 2 <= DATA_STACK_SIZE
    ensures Returns(asm, vm, 5, ip, d.(ds := Push(1, Push(n, d.ds))))
  {
    hide BlockSits, RunForms, ThenForm, Steps, Walks, TotalSize, Lines, Read, Bind;
    ReadBind();
    Execute(asm, NUM_PUSH_BLOCK, vm);
    StackEquations(asm.labels);
    AssignmentEquations(asm.labels);
  }

  lemma NegateStep(asm: Assembly, pc: int, vm: Vm, ip: int, d: Data, n: int, neg: int)
    requires NumberSits(asm, pc) && Ready(asm, vm, Address(asm, NUM_DONE), ip, d)
    requires Read(vm.regs, Reg(N)) == n && Read(vm.regs, Reg(NEG)) == neg
    ensures var k := if neg == 0 then 1 else 5;
      && Steps(asm.program, vm, k).Ok? && Walks(asm, vm, k)
      && Ready(asm, Steps(asm.program, vm, k).value, Address(asm, NUM_PUSH), ip, d)
      && Read(Steps(asm.program, vm, k).value.regs, Reg(N)) == if neg == 0 then n else -n
  {
    hide BlockSits, RunForms, ThenForm, Steps, Walks, TotalSize, Lines, Read, Bind;
    ReadBind();
    Execute(asm, NUM_DONE_BLOCK, vm);
    ArithmeticEquations(asm.labels);
    MemoryEquations(asm.labels);
    AssignmentEquations(asm.labels);
  }

  /** The number is read, or known not to be one; only the pushing is left to do. */
  ghost predicate AtEnd(asm: Assembly, vm: Vm, ip: int, d: Data, n: Option<int>) {
    match n
    case None => Ready(asm, vm, Address(asm, NUM_FAIL), ip, d)
    case Some(v) => Ready(asm, vm, Address(asm, NUM_PUSH), ip, d) && Read(vm.regs, Reg(N)) == v
  }

  ghost predicate Arrives(asm: Assembly, vm: Vm, k: nat, ip: int, d: Data, n: Option<int>) {
    && Steps(asm.program, vm, k).Ok? && Walks(asm, vm, k)
    && AtEnd(asm, Steps(asm.program, vm, k).value, ip, d, n)
  }

  lemma ArrivesLater(asm: Assembly, vm: Vm, k: nat, j: nat, ip: int, d: Data, n: Option<int>)
    requires Steps(asm.program, vm, k).Ok? && Walks(asm, vm, k)
    requires Arrives(asm, Steps(asm.program, vm, k).value, j, ip, d, n)
    ensures Arrives(asm, vm, k + j, ip, d, n)
  {
    hide Walks, AtEnd;
    WalksAdd(asm, vm, k, j);
  }

  /** What `NUMBER` leaves: the value and 1, or two zeros. */
  function Pushed(n: Option<int>, below: Stack): Stack {
    match n
    case None => Push(0, Push(0, below))
    case Some(v) => Push(1, Push(v, below))
  }

  function EndCost(n: Option<int>): nat { if n.Some? then 5 else 4 }

  lemma EndReturns(asm: Assembly, pc: int, vm: Vm, ip: int, d: Data, n: Option<int>)
    requires NumberSits(asm, pc) && AtEnd(asm, vm, ip, d, n) && Depth(d.ds) + 2 <= DATA_STACK_SIZE
    ensures Returns(asm, vm, EndCost(n), ip, d.(ds := Pushed(n, d.ds)))
  {
    hide NumberSits, Returns, Ready;
    if n.Some? {
      PushReturns(asm, pc, vm, ip, d, n.value);
    } else {
      FailReturns(asm, pc, vm, ip, d);
    }
  }

  /** With room for one value only, the second push is refused. */
  lemma EndStumbles(asm: Assembly, pc: int, vm: Vm, ip: int, d: Data, n: Option<int>)
    requires NumberSits(asm, pc) && AtEnd(asm, vm, ip, d, n) && Depth(d.ds) + 1 == DATA_STACK_SIZE
    ensures Stumbles(asm, vm, EndCost(n) - 2, FullData)
  {
    hide BlockSits, RunForms, ThenForm, Steps, Walks, Raises, TotalSize, Lines, Read, Bind;
    ReadBind();
    Execute(asm, if n.Some? then NUM_PUSH_BLOCK else NUM_FAIL_BLOCK, vm);
    StackEquations(asm.labels);
    ArithmeticEquations(asm.labels);
    AssignmentEquations(asm.labels);
    FaultEquations(asm.labels);
    NothingFollows(asm.labels);
  }

  // ---- the loop ----

  lemma LoopEnds(asm: Assembly, pc: int, vm: Vm, ip: int, d: Data, ptr: int, n: int, neg: int)
    requires NumberSits(asm, pc) && Parsing(asm, vm, Address(asm, NUM_LOOP), ip, d, ptr, 0, n, neg)
    ensures Steps(asm.program, vm, 1).Ok? && Walks(asm, vm, 1)
    ensures Parsing(asm, Steps(asm.program, vm, 1).value, Address(asm, NUM_DONE), ip, d, ptr, 0, n, neg)
  {
    hide BlockSits, RunForms, ThenForm, Steps, Walks, TotalSize, Lines, Read, Bind;
    ReadBind();
    Execute(asm, NUM_LOOP_BLOCK, vm);
    StackEquations(asm.labels);
    ConstantEquations(asm.labels);
    MemoryEquations(asm.labels);
    AssignmentEquations(asm.labels);
  }

  lemma LoopRejectsLow(asm: Assembly, pc: int, vm: Vm, ip: int, d: Data, ptr: int, len: int, n: int, neg: int)
    requires NumberSits(asm, pc) && Parsing(asm, vm, Address(asm, NUM_LOOP), ip, d, ptr, len, n, neg)
    requires len != 0 && InBlock(d, ptr) && d.low[ptr] < 48
    ensures Steps(asm.program, vm, 6).Ok? && Walks(asm, vm, 6)
    ensures Ready(asm, Steps(asm.program, vm, 6).value, Address(asm, NUM_FAIL), ip, d)
  {
    hide BlockSits, RunForms, ThenForm, Steps, Walks, TotalSize, Lines, Read, Bind;
    ReadBind();
    Execute(asm, NUM_LOOP_BLOCK, vm);
    StackEquations(asm.labels);
    ConstantEquations(asm.labels);
    MemoryEquations(asm.labels);
    AssignmentEquations(asm.labels);
  }

  lemma LoopRejectsHigh(asm: Assembly, pc: int, vm: Vm, ip: int, d: Data, ptr: int, len: int, n: int, neg: int)
    requires NumberSits(asm, pc) && Parsing(asm, vm, Address(asm, NUM_LOOP), ip, d, ptr, len, n, neg)
    requires len != 0 && InBlock(d, ptr) && d.low[ptr] > 57
    ensures Steps(asm.program, vm, 13).Ok? && Walks(asm, vm, 13)
    ensures Ready(asm, Steps(asm.program, vm, 13).value, Address(asm, NUM_FAIL), ip, d)
  {
    hide BlockSits, RunForms, ThenForm, Steps, Walks, TotalSize, Lines, Read, Bind;
    ReadBind();
    Execute(asm, NUM_LOOP_BLOCK, vm);
    StackEquations(asm.labels);
    ConstantEquations(asm.labels);
    MemoryEquations(asm.labels);
    AssignmentEquations(asm.labels);
  }

  lemma LoopAcceptsDigit(asm: Assembly, pc: int, vm: Vm, ip: int, d: Data, ptr: int, len: int, n: int, neg: int)
    requires NumberSits(asm, pc) && Parsing(asm, vm, Address(asm, NUM_LOOP), ip, d, ptr, len, n, neg)
    requires len != 0 && InBlock(d, ptr) && IsDigit(d.low[ptr])
    ensures Steps(asm.program, vm, 10).Ok? && Walks(asm, vm, 10)
    ensures Parsing(asm, Steps(asm.program, vm, 10).value, Address(asm, NUM_DIGIT_OK), ip, d, ptr, len, n, neg)
    ensures Read(Steps(asm.program, vm, 10).value.regs, Reg(DIGIT)) == d.low[ptr] - 48
  {
    hide BlockSits, RunForms, ThenForm, Steps, Walks, TotalSize, Lines, Read, Bind;
    ReadBind();
    Execute(asm, NUM_LOOP_BLOCK, vm);
    StackEquations(asm.labels);
    ConstantEquations(asm.labels);
    MemoryEquations(asm.labels);
    AssignmentEquations(asm.labels);
  }

  /** Ten times `n`, as 8n + 2n. */
  lemma TimesTen(asm: Assembly, pc: int, vm: Vm, ip: int, d: Data, ptr: int, len: int, n: int, neg: int)
    requires NumberSits(asm, pc) && Parsing(asm, vm, Address(asm, NUM_DIGIT_OK), ip, d, ptr, len, n, neg)
    ensures Steps(asm.program, vm, 8).Ok? && Walks(asm, vm, 8)
    ensures var vm1 := Steps(asm.program, vm, 8).value;
      && Parsing(asm, vm1, Address(asm, NUM_DIGIT_OK) + TotalSize(Lines(NUM_DIGIT_OK_BLOCK)), ip, d, ptr, len, n, neg)
      && Read(vm1.regs, Reg(T)) == 10 * n
      && Read(vm1.regs, Reg(DIGIT)) == Read(vm.regs, Reg(DIGIT))
  {
    hide BlockSits, RunForms, ThenForm, Steps, Walks, TotalSize, Lines, Read, Bind;
    ReadBind();
    Execute(asm, NUM_DIGIT_OK_BLOCK, vm);
    ArithmeticEquations(asm.labels);
    AssignmentEquations(asm.labels);
  }

  lemma AddDigit(asm: Assembly, pc: int, vm: Vm, ip: int, d: Data, ptr: int, len: int, n: int, neg: int)
    requires NumberSits(asm, pc)
    requires Parsing(asm, vm, Address(asm, NUM_DIGIT_OK) + TotalSize(Lines(NUM_DIGIT_OK_BLOCK)), ip, d, ptr, len, n, neg)
    ensures Steps(asm.program, vm, 3).Ok? && Walks(asm, vm, 3)
    ensures Parsing(asm, Steps(asm.program, vm, 3).value, AdvanceAddress(asm), ip, d, ptr, len,
                    Read(vm.regs, Reg(T)) + Read(vm.regs, Reg(DIGIT)), neg)
  {
    hide BlockSits, RunForms, ThenForm, Steps, Walks, TotalSize, Lines, Read, Bind;
    ReadBind();
    Execute(asm, NUM_DIGIT_ADD_BLOCK, vm);
    ArithmeticEquations(asm.labels);
    AssignmentEquations(asm.labels);
  }

  lemma Advance(asm: Assembly, pc: int, vm: Vm, ip: int, d: Data, ptr: int, len: int, n: int, neg: int)
    requires NumberSits(asm, pc) && Parsing(asm, vm, AdvanceAddress(asm), ip, d, ptr, len, n, neg)
    ensures Steps(asm.program, vm, 5).Ok? && Walks(asm, vm, 5)
    ensures Parsing(asm, Steps(asm.program, vm, 5).value, Address(asm, NUM_LOOP), ip, d, ptr + 1, len - 1, n, neg)
  {
    hide BlockSits, RunForms, ThenForm, Steps, Walks, TotalSize, Lines, Read, Bind;
    ReadBind();
    Execute(asm, NUM_ADVANCE_BLOCK, vm);
    StackEquations(asm.labels);
    ConstantEquations(asm.labels);
    AssignmentEquations(asm.labels);
  }

  /** One digit: 26 steps, and Horner's rule on the number so far. */
  lemma DigitTurn(asm: Assembly, pc: int, vm: Vm, ip: int, d: Data, ptr: int, len: int, n: int, neg: int)
    requires NumberSits(asm, pc) && Parsing(asm, vm, Address(asm, NUM_LOOP), ip, d, ptr, len, n, neg)
    requires len != 0 && InBlock(d, ptr) && IsDigit(d.low[ptr])
    ensures Steps(asm.program, vm, 26).Ok? && Walks(asm, vm, 26)
    ensures Parsing(asm, Steps(asm.program, vm, 26).value, Address(asm, NUM_LOOP), ip, d, ptr + 1, len - 1,
                    10 * n + (d.low[ptr] - 48), neg)
  {
    hide NumberSits, Steps, Walks, Parsing, TotalSize, Lines, AdvanceAddress;
    LoopAcceptsDigit(asm, pc, vm, ip, d, ptr, len, n, neg);
    var vm1 := Steps(asm.program, vm, 10).value;
    TimesTen(asm, pc, vm1, ip, d, ptr, len, n, neg);
    var vm2 := Steps(asm.program, vm1, 8).value;
    AddDigit(asm, pc, vm2, ip, d, ptr, len, n, neg);
    var vm3 := Steps(asm.program, vm2, 3).value;
    Advance(asm, pc, vm3, ip, d, ptr, len, 10 * n + (d.low[ptr] - 48), neg);
    WalksAdd(asm, vm, 10, 8);
    WalksAdd(asm, vm, 18, 3);
    WalksAdd(asm, vm, 21, 5);
  }

  /** Horner's rule, continued from `n`. */
  function Horner(n: int, s: seq<int>): int
    decreases |s|
  {
    if s == [] then n else Horner(10 * n + (s[0] - 48), s[1..])
  }

  lemma {:induction false} HornerSnoc(n: int, s: seq<int>, c: int)
    ensures Horner(n, s + [c]) == 10 * Horner(n, s) + (c - 48)
    decreases |s|
  {
    if s == [] {
      assert (s + [c])[1..] == [];
    } else {
      assert (s + [c])[1..] == s[1..] + [c];
      HornerSnoc(10 * n + (s[0] - 48), s[1..], c);
    }
  }

  /** Horner's rule computes the positional value. */
  lemma {:induction false} HornerValue(s: seq<int>)
    ensures Horner(0, s) == DigitsValue(s)
  {
    if s != [] {
      var k := |s| - 1;
      HornerValue(s[..k]);
      HornerSnoc(0, s[..k], s[k]);
      assert s[..k] + [s[k]] == s;
    }
  }

  /** The steps from the loop's head to the end. */
  function LoopSteps(s: seq<int>, negative: bool): nat {
    if s == [] then (if negative then 6 else 2)
    else if s[0] < 48 then 6
    else if s[0] > 57 then 13
    else 26 + LoopSteps(s[1..], negative)
  }

  /** What the loop makes of the characters left, with `n` read so far. */
  function LoopValue(n: int, s: seq<int>, neg: int): Option<int> {
    if AllDigits(s) then Some(if neg == 0 then Horner(n, s) else -Horner(n, s)) else None
  }

  lemma AllDigitsTail(s: seq<int>)
    requires s != [] && IsDigit(s[0])
    ensures AllDigits(s) <==> AllDigits(s[1..])
  {
    assert forall i :: 0 < i < |s| ==> s[i] == s[1..][i - 1];
  }

  lemma {:induction false} LoopArrives(
    asm: Assembly, pc: int, vm: Vm, ip: int, d: Data, ptr: int, s: seq<int>, n: int, neg: int)
    requires NumberSits(asm, pc) && Parsing(asm, vm, Address(asm, NUM_LOOP), ip, d, ptr, |s|, n, neg)
    requires 0 <= ptr && ptr + |s| <= |d.low| && d.low[ptr..ptr + |s|] == s
    ensures Arrives(asm, vm, LoopSteps(s, neg != 0), ip, d, LoopValue(n, s, neg))
    decreases |s|
  {
    hide NumberSits, Steps, Walks, Ready;
    if s == [] {
      LoopEnds(asm, pc, vm, ip, d, ptr, n, neg);
      NegateStep(asm, pc, Steps(asm.program, vm, 1).value, ip, d, n, neg);
      WalksAdd(asm, vm, 1, if neg == 0 then 1 else 5);
    } else {
      assert s[0] == d.low[ptr];
      if IsDigit(s[0]) {
        DigitTurn(asm, pc, vm, ip, d, ptr, |s|, n, neg);
        var vm1 := Steps(asm.program, vm, 26).value;
        var n1 := 10 * n + (s[0] - 48);
        assert d.low[ptr + 1..ptr + |s|] == s[1..];
        LoopArrives(asm, pc, vm1, ip, d, ptr + 1, s[1..], n1, neg);
        AllDigitsTail(s);
        ArrivesLater(asm, vm, 26, LoopSteps(s[1..], neg != 0), ip, d, LoopValue(n1, s[1..], neg));
      } else if s[0] < 48 {
        LoopRejectsLow(asm, pc, vm, ip, d, ptr, |s|, n, neg);
      } else {
        LoopRejectsHigh(asm, pc, vm, ip, d, ptr, |s|, n, neg);
      }
    }
  }

  // ---- the whole routine ----

  lemma NumberOpens(asm: Assembly, vm: Vm, ip: int, d: Data)
    requires NumberSits(asm, vm.pc) && Ready(asm, vm, vm.pc, ip, d) && d.ds.Push? && InBlock(d, d.ds.top)
    ensures var len := d.low[d.ds.top]; var d1 := d.(ds := d.ds.rest);
      && Steps(asm.program, vm, 6).Ok? && Walks(asm, vm, 6)
      && Parsing(asm, Steps(asm.program, vm, 6).value,
                 if len == 0 then Address(asm, NUM_FAIL) else vm.pc + TotalSize(Lines(NUMBER_BLOCK)),
                 ip, d1, d.ds.top + 1, len, 0, 0)
  {
    hide BlockSits, RunForms, ThenForm, Steps, Walks, TotalSize, Lines, Read, Bind;
    ReadBind();
    Execute(asm, NUMBER_BLOCK, vm);
    StackEquations(asm.labels);
    ArithmeticEquations(asm.labels);
    ConstantEquations(asm.labels);
    MemoryEquations(asm.labels);
    AssignmentEquations(asm.labels);
  }

  lemma NumberPlain(asm: Assembly, pc: int, vm: Vm, ip: int, d: Data, ptr: int, len: int)
    requires NumberSits(asm, pc)
    requires Parsing(asm, vm, pc + TotalSize(Lines(NUMBER_BLOCK)), ip, d, ptr, len, 0, 0)
    requires InBlock(d, ptr) && d.low[ptr] != 45
    ensures Steps(asm.program, vm, 8).Ok? && Walks(asm, vm, 8)
    ensures Parsing(asm, Steps(asm.program, vm, 8).value, Address(asm, NUM_LOOP), ip, d, ptr, len, 0, 0)
  {
    hide BlockSits, RunForms, ThenForm, Steps, Walks, TotalSize, Lines, Read, Bind;
    ReadBind();
    Execute(asm, NUMBER_SIGN_BLOCK, vm);
    StackEquations(asm.labels);
    ConstantEquations(asm.labels);
    MemoryEquations(asm.labels);
    AssignmentEquations(asm.labels);
  }

  lemma NumberMinus(asm: Assembly, pc: int, vm: Vm, ip: int, d: Data, ptr: int, len: int)
    requires NumberSits(asm, pc)
    requires Parsing(asm, vm, pc + TotalSize(Lines(NUMBER_BLOCK)), ip, d, ptr, len, 0, 0)
    requires InBlock(d, ptr) && d.low[ptr] == 45
    ensures Steps(asm.program, vm, 5).Ok? && Walks(asm, vm, 5)
    ensures Parsing(asm, Steps(asm.program, vm, 5).value, Address(asm, NUM_NEG), ip, d, ptr, len, 0, 0)
  {
    hide BlockSits, RunForms, ThenForm, Steps, Walks, TotalSize, Lines, Read, Bind;
    ReadBind();
    Execute(asm, NUMBER_SIGN_BLOCK, vm);
    StackEquations(asm.labels);
    ConstantEquations(asm.labels);
    MemoryEquations(asm.labels);
    AssignmentEquations(asm.labels);
  }

  lemma MinusConsumed(asm: Assembly, pc: int, vm: Vm, ip: int, d: Data, ptr: int, len: int)
    requires NumberSits(asm, pc) && Parsing(asm, vm, Address(asm, NUM_NEG), ip, d, ptr, len, 0, 0)
    ensures Steps(asm.program, vm, 5).Ok? && Walks(asm, vm, 5)
    ensures Parsing(asm, Steps(asm.program, vm, 5).value,
                    if len == 1 then Address(asm, NUM_FAIL) else Address(asm, NUM_LOOP), ip, d, ptr + 1, len - 1, 0, 1)
  {
    hide BlockSits, RunForms, ThenForm, Steps, Walks, TotalSize, Lines, Read, Bind;
    ReadBind();
    Execute(asm, NUM_NEG_BLOCK, vm);
    ConstantEquations(asm.labels);
    MemoryEquations(asm.labels);
    AssignmentEquations(asm.labels);
  }

  /** The steps from the entry to the end. */
  function NumberSteps(s: seq<int>): nat {
    if s == [] then 6
    else if s[0] == 45 then (if |s| == 1 then 16 else 16 + LoopSteps(s[1..], true))
    else 14 + LoopSteps(s, false)
  }

  function NumberCost(s: seq<int>): nat { NumberSteps(s) + EndCost(ParseNumber(s)) }

  lemma MinusArrives(asm: Assembly, pc: int, vm: Vm, ip: int, d: Data, ptr: int, s: seq<int>)
    requires NumberSits(asm, pc)
    requires Parsing(asm, vm, pc + TotalSize(Lines(NUMBER_BLOCK)), ip, d, ptr, |s|, 0, 0)
    requires 0 <= ptr && ptr + |s| <= |d.low| && d.low[ptr..ptr + |s|] == s && s != [] && s[0] == 45
    ensures Arrives(asm, vm, NumberSteps(s) - 6, ip, d, ParseNumber(s))
  {
    hide NumberSits, Steps, Walks, Ready, TotalSize;
    assert d.low[ptr] == s[0];
    NumberMinus(asm, pc, vm, ip, d, ptr, |s|);
    var vm1 := Steps(asm.program, vm, 5).value;
    MinusConsumed(asm, pc, vm1, ip, d, ptr, |s|);
    WalksAdd(asm, vm, 5, 5);
    var vm2 := Steps(asm.program, vm, 10).value;
    if |s| > 1 {
      assert d.low[ptr + 1..ptr + |s|] == s[1..];
      LoopArrives(asm, pc, vm2, ip, d, ptr + 1, s[1..], 0, 1);
      HornerValue(s[1..]);
      ArrivesLater(asm, vm, 10, LoopSteps(s[1..], true), ip, d, ParseNumber(s));
    }
  }

  lemma PlainArrives(asm: Assembly, pc: int, vm: Vm, ip: int, d: Data, ptr: int, s: seq<int>)
    requires NumberSits(asm, pc)
    requires Parsing(asm, vm, pc + TotalSize(Lines(NUMBER_BLOCK)), ip, d, ptr, |s|, 0, 0)
    requires 0 <= ptr && ptr + |s| <= |d.low| && d.low[ptr..ptr + |s|] == s && s != [] && s[0] != 45
    ensures Arrives(asm, vm, NumberSteps(s) - 6, ip, d, ParseNumber(s))
  {
    hide NumberSits, Steps, Walks, Ready, TotalSize;
    assert d.low[ptr] == s[0];
    NumberPlain(asm, pc, vm, ip, d, ptr, |s|);
    var vm1 := Steps(asm.program, vm, 8).value;
    LoopArrives(asm, pc, vm1, ip, d, ptr, s, 0, 0);
    HornerValue(s);
    ArrivesLater(asm, vm, 8, LoopSteps(s, false), ip, d, ParseNumber(s));
  }

  /** On every counted string `NUMBER` reaches its end with the signed decimal value of the string. */
  lemma NumberArrives(asm: Assembly, vm: Vm, ip: int, d: Data)
    requires NumberSits(asm, vm.pc) && Ready(asm, vm, vm.pc, ip, d) && d.ds.Push? && Counted(d.low, d.ds.top)
    ensures var s := CountedText(d.low, d.ds.top);
      Arrives(asm, vm, NumberSteps(s), ip, d.(ds := d.ds.rest), ParseNumber(s))
  {
    hide NumberSits, Steps, Walks, Ready, TotalSize, Lines, LoopSteps, AllDigits, DigitsValue;
    var s := CountedText(d.low, d.ds.top);
    var d1 := d.(ds := d.ds.rest);
    NumberOpens(asm, vm, ip, d);
    var vm1 := Steps(asm.program, vm, 6).value;
    if s != [] {
      hide Parsing, ParseNumber, AtEnd;
      if s[0] == 45 {
        MinusArrives(asm, vm.pc, vm1, ip, d1, d.ds.top + 1, s);
      } else {
        PlainArrives(asm, vm.pc, vm1, ip, d1, d.ds.top + 1, s);
      }
      ArrivesLater(asm, vm, 6, NumberSteps(s) - 6, ip, d1, ParseNumber(s));
    }
  }

  function NumberStack(s: seq<int>, below: Stack): Stack { Pushed(ParseNumber(s), below) }

  /** On every counted string `NUMBER` terminates: it pushes the value and 1 when the string is an
      optional '-' and then at least one digit, and two zeros otherwise. */
  lemma NumberReturns(asm: Assembly, vm: Vm, ip: int, d: Data)
    requires NumberSits(asm, vm.pc) && Ready(asm, vm, vm.pc, ip, d)
    requires d.ds.Push? && Counted(d.low, d.ds.top) && Depth(d.ds) < DATA_STACK_SIZE
    ensures Returns(asm, vm, NumberCost(CountedText(d.low, d.ds.top)), ip,
                    d.(ds := NumberStack(CountedText(d.low, d.ds.top), d.ds.rest)))
  {
    hide NumberSits, Steps, Walks, Returns, Ready, AtEnd, Pushed, ParseNumber, CountedText, NumberSteps, EndCost;
    var s := CountedText(d.low, d.ds.top);
    var d1 := d.(ds := d.ds.rest);
    NumberArrives(asm, vm, ip, d);
    EndReturns(asm, vm.pc, Steps(asm.program, vm, NumberSteps(s)).value, ip, d1, ParseNumber(s));
    Later(asm, vm, NumberSteps(s), EndCost(ParseNumber(s)), ip, d1.(ds := Pushed(ParseNumber(s), d1.ds)));
  }

  /** On a full data stack it is refused at the second push. */
  lemma NumberOverflows(asm: Assembly, vm: Vm, ip: int, d: Data)
    requires NumberSits(asm, vm.pc) && Ready(asm, vm, vm.pc, ip, d)
    requires d.ds.Push? && Counted(d.low, d.ds.top) && Depth(d.ds) == DATA_STACK_SIZE
    ensures Stumbles(asm, vm, NumberCost(CountedText(d.low, d.ds.top)) - 2, FullData)
  {
    hide NumberSits, Steps, Walks, Stumbles, Ready, AtEnd, ParseNumber, CountedText, NumberSteps;
    var s := CountedText(d.low, d.ds.top);
    NumberArrives(asm, vm, ip, d);
    assert Depth(d.ds) == 1 + Depth(d.ds.rest);
    EndStumbles(asm, vm.pc, Steps(asm.program, vm, NumberSteps(s)).value, ip, d.(ds := d.ds.rest), ParseNumber(s));
    StumblesLater(asm, vm, NumberSteps(s), EndCost(ParseNumber(s)) - 2, FullData);
  }
}
