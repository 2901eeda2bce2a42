/** `FIND`: searching the dictionary's link chain for a counted string. */
module FindRoutine {
  import opened Wrappers
  import opened Isa
  import opened Cpu
  import opened Layout
  import opened Stacks
  import opened Assembler
  import opened AbstractMachine
  import opened Blocks
  import opened Forms
  import opened KernelSource
  import opened Symbolic
  import opened Control
  import opened SimpleRoutines
  import opened DictionaryShape
  import opened Words
  import N = NumberRoutine

  /** Where the unlabelled stretches of the routine start. */
  function CmpRestAddress(asm: Assembly): int { Address(asm, FIND_CMP) + TotalSize(Lines(FIND_CMP_BLOCK)) }

  function FlagAddress(asm: Assembly): int { Address(asm, FIND_MATCH) + TotalSize(Lines(FIND_MATCH_BLOCK)) }

  function ImmediateAddress(asm: Assembly): int { FlagAddress(asm) + TotalSize(Lines(FIND_FLAG_BLOCK)) }

  ghost predicate FindSits(asm: Assembly, pc: int) {
    && RegistersApart(asm)
    && BlockSits(asm, FIND_BLOCK, pc)
    && Address(asm, FIND_LOOP) == pc + TotalSize(Lines(FIND_BLOCK))
    && N.LabelledAt(asm, FIND_LOOP, FIND_LOOP_BLOCK)
    && N.LabelledAt(asm, FIND_VISIBLE, FIND_VISIBLE_BLOCK)
    && N.LabelledAt(asm, FIND_CMP, FIND_CMP_BLOCK)
    && BlockSits(asm, FIND_CMP_REST_BLOCK, CmpRestAddress(asm))
    && Address(asm, FIND_CHARS) == CmpRestAddress(asm) + TotalSize(Lines(FIND_CMP_REST_BLOCK))
    && N.LabelledAt(asm, FIND_CHARS, FIND_CHARS_BLOCK)
    && N.LabelledAt(asm, FIND_CHAR_OK, FIND_CHAR_OK_BLOCK)
    && N.LabelledAt(asm, FIND_MATCH, FIND_MATCH_BLOCK)
    && BlockSits(asm, FIND_FLAG_BLOCK, FlagAddress(asm))
    && BlockSits(asm, FIND_IMMEDIATE_BLOCK, ImmediateAddress(asm))
    && N.LabelledAt(asm, FIND_NORMAL, FIND_NORMAL_BLOCK)
    && N.LabelledAt(asm, FIND_NEXT, FIND_NEXT_BLOCK)
    && N.LabelledAt(asm, FIND_NOTFOUND, FIND_NOT_FOUND_BLOCK)
  }

  /** Mid-search for the string of `len` characters at `a`, looking at the name field `cur`. */
  ghost predicate Searching(asm: Assembly, vm: Vm, pc: int, ip: int, d: Data, a: int, len: int, cur: int) {
    && Ready(asm, vm, pc, ip, d)
    && Read(vm.regs, Reg(NAMEADDR)) == a
    && Read(vm.regs, Reg(SLEN)) == len
    && Read(vm.regs, Reg(CUR)) == cur
  }

  /** Comparing names, `j` characters already found equal. */
  ghost predicate Comparing(asm: Assembly, vm: Vm, pc: int, ip: int, d: Data, a: int, len: int, cur: int, j: int) {
    && Searching(asm, vm, pc, ip, d, a, len, cur)
    && Read(vm.regs, Reg(WLEN)) == len
    && Read(vm.regs, Reg(WPTR)) == cur + 1 + j
    && Read(vm.regs, Reg(SPTR)) == a + 1 + j
    && Read(vm.regs, Reg(COUNT)) == len - j
  }

  // ---- one block at a time ----

  lemma FindOpens(asm: Assembly, vm: Vm, ip: int, d: Data)
    requires FindSits(asm, vm.pc) && Ready(asm, vm, vm.pc, ip, d)
    requires d.ds.Push? && InBlock(d, d.ds.top) && InBlock(d, LATEST_ADDR)
    ensures Steps(asm.program, vm, 5).Ok? && Walks(asm, vm, 5)
    ensures Searching(asm, Steps(asm.program, vm, 5).value, Address(asm, FIND_LOOP), ip, d.(ds := d.ds.rest),
                      d.ds.top, d.low[d.ds.top], d.low[LATEST_ADDR])
  {
    hide BlockSits, RunForms, ThenForm, Steps, Walks, TotalSize, Lines, Read, Bind;
    ReadBind();
    Execute(asm, FIND_BLOCK, vm);
    StackEquations(asm.labels);
    MemoryEquations(asm.labels);
    AssignmentEquations(asm.labels);
  }

  /** A zero link ends the chain. */
  lemma LoopEnds(asm: Assembly, pc: int, vm: Vm, ip: int, d: Data, a: int, len: int)
    requires FindSits(asm, pc) && Searching(asm, vm, Address(asm, FIND_LOOP), ip, d, a, len, 0)
    ensures Steps(asm.program, vm, 1).Ok? && Walks(asm, vm, 1)
    ensures Ready(asm, Steps(asm.program, vm, 1).value, Address(asm, FIND_NOTFOUND), ip, d)
  {
    hide BlockSits, RunForms, ThenForm, Steps, Walks, TotalSize, Lines, Read, Bind;
    ReadBind();
    Execute(asm, FIND_LOOP_BLOCK, vm);
    MemoryEquations(asm.labels);
    AssignmentEquations(asm.labels);
  }

  lemma LoopSkipsSmudged(asm: Assembly, pc: int, vm: Vm, ip: int, d: Data, a: int, len: int, cur: int)
    requires FindSits(asm, pc) && Searching(asm, vm, Address(asm, FIND_LOOP), ip, d, a, len, cur)
    requires cur != 0 && InBlock(d, cur - 1) && d.low[cur - 1] != 0
    ensures Steps(asm.program, vm, 9).Ok? && Walks(asm, vm, 9)
    ensures Searching(asm, Steps(asm.program, vm, 9).value, Address(asm, FIND_NEXT), ip, d, a, len, cur)
  {
    hide BlockSits, RunForms, ThenForm, Steps, Walks, TotalSize, Lines, Read, Bind;
    ReadBind();
    Execute(asm, FIND_LOOP_BLOCK, vm);
    StackEquations(asm.labels);
    ConstantEquations(asm.labels);
    MemoryEquations(asm.labels);
    AssignmentEquations(asm.labels);
  }

  lemma LoopSeesVisible(asm: Assembly, pc: int, vm: Vm, ip: int, d: Data, a: int, len: int, cur: int)
    requires FindSits(asm, pc) && Searching(asm, vm, Address(asm, FIND_LOOP), ip, d, a, len, cur)
    requires cur != 0 && InBlock(d, cur - 1) && d.low[cur - 1] == 0
    ensures Steps(asm.program, vm, 6).Ok? && Walks(asm, vm, 6)
    ensures Searching(asm, Steps(asm.program, vm, 6).value, Address(asm, FIND_VISIBLE), ip, d, a, len, cur)
  {
    hide BlockSits, RunForms, ThenForm, Steps, Walks, TotalSize, Lines, Read, Bind;
    ReadBind();
    Execute(asm, FIND_LOOP_BLOCK, vm);
    StackEquations(asm.labels);
    ConstantEquations(asm.labels);
    MemoryEquations(asm.labels);
    AssignmentEquations(asm.labels);
  }

  lemma VisibleDiffers(asm: Assembly, pc: int, vm: Vm, ip: int, d: Data, a: int, len: int, cur: int)
    requires FindSits(asm, pc) && Searching(asm, vm, Address(asm, FIND_VISIBLE), ip, d, a, len, cur)
    requires InBlock(d, cur) && d.low[cur] != len
    ensures Steps(asm.program, vm, 8).Ok? && Walks(asm, vm, 8)
    ensures Searching(asm, Steps(asm.program, vm, 8).value, Address(asm, FIND_NEXT), ip, d, a, len, cur)
  {
    hide BlockSits, RunForms, ThenForm, Steps, Walks, TotalSize, Lines, Read, Bind;
    ReadBind();
    Execute(asm, FIND_VISIBLE_BLOCK, vm);
    StackEquations(asm.labels);
    ArithmeticEquations(asm.labels);
    MemoryEquations(asm.labels);
    AssignmentEquations(asm.labels);
  }

  lemma VisibleAgrees(asm: Assembly, pc: int, vm: Vm, ip: int, d: Data, a: int, len: int, cur: int)
    requires FindSits(asm, pc) && Searching(asm, vm, Address(asm, FIND_VISIBLE), ip, d, a, len, cur)
    requires InBlock(d, cur) && d.low[cur] == len
    ensures Steps(asm.program, vm, 5).Ok? && Walks(asm, vm, 5)
    ensures Searching(asm, Steps(asm.program, vm, 5).value, Address(asm, FIND_CMP), ip, d, a, len, cur)
    ensures Read(Steps(asm.program, vm, 5).value.regs, Reg(WLEN)) == len
  {
    hide BlockSits, RunForms, ThenForm, Steps, Walks, TotalSize, Lines, Read, Bind;
    ReadBind();
    Execute(asm, FIND_VISIBLE_BLOCK, vm);
    StackEquations(asm.labels);
    ArithmeticEquations(asm.labels);
    MemoryEquations(asm.labels);
    AssignmentEquations(asm.labels);
  }

  lemma CompareOpens(asm: Assembly, pc: int, vm: Vm, ip: int, d: Data, a: int, len: int, cur: int)
    requires FindSits(asm, pc) && Searching(asm, vm, Address(asm, FIND_CMP), ip, d, a, len, cur)
    requires Read(vm.regs, Reg(WLEN)) == len
    ensures Steps(asm.program, vm, 3).Ok? && Walks(asm, vm, 3)
    ensures Searching(asm, Steps(asm.program, vm, 3).value, CmpRestAddress(asm), ip, d, a, len, cur)
    ensures Read(Steps(asm.program, vm, 3).value.regs, Reg(WLEN)) == len
    ensures Read(Steps(asm.program, vm, 3).value.regs, Reg(WPTR)) == cur + 1
  {
    hide BlockSits, RunForms, ThenForm, Steps, Walks, TotalSize, Lines, Read, Bind;
    ReadBind();
    Execute(asm, FIND_CMP_BLOCK, vm);
    ConstantEquations(asm.labels);
    AssignmentEquations(asm.labels);
  }

  lemma CompareStarts(asm: Assembly, pc: int, vm: Vm, ip: int, d: Data, a: int, len: int, cur: int)
    requires FindSits(asm, pc) && Searching(asm, vm, CmpRestAddress(asm), ip, d, a, len, cur)
    requires Read(vm.regs, Reg(WLEN)) == len && Read(vm.regs, Reg(WPTR)) == cur + 1
    ensures Steps(asm.program, vm, 5).Ok? && Walks(asm, vm, 5)
    ensures Comparing(asm, Steps(asm.program, vm, 5).value, Address(asm, FIND_CHARS), ip, d, a, len, cur, 0)
  {
    hide BlockSits, RunForms, ThenForm, Steps, Walks, TotalSize, Lines, Read, Bind;
    ReadBind();
    Execute(asm, FIND_CMP_REST_BLOCK, vm);
    ConstantEquations(asm.labels);
    AssignmentEquations(asm.labels);
  }

  lemma CharsEnd(asm: Assembly, pc: int, vm: Vm, ip: int, d: Data, a: int, len: int, cur: int, j: int)
    requires FindSits(asm, pc) && Comparing(asm, vm, Address(asm, FIND_CHARS), ip, d, a, len, cur, j)
    requires j == len
    ensures Steps(asm.program, vm, 1).Ok? && Walks(asm, vm, 1)
    ensures Comparing(asm, Steps(asm.program, vm, 1).value, Address(asm, FIND_MATCH), ip, d, a, len, cur, j)
  {
    hide BlockSits, RunForms, ThenForm, Steps, Walks, TotalSize, Lines, Read, Bind;
    ReadBind();
    Execute(asm, FIND_CHARS_BLOCK, vm);
    MemoryEquations(asm.labels);
    AssignmentEquations(asm.labels);
  }

  lemma CharsAgree(asm: Assembly, pc: int, vm: Vm, ip: int, d: Data, a: int, len: int, cur: int, j: int)
    requires FindSits(asm, pc) && Comparing(asm, vm, Address(asm, FIND_CHARS), ip, d, a, len, cur, j)
    requires j != len && InBlock(d, cur + 1 + j) && InBlock(d, a + 1 + j)
    requires d.low[cur + 1 + j] == d.low[a + 1 + j]
    ensures Steps(asm.program, vm, 7).Ok? && Walks(asm, vm, 7)
    ensures Comparing(asm, Steps(asm.program, vm, 7).value, Address(asm, FIND_CHAR_OK), ip, d, a, len, cur, j)
  {
    hide BlockSits, RunForms, ThenForm, Steps, Walks, TotalSize, Lines, Read, Bind;
    ReadBind();
    Execute(asm, FIND_CHARS_BLOCK, vm);
    StackEquations(asm.labels);
    ArithmeticEquations(asm.labels);
    MemoryEquations(asm.labels);
    AssignmentEquations(asm.labels);
  }

  lemma CharsDiffer(asm: Assembly, pc: int, vm: Vm, ip: int, d: Data, a: int, len: int, cur: int, j: int)
    requires FindSits(asm, pc) && Comparing(asm, vm, Address(asm, FIND_CHARS), ip, d, a, len, cur, j)
    requires j != len && InBlock(d, cur + 1 + j) && InBlock(d, a + 1 + j)
    requires d.low[cur + 1 + j] != d.low[a + 1 + j]
    ensures Steps(asm.program, vm, 10).Ok? && Walks(asm, vm, 10)
    ensures Searching(asm, Steps(asm.program, vm, 10).value, Address(asm, FIND_NEXT), ip, d, a, len, cur)
  {
    hide BlockSits, RunForms, ThenForm, Steps, Walks, TotalSize, Lines, Read, Bind;
    ReadBind();
    Execute(asm, FIND_CHARS_BLOCK, vm);
    StackEquations(asm.labels);
    ArithmeticEquations(asm.labels);
    MemoryEquations(asm.labels);
    AssignmentEquations(asm.labels);
  }

  lemma CharAdvances(asm: Assembly, pc: int, vm: Vm, ip: int, d: Data, a: int, len: int, cur: int, j: int)
    requires FindSits(asm, pc) && Comparing(asm, vm, Address(asm, FIND_CHAR_OK), ip, d, a, len, cur, j)
    ensures Steps(asm.program, vm, 6).Ok? && Walks(asm, vm, 6)
    ensures Comparing(asm, Steps(asm.program, vm, 6).value, Address(asm, FIND_CHARS), ip, d, a, len, cur, j + 1)
  {
    hide BlockSits, RunForms, ThenForm, Steps, Walks, TotalSize, Lines, Read, Bind;
    ReadBind();
    Execute(asm, FIND_CHAR_OK_BLOCK, vm);
    StackEquations(asm.labels);
    ConstantEquations(asm.labels);
    AssignmentEquations(asm.labels);
  }

  lemma MatchPushes(asm: Assembly, pc: int, vm: Vm, ip: int, d: Data, a: int, len: int, cur: int)
    requires FindSits(asm, pc) && Searching(asm, vm, Address(asm, FIND_MATCH), ip, d, a, len, cur) && Read(vm.regs, Reg(WLEN)) == len
    requires Depth(d.ds) < DATA_STACK_SIZE
    ensures Steps(asm.program, vm, 5).Ok? && Walks(asm, vm, 5)
    ensures Searching(asm, Steps(asm.program, vm, 5).value, FlagAddress(asm), ip, d.(ds := Push(cur + 1 + len, d.ds)),
                      a, len, cur)
  {
    hide BlockSits, RunForms, ThenForm, Steps, Walks, TotalSize, Lines, Read, Bind;
    ReadBind();
    Execute(asm, FIND_MATCH_BLOCK, vm);
    StackEquations(asm.labels);
    ArithmeticEquations(asm.labels);
    ConstantEquations(asm.labels);
    AssignmentEquations(asm.labels);
  }

  lemma FlagChosen(asm: Assembly, pc: int, vm: Vm, ip: int, d: Data, a: int, len: int, cur: int)
    requires FindSits(asm, pc) && Searching(asm, vm, FlagAddress(asm), ip, d, a, len, cur)
    requires InBlock(d, cur - 2)
    ensures Steps(asm.program, vm, 5).Ok? && Walks(asm, vm, 5)
    ensures Ready(asm, Steps(asm.program, vm, 5).value,
                  if d.low[cur - 2] == 0 then Address(asm, FIND_NORMAL) else ImmediateAddress(asm), ip, d)
  {
    hide BlockSits, RunForms, ThenForm, Steps, Walks, TotalSize, Lines, Read, Bind;
    ReadBind();
    Execute(asm, FIND_FLAG_BLOCK, vm);
    ConstantEquations(asm.labels);
    MemoryEquations(asm.labels);
    AssignmentEquations(asm.labels);
  }

  lemma ImmediateReturns(asm: Assembly, pc: int, vm: Vm, ip: int, d: Data)
    requires FindSits(asm, pc)
    requires Ready(asm, vm, ImmediateAddress(asm), ip, d) && Depth(d.ds) < DATA_STACK_SIZE
    ensures Returns(asm, vm, 4, ip, d.(ds := Push(1, d.ds)))
  {
    hide BlockSits, RunForms, ThenForm, Steps, Walks, TotalSize, Lines, Read, Bind;
    ReadBind();
    Execute(asm, FIND_IMMEDIATE_BLOCK, vm);
    StackEquations(asm.labels);
    AssignmentEquations(asm.labels);
  }

  lemma NormalReturns(asm: Assembly, pc: int, vm: Vm, ip: int, d: Data)
    requires FindSits(asm, pc) && Ready(asm, vm, Address(asm, FIND_NORMAL), ip, d)
    requires Depth(d.ds) < DATA_STACK_SIZE
    ensures Returns(asm, vm, 4, ip, d.(ds := Push(-1, d.ds)))
  {
    hide BlockSits, RunForms, ThenForm, Steps, Walks, TotalSize, Lines, Read, Bind;
    ReadBind();
    Execute(asm, FIND_NORMAL_BLOCK, vm);
    StackEquations(asm.labels);
    ArithmeticEquations(asm.labels);
    ConstantEquations(asm.labels);
    AssignmentEquations(asm.labels);
  }

  lemma NotFoundReturns(asm: Assembly, pc: int, vm: Vm, ip: int, d: Data)
    requires FindSits(asm, pc) && Ready(asm, vm, Address(asm, FIND_NOTFOUND), ip, d)
    requires Depth(d.ds) + 2 <= DATA_STACK_SIZE
    ensures Returns(asm, vm, 4, ip, d.(ds := Push(0, Push(0, d.ds))))
  {
    hide BlockSits, RunForms, ThenForm, Steps, Walks, TotalSize, Lines, Read, Bind;
    ReadBind();
    Execute(asm, FIND_NOT_FOUND_BLOCK, vm);
    StackEquations(asm.labels);
    ArithmeticEquations(asm.labels);
    AssignmentEquations(asm.labels);
  }

  /** The search is over and only its last pushes are left: the flag's, behind the CFA already on the
      stack, or those of two zeros. */
  ghost predicate AtLast(asm: Assembly, vm: Vm, ip: int, d: Data, answer: (int, int)) {
    || (Ready(asm, vm, Address(asm, FIND_NOTFOUND), ip, d) && answer == (0, 0))
    || (Ready(asm, vm, Address(asm, FIND_NORMAL), ip, d.(ds := Push(answer.0, d.ds))) && answer.1 == -1)
    || (Ready(asm, vm, ImmediateAddress(asm), ip, d.(ds := Push(answer.0, d.ds))) && answer.1 == 1)
  }

  ghost predicate Concludes(asm: Assembly, vm: Vm, k: nat, ip: int, d: Data, answer: (int, int)) {
    && Steps(asm.program, vm, k).Ok? && Walks(asm, vm, k)
    && AtLast(asm, Steps(asm.program, vm, k).value, ip, d, answer)
  }

  lemma ConcludesLater(asm: Assembly, vm: Vm, k: nat, j: nat, ip: int, d: Data, answer: (int, int))
    requires Steps(asm.program, vm, k).Ok? && Walks(asm, vm, k)
    requires Concludes(asm, Steps(asm.program, vm, k).value, j, ip, d, answer)
    ensures Concludes(asm, vm, k + j, ip, d, answer)
  {
    hide Walks, AtLast;
    WalksAdd(asm, vm, k, j);
  }

  lemma LastReturns(asm: Assembly, pc: int, vm: Vm, ip: int, d: Data, answer: (int, int))
    requires FindSits(asm, pc) && AtLast(asm, vm, ip, d, answer) && Depth(d.ds) + 2 <= DATA_STACK_SIZE
    ensures Returns(asm, vm, 4, ip, d.(ds := Push(answer.1, Push(answer.0, d.ds))))
  {
    hide FindSits, Returns, Ready, ImmediateAddress;
    var d1 := d.(ds := Push(answer.0, d.ds));
    if Ready(asm, vm, Address(asm, FIND_NOTFOUND), ip, d) && answer == (0, 0) {
      NotFoundReturns(asm, pc, vm, ip, d);
    } else if answer.1 == -1 {
      NormalReturns(asm, pc, vm, ip, d1);
    } else {
      ImmediateReturns(asm, pc, vm, ip, d1);
    }
  }

  /** With room for one value only, the second push is refused. */
  lemma LastStumbles(asm: Assembly, pc: int, vm: Vm, ip: int, d: Data, answer: (int, int))
    requires FindSits(asm, pc) && AtLast(asm, vm, ip, d, answer) && Depth(d.ds) + 1 == DATA_STACK_SIZE
    ensures Stumbles(asm, vm, 2, FullData)
  {
    hide FindSits, Stumbles, Ready, ImmediateAddress;
    var d1 := d.(ds := Push(answer.0, d.ds));
    if Ready(asm, vm, Address(asm, FIND_NOTFOUND), ip, d) && answer == (0, 0) {
      NotFoundStumbles(asm, pc, vm, ip, d);
    } else {
      FlagStumbles(asm, pc, vm, ip, d1);
    }
  }

  lemma NotFoundStumbles(asm: Assembly, pc: int, vm: Vm, ip: int, d: Data)
    requires FindSits(asm, pc) && Ready(asm, vm, Address(asm, FIND_NOTFOUND), ip, d)
    requires Depth(d.ds) + 1 == DATA_STACK_SIZE
    ensures Stumbles(asm, vm, 2, FullData)
  {
    hide BlockSits, RunForms, ThenForm, Steps, Walks, Raises, TotalSize, Lines, Read, Bind;
    ReadBind();
    Execute(asm, FIND_NOT_FOUND_BLOCK, vm);
    StackEquations(asm.labels);
    ArithmeticEquations(asm.labels);
    AssignmentEquations(asm.labels);
    FaultEquations(asm.labels);
    NothingFollows(asm.labels);
  }

  lemma FlagStumbles(asm: Assembly, pc: int, vm: Vm, ip: int, d: Data)
    requires FindSits(asm, pc) && Depth(d.ds) == DATA_STACK_SIZE
    requires Ready(asm, vm, Address(asm, FIND_NORMAL), ip, d) || Ready(asm, vm, ImmediateAddress(asm), ip, d)
    ensures Stumbles(asm, vm, 2, FullData)
  {
    hide BlockSits, RunForms, ThenForm, Steps, Walks, Raises, TotalSize, Lines, Read, Bind, ImmediateAddress;
    ReadBind();
    Execute(asm, if vm.pc == Address(asm, FIND_NORMAL) then FIND_NORMAL_BLOCK else FIND_IMMEDIATE_BLOCK, vm);
    ArithmeticEquations(asm.labels);
    ConstantEquations(asm.labels);
    AssignmentEquations(asm.labels);
    FaultEquations(asm.labels);
    NothingFollows(asm.labels);
  }

  lemma LinkFollowed(asm: Assembly, pc: int, vm: Vm, ip: int, d: Data, a: int, len: int, cur: int)
    requires FindSits(asm, pc) && Searching(asm, vm, Address(asm, FIND_NEXT), ip, d, a, len, cur)
    requires InBlock(d, cur - 3)
    ensures Steps(asm.program, vm, 7).Ok? && Walks(asm, vm, 7)
    ensures Searching(asm, Steps(asm.program, vm, 7).value, Address(asm, FIND_LOOP), ip, d, a, len, d.low[cur - 3])
  {
    hide BlockSits, RunForms, ThenForm, Steps, Walks, TotalSize, Lines, Read, Bind;
    ReadBind();
    Execute(asm, FIND_NEXT_BLOCK, vm);
    StackEquations(asm.labels);
    ConstantEquations(asm.labels);
    MemoryEquations(asm.labels);
    AssignmentEquations(asm.labels);
  }

  // ---- one word of the chain ----

  /** The first place from `j` on where two names of one length differ, or their length. */
  function Agreement(x: seq<int>, y: seq<int>, j: nat): (m: nat)
    requires |x| == |y| && j <= |x|
    ensures j <= m <= |x|
    ensures forall i :: j <= i < m ==> x[i] == y[i]
    ensures m < |x| ==> x[m] != y[m]
    decreases |x| - j
  {
    if j < |x| && x[j] == y[j] then Agreement(x, y, j + 1) else j
  }

  /** The cells of the name under comparison and of the string searched for. */
  predicate NamesAt(d: Data, cur: int, a: int, name: seq<int>, s: seq<int>) {
    && |name| == |s|
    && 0 <= cur && cur + 1 + |name| <= |d.low|
    && 0 <= a && a + 1 + |s| <= |d.low|
    && (forall k :: 0 <= k < |name| ==> d.low[cur + 1 + k] == name[k])
    && (forall k :: 0 <= k < |s| ==> d.low[a + 1 + k] == s[k])
  }

  /** The comparison loop walks over the common characters, thirteen steps each. */
  lemma {:induction false} CharsAdvance(
    asm: Assembly, pc: int, vm: Vm, ip: int, d: Data, a: int, cur: int, name: seq<int>, s: seq<int>, j: nat)
    requires FindSits(asm, pc) && NamesAt(d, cur, a, name, s) && j <= |s|
    requires Comparing(asm, vm, Address(asm, FIND_CHARS), ip, d, a, |s|, cur, j)
    ensures var m := Agreement(name, s, j);
      && Steps(asm.program, vm, 13 * (m - j)).Ok? && Walks(asm, vm, 13 * (m - j))
      && Comparing(asm, Steps(asm.program, vm, 13 * (m - j)).value, Address(asm, FIND_CHARS), ip, d, a, |s|, cur, m)
    decreases |s| - j
  {
    hide FindSits, Steps, Walks, Comparing;
    var m := Agreement(name, s, j);
    if m == j {
      NoWalk(asm, vm);
    } else {
      CharsAgree(asm, pc, vm, ip, d, a, |s|, cur, j);
      CharAdvances(asm, pc, Steps(asm.program, vm, 7).value, ip, d, a, |s|, cur, j);
      WalksAdd(asm, vm, 7, 6);
      CharsAdvance(asm, pc, Steps(asm.program, vm, 13).value, ip, d, a, cur, name, s, j + 1);
      WalksAdd(asm, vm, 13, 13 * (m - (j + 1)));
    }
  }

  /** The steps from the loop's head past a word that does not answer, back to the head. */
  function MissCost(e: WordEntry, s: seq<int>): nat {
    if e.smudge != 0 then 16
    else if |e.name| != |s| then 21
    else 36 + 13 * Agreement(Codes(e.name), s, 0)
  }

  /** The entry whose name field is `cur`, and the string at `a`, in the block. */
  ghost predicate Facing(d: Data, cur: int, e: WordEntry, link: int, a: int, s: seq<int>) {
    && EntryAt(d.low, cur, e, link)
    && Counted(d.low, a) && CountedText(d.low, a) == s
  }

  lemma FacingNames(d: Data, cur: int, e: WordEntry, link: int, a: int, s: seq<int>)
    requires Facing(d, cur, e, link, a, s) && |e.name| == |s|
    ensures NamesAt(d, cur, a, Codes(e.name), s)
  {
    var name := Codes(e.name);
    forall k | 0 <= k < |name|
      ensures d.low[cur + 1 + k] == name[k]
    {
      assert name[k] == e.name[k] as int;
    }
  }

  lemma FacingCells(d: Data, cur: int, e: WordEntry, link: int, a: int, s: seq<int>)
    requires Facing(d, cur, e, link, a, s)
    ensures cur != 0 && InBlock(d, cur) && InBlock(d, cur - 1) && InBlock(d, cur - 2) && InBlock(d, cur - 3)
    ensures d.low[cur] == |e.name| && d.low[cur - 1] == e.smudge && d.low[cur - 2] == e.immediate
    ensures d.low[cur - 3] == link
  {
  }

  /** From the head of the loop to the start of the name comparison. */
  lemma ReachesCompare(asm: Assembly, pc: int, vm: Vm, ip: int, d: Data, a: int, cur: int, e: WordEntry, link: int, s: seq<int>)
    requires FindSits(asm, pc) && Searching(asm, vm, Address(asm, FIND_LOOP), ip, d, a, |s|, cur)
    requires Facing(d, cur, e, link, a, s) && e.smudge == 0 && |e.name| == |s|
    ensures Steps(asm.program, vm, 19).Ok? && Walks(asm, vm, 19)
    ensures Comparing(asm, Steps(asm.program, vm, 19).value, Address(asm, FIND_CHARS), ip, d, a, |s|, cur, 0)
  {
    hide FindSits, Steps, Walks, Searching, Comparing, Facing;
    FacingCells(d, cur, e, link, a, s);
    LoopSeesVisible(asm, pc, vm, ip, d, a, |s|, cur);
    var vm1 := Steps(asm.program, vm, 6).value;
    VisibleAgrees(asm, pc, vm1, ip, d, a, |s|, cur);
    var vm2 := Steps(asm.program, vm1, 5).value;
    CompareOpens(asm, pc, vm2, ip, d, a, |s|, cur);
    var vm3 := Steps(asm.program, vm2, 3).value;
    CompareStarts(asm, pc, vm3, ip, d, a, |s|, cur);
    WalksAdd(asm, vm, 6, 5);
    WalksAdd(asm, vm, 11, 3);
    WalksAdd(asm, vm, 14, 5);
  }

  /** A word that does not answer is left for the one it links to. */
  lemma WordMissed(asm: Assembly, pc: int, vm: Vm, ip: int, d: Data, a: int, cur: int, e: WordEntry, link: int, s: seq<int>)
    requires FindSits(asm, pc) && Searching(asm, vm, Address(asm, FIND_LOOP), ip, d, a, |s|, cur)
    requires Facing(d, cur, e, link, a, s) && !Answers(e, s)
    ensures Steps(asm.program, vm, MissCost(e, s)).Ok? && Walks(asm, vm, MissCost(e, s))
    ensures Searching(asm, Steps(asm.program, vm, MissCost(e, s)).value, Address(asm, FIND_LOOP), ip, d, a, |s|, link)
  {
    hide FindSits, Steps, Walks, Searching, Facing, Answers;
    FacingCells(d, cur, e, link, a, s);
    MissReachesNext(asm, pc, vm, ip, d, a, cur, e, link, s);
    var n := MissCost(e, s) - 7;
    LinkFollowed(asm, pc, Steps(asm.program, vm, n).value, ip, d, a, |s|, cur);
    WalksAdd(asm, vm, n, 7);
  }

  lemma MissReachesNext(
    asm: Assembly, pc: int, vm: Vm, ip: int, d: Data, a: int, cur: int, e: WordEntry, link: int, s: seq<int>)
    requires FindSits(asm, pc) && Searching(asm, vm, Address(asm, FIND_LOOP), ip, d, a, |s|, cur)
    requires Facing(d, cur, e, link, a, s) && !Answers(e, s)
    ensures Steps(asm.program, vm, MissCost(e, s) - 7).Ok? && Walks(asm, vm, MissCost(e, s) - 7)
    ensures Searching(asm, Steps(asm.program, vm, MissCost(e, s) - 7).value, Address(asm, FIND_NEXT), ip, d, a, |s|, cur)
  {
    hide FindSits, Steps, Walks, Searching, Facing;
    FacingCells(d, cur, e, link, a, s);
    if e.smudge != 0 {
      LoopSkipsSmudged(asm, pc, vm, ip, d, a, |s|, cur);
    } else if |e.name| != |s| {
      LoopSeesVisible(asm, pc, vm, ip, d, a, |s|, cur);
      VisibleDiffers(asm, pc, Steps(asm.program, vm, 6).value, ip, d, a, |s|, cur);
      WalksAdd(asm, vm, 6, 8);
    } else {
      NameMissed(asm, pc, vm, ip, d, a, cur, e, link, s);
    }
  }

  lemma NameMissed(asm: Assembly, pc: int, vm: Vm, ip: int, d: Data, a: int, cur: int, e: WordEntry, link: int, s: seq<int>)
    requires FindSits(asm, pc) && Searching(asm, vm, Address(asm, FIND_LOOP), ip, d, a, |s|, cur)
    requires Facing(d, cur, e, link, a, s) && e.smudge == 0 && |e.name| == |s| && Codes(e.name) != s
    ensures Steps(asm.program, vm, MissCost(e, s) - 7).Ok? && Walks(asm, vm, MissCost(e, s) - 7)
    ensures Searching(asm, Steps(asm.program, vm, MissCost(e, s) - 7).value, Address(asm, FIND_NEXT), ip, d, a, |s|, cur)
  {
    hide FindSits, Steps, Walks, Searching, Comparing, Facing;
    ReachesCompare(asm, pc, vm, ip, d, a, cur, e, link, s);
    var vm1 := Steps(asm.program, vm, 19).value;
    FacingNames(d, cur, e, link, a, s);
    CharsAdvance(asm, pc, vm1, ip, d, a, cur, Codes(e.name), s, 0);
    var m := Agreement(Codes(e.name), s, 0);
    assert m < |s|;
    CharsDiffer(asm, pc, Steps(asm.program, vm1, 13 * m).value, ip, d, a, |s|, cur, m);
    WalksAdd(asm, vm, 19, 13 * m);
    WalksAdd(asm, vm, 19 + 13 * m, 10);
  }

  /** The word that answers: its CFA and its flag. */
  lemma WordFound(asm: Assembly, pc: int, vm: Vm, ip: int, d: Data, a: int, cur: int, e: WordEntry, link: int, s: seq<int>)
    requires FindSits(asm, pc) && Searching(asm, vm, Address(asm, FIND_LOOP), ip, d, a, |s|, cur)
    requires Facing(d, cur, e, link, a, s) && Answers(e, s) && Depth(d.ds) < DATA_STACK_SIZE
    ensures Concludes(asm, vm, 30 + 13 * |s|, ip, d, (cur + 1 + |s|, if e.immediate == 0 then -1 else 1))
  {
    hide FindSits, Steps, Walks, Searching, Facing, AtLast;
    FacingCells(d, cur, e, link, a, s);
    ReachesCompare(asm, pc, vm, ip, d, a, cur, e, link, s);
    var vm1 := Steps(asm.program, vm, 19).value;
    FacingNames(d, cur, e, link, a, s);
    CharsAdvance(asm, pc, vm1, ip, d, a, cur, Codes(e.name), s, 0);
    assert Agreement(Codes(e.name), s, 0) == |s|;
    var vm2 := Steps(asm.program, vm1, 13 * |s|).value;
    CharsEnd(asm, pc, vm2, ip, d, a, |s|, cur, |s|);
    var vm3 := Steps(asm.program, vm2, 1).value;
    WalksAdd(asm, vm, 19, 13 * |s|);
    WalksAdd(asm, vm, 19 + 13 * |s|, 1);
    MatchConcludes(asm, pc, vm3, ip, d, a, |s|, cur);
    ConcludesLater(asm, vm, 20 + 13 * |s|, 10, ip, d, (cur + 1 + |s|, if e.immediate == 0 then -1 else 1));
  }

  lemma MatchConcludes(asm: Assembly, pc: int, vm: Vm, ip: int, d: Data, a: int, len: int, cur: int)
    requires FindSits(asm, pc) && Searching(asm, vm, Address(asm, FIND_MATCH), ip, d, a, len, cur)
    requires Read(vm.regs, Reg(WLEN)) == len && InBlock(d, cur - 2) && Depth(d.ds) < DATA_STACK_SIZE
    ensures Concludes(asm, vm, 10, ip, d, (cur + 1 + len, if d.low[cur - 2] == 0 then -1 else 1))
  {
    hide FindSits, Steps, Walks, Searching, Ready;
    MatchPushes(asm, pc, vm, ip, d, a, len, cur);
    var vm1 := Steps(asm.program, vm, 5).value;
    FlagChosen(asm, pc, vm1, ip, d.(ds := Push(cur + 1 + len, d.ds)), a, len, cur);
    WalksAdd(asm, vm, 5, 5);
  }

  // ---- the whole chain ----

  /** The steps from the head of the loop to the last pushes, with the first `n` words still to look at. */
  function ChainCost(es: seq<WordEntry>, s: seq<int>, n: nat): nat
    requires n <= |es|
  {
    if n == 0 then 1
    else if Answers(es[n - 1], s) then 30 + 13 * |s|
    else MissCost(es[n - 1], s) + ChainCost(es, s, n - 1)
  }

  function FindCost(es: seq<WordEntry>, s: seq<int>): nat { 9 + ChainCost(es, s, |es|) }

  function Answer(es: seq<WordEntry>, s: seq<int>, n: nat): (int, int)
    requires n <= |es|
  {
    if n == 0 then (0, 0)
    else if Answers(es[n - 1], s) then (Cfa(es, n - 1), if es[n - 1].immediate == 0 then -1 else 1)
    else Answer(es, s, n - 1)
  }

  lemma {:induction false} AnswerIsNewest(es: seq<WordEntry>, s: seq<int>, n: nat)
    requires n <= |es|
    ensures Newest(es, s, n).None? ==> Answer(es, s, n) == (0, 0)
    ensures Newest(es, s, n).Some? ==>
      var i := Newest(es, s, n).value;
      i < n && Answers(es[i], s) && Answer(es, s, n) == (Cfa(es, i), if es[i].immediate == 0 then -1 else 1)
  {
    if n > 0 && !Answers(es[n - 1], s) {
      AnswerIsNewest(es, s, n - 1);
    }
  }

  lemma ChainFacing(d: Data, es: seq<WordEntry>, i: nat, a: int, s: seq<int>)
    requires Chain(d.low, es) && i < |es|
    requires Counted(d.low, a) && CountedText(d.low, a) == s
    ensures Facing(d, Link(es, i + 1), es[i], Link(es, i), a, s)
  {
    assert EntryIn(d.low, es, i);
  }

  lemma {:induction false} ChainConcludes(
    asm: Assembly, pc: int, vm: Vm, ip: int, d: Data, a: int, s: seq<int>, es: seq<WordEntry>, n: nat)
    requires FindSits(asm, pc) && n <= |es|
    requires Searching(asm, vm, Address(asm, FIND_LOOP), ip, d, a, |s|, Link(es, n))
    requires Chain(d.low, es) && Counted(d.low, a) && CountedText(d.low, a) == s
    requires Depth(d.ds) < DATA_STACK_SIZE
    ensures Concludes(asm, vm, ChainCost(es, s, n), ip, d, Answer(es, s, n))
    decreases n
  {
    hide FindSits, Steps, Walks, Searching, Ready, Chain, MissCost, Answers, Facing, NameField, ImmediateAddress;
    if n == 0 {
      LoopEnds(asm, pc, vm, ip, d, a, |s|);
    } else {
      var e, link := es[n - 1], Link(es, n - 1);
      ChainFacing(d, es, n - 1, a, s);
      if Answers(e, s) {
        AnswerShape(e, s);
        WordFound(asm, pc, vm, ip, d, a, Link(es, n), e, link, s);
      } else {
        WordMissed(asm, pc, vm, ip, d, a, Link(es, n), e, link, s);
        var vm1 := Steps(asm.program, vm, MissCost(e, s)).value;
        ChainConcludes(asm, pc, vm1, ip, d, a, s, es, n - 1);
        ConcludesLater(asm, vm, MissCost(e, s), ChainCost(es, s, n - 1), ip, d, Answer(es, s, n));
      }
    }
  }

  lemma AnswerShape(e: WordEntry, s: seq<int>)
    requires Answers(e, s)
    ensures |e.name| == |s|
  {
  }

  lemma ChainLatest(d: Data, es: seq<WordEntry>)
    requires Chain(d.low, es)
    ensures InBlock(d, LATEST_ADDR) && d.low[LATEST_ADDR] == Link(es, |es|)
  {
  }

  lemma FoundIsAnswer(es: seq<WordEntry>, s: seq<int>)
    ensures Found(es, s) == Answer(es, s, |es|)
  {
    AnswerIsNewest(es, s, |es|);
  }

  /** On every well-formed dictionary and every counted string the search comes to its end with what
      searching the list of words newest first answers. */
  lemma FindConcludes(asm: Assembly, vm: Vm, ip: int, d: Data, es: seq<WordEntry>)
    requires FindSits(asm, vm.pc) && Ready(asm, vm, vm.pc, ip, d) && Chain(d.low, es)
    requires d.ds.Push? && Counted(d.low, d.ds.top) && Depth(d.ds) <= DATA_STACK_SIZE
    ensures var s := CountedText(d.low, d.ds.top);
      Concludes(asm, vm, FindCost(es, s) - 4, ip, d.(ds := d.ds.rest), Found(es, s))
  {
    hide FindSits, Steps, Walks, Searching, Concludes, Ready, Chain, ChainCost, Found, Answer, Link, CountedText;
    var a, s := d.ds.top, CountedText(d.low, d.ds.top);
    var d1 := d.(ds := d.ds.rest);
    assert Depth(d.ds) == 1 + Depth(d1.ds);
    FoundIsAnswer(es, s);
    ChainLatest(d, es);
    FindOpens(asm, vm, ip, d);
    ChainConcludes(asm, vm.pc, Steps(asm.program, vm, 5).value, ip, d1, a, s, es, |es|);
    ConcludesLater(asm, vm, 5, ChainCost(es, s, |es|), ip, d1, Found(es, s));
  }

  /** On every well-formed dictionary and every counted string `FIND` terminates, changes nothing
      but the data stack, and pushes what searching the list of words newest first answers. */
  lemma FindReturns(asm: Assembly, vm: Vm, ip: int, d: Data, es: seq<WordEntry>)
    requires FindSits(asm, vm.pc) && Ready(asm, vm, vm.pc, ip, d)
    requires d.ds.Push? && Counted(d.low, d.ds.top) && Depth(d.ds) < DATA_STACK_SIZE
    requires Chain(d.low, es)
    ensures var s := CountedText(d.low, d.ds.top);
      Returns(asm, vm, FindCost(es, s), ip, d.(ds := Push(Found(es, s).1, Push(Found(es, s).0, d.ds.rest))))
  {
    hide FindSits, Steps, Walks, AtLast, Returns, Ready, Chain, ChainCost, Found, CountedText;
    var s := CountedText(d.low, d.ds.top);
    var n := FindCost(es, s) - 4;
    var d1 := d.(ds := d.ds.rest);
    assert Depth(d.ds) == 1 + Depth(d1.ds);
    FindConcludes(asm, vm, ip, d, es);
    LastReturns(asm, vm.pc, Steps(asm.program, vm, n).value, ip, d1, Found(es, s));
    Later(asm, vm, n, 4, ip, d1.(ds := Push(Found(es, s).1, Push(Found(es, s).0, d1.ds))));
  }

  /** On a full data stack it is refused at the second push. */
  lemma FindOverflows(asm: Assembly, vm: Vm, ip: int, d: Data, es: seq<WordEntry>)
    requires FindSits(asm, vm.pc) && Ready(asm, vm, vm.pc, ip, d) && Chain(d.low, es)
    requires d.ds.Push? && Counted(d.low, d.ds.top) && Depth(d.ds) == DATA_STACK_SIZE
    ensures Stumbles(asm, vm, FindCost(es, CountedText(d.low, d.ds.top)) - 2, FullData)
  {
    hide FindSits, Steps, Walks, AtLast, Stumbles, Ready, Chain, ChainCost, Found, CountedText;
    var s := CountedText(d.low, d.ds.top);
    var n := FindCost(es, s) - 4;
    assert Depth(d.ds) == 1 + Depth(d.ds.rest);
    FindConcludes(asm, vm, ip, d, es);
    LastStumbles(asm, vm.pc, Steps(asm.program, vm, n).value, ip, d.(ds := d.ds.rest), Found(es, s));
    StumblesLater(asm, vm, n, 2, FullData);
  }
}
