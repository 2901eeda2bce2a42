/** `WORD`: cutting the next token out of the input device into a counted string. */
module WordRoutine {
  import opened Wrappers
  import opened Isa
  import opened Cpu
  import opened Layout
  import opened Stacks
  import opened Assembler
  import opened AbstractMachine
  import opened Blocks
  import opened Forms
  import opened KernelSource
  import opened Symbolic
  import opened Control
  import opened SimpleRoutines
  import opened Words
  import N = NumberRoutine

  ghost predicate WordSits(asm: Assembly, pc: int) {
    && RegistersApart(asm)
    && BlockSits(asm, WORD_BLOCK, pc)
    && Address(asm, WORD_SKIP) == pc + TotalSize(Lines(WORD_BLOCK))
    && N.LabelledAt(asm, WORD_SKIP, WORD_SKIP_BLOCK)
    && BlockSits(asm, WORD_OPEN_BLOCK, Address(asm, WORD_SKIP) + TotalSize(Lines(WORD_SKIP_BLOCK)))
    && Address(asm, WORD_COLLECT)
       == Address(asm, WORD_SKIP) + TotalSize(Lines(WORD_SKIP_BLOCK)) + TotalSize(Lines(WORD_OPEN_BLOCK))
    && N.LabelledAt(asm, WORD_COLLECT, WORD_COLLECT_BLOCK)
    && N.LabelledAt(asm, WORD_END, WORD_END_BLOCK)
  }

  ghost predicate Skipping(asm: Assembly, vm: Vm, pc: int, ip: int, d: Data, delim: int) {
    Ready(asm, vm, pc, ip, d) && Read(vm.regs, Reg(DELIM)) == delim
  }

  /** Mid-token: `k` characters stored, the next one, `c`, in hand. */
  ghost predicate Collecting(asm: Assembly, vm: Vm, pc: int, ip: int, d: Data, delim: int, k: int, c: int) {
    && Skipping(asm, vm, pc, ip, d, delim)
    && Read(vm.regs, Reg(PTR)) == WORD_BUFFER_BASE + 1 + k
    && Read(vm.regs, Reg(LEN)) == k
    && Read(vm.regs, Reg(C)) == c
  }

  lemma WordStarts(asm: Assembly, vm: Vm, ip: int, d: Data)
    requires WordSits(asm, vm.pc) && Ready(asm, vm, vm.pc, ip, d) && d.ds.Push?
    ensures Steps(asm.program, vm, 1).Ok? && Walks(asm, vm, 1)
    ensures Skipping(asm, Steps(asm.program, vm, 1).value, Address(asm, WORD_SKIP), ip, d.(ds := d.ds.rest), d.ds.top)
  {
    hide BlockSits, RunForms, ThenForm, Steps, Walks, TotalSize, Lines, Read, Bind;
    ReadBind();
    Execute(asm, WORD_BLOCK, vm);
    StackEquations(asm.labels);
    AssignmentEquations(asm.labels);
  }

  /** One character of the skipping loop: a delimiter goes round again, anything else falls through in hand. */
  lemma SkipTurn(asm: Assembly, pc: int, vm: Vm, ip: int, d: Data, delim: int)
    requires WordSits(asm, pc) && Skipping(asm, vm, Address(asm, WORD_SKIP), ip, d, delim) && d.input != []
    ensures Steps(asm.program, vm, 5).Ok? && Walks(asm, vm, 5)
    ensures var vm1 := Steps(asm.program, vm, 5).value;
      var goal := if d.input[0] == delim then Address(asm, WORD_SKIP)
                  else Address(asm, WORD_SKIP) + TotalSize(Lines(WORD_SKIP_BLOCK));
      Skipping(asm, vm1, goal, ip, d.(input := d.input[1..]), delim) && Read(vm1.regs, Reg(C)) == d.input[0]
  {
    hide BlockSits, RunForms, ThenForm, Steps, Walks, TotalSize, Lines, Read, Bind;
    ReadBind();
    Execute(asm, WORD_SKIP_BLOCK, vm);
    StackEquations(asm.labels);
    ArithmeticEquations(asm.labels);
    MemoryEquations(asm.labels);
    AssignmentEquations(asm.labels);
  }

  lemma OpenRuns(asm: Assembly, pc: int, vm: Vm, ip: int, d: Data, delim: int, c: int)
    requires WordSits(asm, pc) && Read(vm.regs, Reg(C)) == c
    requires Skipping(asm, vm, Address(asm, WORD_SKIP) + TotalSize(Lines(WORD_SKIP_BLOCK)), ip, d, delim)
    ensures Steps(asm.program, vm, 4).Ok? && Walks(asm, vm, 4)
    ensures Collecting(asm, Steps(asm.program, vm, 4).value, Address(asm, WORD_COLLECT), ip, d, delim, 0, c)
  {
    hide BlockSits, RunForms, ThenForm, Steps, Walks, TotalSize, Lines, Read, Bind;
    ReadBind();
    Execute(asm, WORD_OPEN_BLOCK, vm);
    ArithmeticEquations(asm.labels);
    ConstantEquations(asm.labels);
    AssignmentEquations(asm.labels);
  }

  /** One character of the collecting loop: store the one in hand, read another. */
  lemma CollectTurn(asm: Assembly, pc: int, vm: Vm, ip: int, d: Data, delim: int, k: nat, c: int)
    requires WordSits(asm, pc) && Collecting(asm, vm, Address(asm, WORD_COLLECT), ip, d, delim, k, c)
    requires d.input != [] && WORD_BUFFER_BASE + 1 + k < |d.low|
    ensures var last := d.input[0] == delim;
      var d1 := d.(low := d.low[WORD_BUFFER_BASE + 1 + k := c], input := d.input[1..]);
      var n := if last then 8 else 11;
      && Steps(asm.program, vm, n).Ok? && Walks(asm, vm, n)
      && Collecting(asm, Steps(asm.program, vm, n).value,
                    Address(asm, if last then WORD_END else WORD_COLLECT), ip, d1, delim, k + 1, d.input[0])
  {
    hide BlockSits, RunForms, ThenForm, Steps, Walks, TotalSize, Lines, Read, Bind;
    ReadBind();
    Execute(asm, WORD_COLLECT_BLOCK, vm);
    StackEquations(asm.labels);
    ArithmeticEquations(asm.labels);
    ConstantEquations(asm.labels);
    MemoryEquations(asm.labels);
    AssignmentEquations(asm.labels);
  }

  lemma EndReturns(asm: Assembly, pc: int, vm: Vm, ip: int, d: Data, delim: int, k: nat, c: int)
    requires WordSits(asm, pc) && Collecting(asm, vm, Address(asm, WORD_END), ip, d, delim, k, c)
    requires WORD_BUFFER_BASE < |d.low| && Depth(d.ds) < DATA_STACK_SIZE
    ensures Returns(asm, vm, 5, ip, d.(low := d.low[WORD_BUFFER_BASE := k], ds := Push(WORD_BUFFER_BASE, d.ds)))
  {
    hide BlockSits, RunForms, ThenForm, Steps, Walks, TotalSize, Lines, Read, Bind;
    ReadBind();
    Execute(asm, WORD_END_BLOCK, vm);
    StackEquations(asm.labels);
    MemoryEquations(asm.labels);
    AssignmentEquations(asm.labels);
  }

  /** The block after storing `t` behind `k` characters already there, and the count last of all. */
  function Filled(low: seq<int>, k: nat, t: seq<int>): seq<int>
    requires WORD_BUFFER_BASE + 1 + k + |t| <= |low|
    decreases |t|
  {
    if t == [] then low[WORD_BUFFER_BASE := k]
    else Filled(low[WORD_BUFFER_BASE + 1 + k := t[0]], k + 1, t[1..])
  }

  predicate InText(a: int, k: nat, n: nat) { WORD_BUFFER_BASE + 1 + k <= a < WORD_BUFFER_BASE + 1 + k + n }

  lemma {:induction false} FilledCells(low: seq<int>, k: nat, t: seq<int>)
    requires WORD_BUFFER_BASE + 1 + k + |t| <= |low|
    ensures var f := Filled(low, k, t);
      && |f| == |low|
      && f[WORD_BUFFER_BASE] == k + |t|
      && (forall j :: 0 <= j < |t| ==> f[WORD_BUFFER_BASE + 1 + k + j] == t[j])
      && (forall a :: 0 <= a < |low| && a != WORD_BUFFER_BASE && !InText(a, k, |t|) ==> f[a] == low[a])
    decreases |t|
  {
    if t != [] {
      var low1 := low[WORD_BUFFER_BASE + 1 + k := t[0]];
      FilledCells(low1, k + 1, t[1..]);
      var f := Filled(low, k, t);
      forall j | 0 <= j < |t|
        ensures f[WORD_BUFFER_BASE + 1 + k + j] == t[j]
      {
        if j > 0 {
          assert t[1..][j - 1] == t[j];
          assert f[WORD_BUFFER_BASE + 1 + (k + 1) + (j - 1)] == t[1..][j - 1];
        }
      }
    }
  }

  /** Character by character and count last is the same as writing the counted string at once. */
  lemma FilledIsCounted(low: seq<int>, t: seq<int>)
    requires WORD_BUFFER_BASE + 1 + |t| <= |low|
    ensures Filled(low, 0, t) == WithCounted(low, WORD_BUFFER_BASE, t)
  {
    FilledCells(low, 0, t);
  }

  /** What is left of a token, its closing delimiter, and the rest of the input. */
  predicate Splits(body: seq<int>, t: seq<int>, delim: int, rest: seq<int>) {
    body == t + [delim] + rest && delim !in t
  }

  lemma {:induction false} CollectReturns(
    asm: Assembly, pc: int, vm: Vm, ip: int, d: Data, delim: int, k: nat, t: seq<int>, rest: seq<int>)
    requires t != [] && Splits([t[0]] + d.input, t, delim, rest)
    requires WordSits(asm, pc) && Collecting(asm, vm, Address(asm, WORD_COLLECT), ip, d, delim, k, t[0])
    requires WORD_BUFFER_BASE + 1 + k + |t| <= |d.low| && Depth(d.ds) < DATA_STACK_SIZE
    ensures Returns(asm, vm, 11 * |t| + 2, ip,
                    d.(low := Filled(d.low, k, t), input := rest, ds := Push(WORD_BUFFER_BASE, d.ds)))
    decreases |t|
  {
    hide WordSits, Steps, Walks, Returns, Collecting;
    assert d.input == t[1..] + [delim] + rest by {
      assert ([t[0]] + d.input)[1..] == d.input;
      assert (t + [delim] + rest)[1..] == t[1..] + [delim] + rest;
    }
    CollectTurn(asm, pc, vm, ip, d, delim, k, t[0]);
    var d1 := d.(low := d.low[WORD_BUFFER_BASE + 1 + k := t[0]], input := d.input[1..]);
    if |t| == 1 {
      assert d.input[0] == delim && d.input[1..] == rest;
      var vm1 := Steps(asm.program, vm, 8).value;
      EndReturns(asm, pc, vm1, ip, d1, delim, k + 1, delim);
      assert t[1..] == [];
      assert Filled(d1.low, k + 1, t[1..]) == d1.low[WORD_BUFFER_BASE := k + 1];
      Later(asm, vm, 8, 5, ip, d.(low := Filled(d.low, k, t), input := rest, ds := Push(WORD_BUFFER_BASE, d.ds)));
    } else {
      assert d.input[0] == t[1] != delim;
      var vm1 := Steps(asm.program, vm, 11).value;
      assert [t[1..][0]] + d.input[1..] == t[1..] + [delim] + rest;
      CollectReturns(asm, pc, vm1, ip, d1, delim, k + 1, t[1..], rest);
      Later(asm, vm, 11, 11 * |t[1..]| + 2, ip,
            d.(low := Filled(d.low, k, t), input := rest, ds := Push(WORD_BUFFER_BASE, d.ds)));
    }
  }

  function WordCost(skipped: nat, t: seq<int>): nat { 12 + 5 * skipped + 11 * |t| }

  /** From the skipping loop: `skipped` delimiters, then the token. */
  lemma {:induction false} SkipReturns(
    asm: Assembly, pc: int, vm: Vm, ip: int, d: Data, delim: int, skipped: nat, t: seq<int>, rest: seq<int>)
    requires WordSits(asm, pc) && Skipping(asm, vm, Address(asm, WORD_SKIP), ip, d, delim)
    requires skipped <= |d.input| && (forall i :: 0 <= i < skipped ==> d.input[i] == delim)
    requires t != [] && Splits(d.input[skipped..], t, delim, rest)
    requires WORD_BUFFER_BASE + 1 + |t| <= |d.low| && Depth(d.ds) < DATA_STACK_SIZE
    ensures Returns(asm, vm, WordCost(skipped, t) - 1, ip,
                    d.(low := WithCounted(d.low, WORD_BUFFER_BASE, t), input := rest,
                       ds := Push(WORD_BUFFER_BASE, d.ds)))
    decreases skipped
  {
    hide WordSits, Steps, Walks, Returns, Skipping, Collecting, TotalSize, Lines;
    SkipTurn(asm, pc, vm, ip, d, delim);
    var vm1 := Steps(asm.program, vm, 5).value;
    var d1 := d.(input := d.input[1..]);
    var goal := d.(low := WithCounted(d.low, WORD_BUFFER_BASE, t), input := rest, ds := Push(WORD_BUFFER_BASE, d.ds));
    if skipped > 0 {
      assert d.input[0] == delim;
      assert d.input[1..][skipped - 1..] == d.input[skipped..];
      SkipReturns(asm, pc, vm1, ip, d1, delim, skipped - 1, t, rest);
      Later(asm, vm, 5, WordCost(skipped - 1, t) - 1, ip, goal);
    } else {
      assert d.input[0] == t[0] != delim;
      OpenRuns(asm, pc, vm1, ip, d1, delim, t[0]);
      var vm2 := Steps(asm.program, vm1, 4).value;
      assert [t[0]] + d1.input == d.input[skipped..];
      CollectReturns(asm, pc, vm2, ip, d1, delim, 0, t, rest);
      FilledIsCounted(d.low, t);
      Later(asm, vm1, 4, 11 * |t| + 2, ip, goal);
      Later(asm, vm, 5, 11 * |t| + 6, ip, goal);
    }
  }

  /** For every input made of delimiters, a token, a delimiter and anything else, `WORD` stores
      exactly that token as a counted string in its buffer and consumes exactly that prefix. */
  lemma WordReturns(asm: Assembly, vm: Vm, ip: int, d: Data, skipped: nat, t: seq<int>, rest: seq<int>)
    requires WordSits(asm, vm.pc) && Ready(asm, vm, vm.pc, ip, d) && d.ds.Push? && Depth(d.ds) <= DATA_STACK_SIZE
    requires skipped <= |d.input| && (forall i :: 0 <= i < skipped ==> d.input[i] == d.ds.top)
    requires t != [] && Splits(d.input[skipped..], t, d.ds.top, rest)
    requires WORD_BUFFER_BASE + 1 + |t| <= |d.low|
    ensures Returns(asm, vm, WordCost(skipped, t), ip,
                    d.(low := WithCounted(d.low, WORD_BUFFER_BASE, t), input := rest,
                       ds := Push(WORD_BUFFER_BASE, d.ds.rest)))
  {
    hide WordSits, Steps, Walks, Returns, Skipping, Ready, Splits;
    assert Depth(d.ds) == 1 + Depth(d.ds.rest);
    WordStarts(asm, vm, ip, d);
    var d1 := d.(ds := d.ds.rest);
    SkipReturns(asm, vm.pc, Steps(asm.program, vm, 1).value, ip, d1, d.ds.top, skipped, t, rest);
    Later(asm, vm, 1, WordCost(skipped, t) - 1, ip,
          d1.(low := WithCounted(d.low, WORD_BUFFER_BASE, t), input := rest, ds := Push(WORD_BUFFER_BASE, d1.ds)));
  }

  // ---- the input runs out ----

  lemma SkipRunsDry(asm: Assembly, pc: int, vm: Vm, ip: int, d: Data, delim: int)
    requires WordSits(asm, pc) && Skipping(asm, vm, Address(asm, WORD_SKIP), ip, d, delim) && d.input == []
    ensures Stumbles(asm, vm, 0, NoInput)
  {
    hide BlockSits, RunForms, ThenForm, Steps, Walks, Raises, TotalSize, Lines, Read, Bind;
    ReadBind();
    Execute(asm, WORD_SKIP_BLOCK, vm);
    AssignmentEquations(asm.labels);
    FaultEquations(asm.labels);
    NothingFollows(asm.labels);
  }

  lemma CollectRunsDry(asm: Assembly, pc: int, vm: Vm, ip: int, d: Data, delim: int, k: nat, c: int)
    requires WordSits(asm, pc) && Collecting(asm, vm, Address(asm, WORD_COLLECT), ip, d, delim, k, c)
    requires d.input == [] && WORD_BUFFER_BASE + 1 + k < |d.low|
    ensures Stumbles(asm, vm, 3, NoInput)
  {
    hide BlockSits, RunForms, ThenForm, Steps, Walks, Raises, TotalSize, Lines, Read, Bind;
    ReadBind();
    Execute(asm, WORD_COLLECT_BLOCK, vm);
    ConstantEquations(asm.labels);
    MemoryEquations(asm.labels);
    AssignmentEquations(asm.labels);
    FaultEquations(asm.labels);
    NothingFollows(asm.labels);
  }

  /** A token without a closing delimiter is stored until the input runs out. */
  lemma {:induction false} CollectStumbles(
    asm: Assembly, pc: int, vm: Vm, ip: int, d: Data, delim: int, k: nat, c: int)
    requires WordSits(asm, pc) && Collecting(asm, vm, Address(asm, WORD_COLLECT), ip, d, delim, k, c)
    requires delim !in d.input && WORD_BUFFER_BASE + 1 + k + |d.input| < |d.low|
    ensures Stumbles(asm, vm, 11 * |d.input| + 3, NoInput)
    decreases |d.input|
  {
    hide WordSits, Steps, Walks, Stumbles, Collecting;
    if d.input == [] {
      CollectRunsDry(asm, pc, vm, ip, d, delim, k, c);
    } else {
      assert d.input[0] in d.input;
      CollectTurn(asm, pc, vm, ip, d, delim, k, c);
      var d1 := d.(low := d.low[WORD_BUFFER_BASE + 1 + k := c], input := d.input[1..]);
      CollectStumbles(asm, pc, Steps(asm.program, vm, 11).value, ip, d1, delim, k + 1, d.input[0]);
      StumblesLater(asm, vm, 11, 11 * |d1.input| + 3, NoInput);
    }
  }

  /** The steps `WORD` takes on `skipped` delimiters and `left` other characters, and then no more input. */
  function DryCost(skipped: nat, left: nat): nat {
    if left == 0 then 1 + 5 * skipped else 2 + 5 * skipped + 11 * left
  }

  lemma {:induction false} SkipStumbles(
    asm: Assembly, pc: int, vm: Vm, ip: int, d: Data, delim: int, skipped: nat)
    requires WordSits(asm, pc) && Skipping(asm, vm, Address(asm, WORD_SKIP), ip, d, delim)
    requires skipped <= |d.input| && (forall i :: 0 <= i < skipped ==> d.input[i] == delim)
    requires delim !in d.input[skipped..] && WORD_BUFFER_BASE + |d.input| - skipped < |d.low|
    ensures Stumbles(asm, vm, DryCost(skipped, |d.input| - skipped) - 1, NoInput)
    decreases skipped
  {
    hide WordSits, Steps, Walks, Stumbles, Skipping, Collecting, TotalSize, Lines;
    if d.input == [] {
      SkipRunsDry(asm, pc, vm, ip, d, delim);
    } else {
      SkipTurn(asm, pc, vm, ip, d, delim);
      var vm1 := Steps(asm.program, vm, 5).value;
      var d1 := d.(input := d.input[1..]);
      if skipped > 0 {
        assert d.input[0] == delim;
        assert d.input[1..][skipped - 1..] == d.input[skipped..];
        SkipStumbles(asm, pc, vm1, ip, d1, delim, skipped - 1);
        StumblesLater(asm, vm, 5, DryCost(skipped - 1, |d.input| - skipped) - 1, NoInput);
      } else {
        assert d.input[0] in d.input[skipped..];
        OpenRuns(asm, pc, vm1, ip, d1, delim, d.input[0]);
        assert forall c :: c in d1.input ==> c in d.input[skipped..];
        CollectStumbles(asm, pc, Steps(asm.program, vm1, 4).value, ip, d1, delim, 0, d.input[0]);
        StumblesLater(asm, vm1, 4, 11 * |d1.input| + 3, NoInput);
        StumblesLater(asm, vm, 5, 11 * |d1.input| + 7, NoInput);
      }
    }
  }

  /** Delimiters and then too little input for a token: `WORD` reads it all and is refused more. */
  lemma WordRunsDry(asm: Assembly, vm: Vm, ip: int, d: Data, skipped: nat)
    requires WordSits(asm, vm.pc) && Ready(asm, vm, vm.pc, ip, d) && d.ds.Push?
    requires skipped <= |d.input| && (forall i :: 0 <= i < skipped ==> d.input[i] == d.ds.top)
    requires d.ds.top !in d.input[skipped..] && WORD_BUFFER_BASE + |d.input| - skipped < |d.low|
    ensures Stumbles(asm, vm, DryCost(skipped, |d.input| - skipped), NoInput)
  {
    hide WordSits, Steps, Walks, Stumbles, Skipping, Ready;
    WordStarts(asm, vm, ip, d);
    SkipStumbles(asm, vm.pc, Steps(asm.program, vm, 1).value, ip, d.(ds := d.ds.rest), d.ds.top, skipped);
    StumblesLater(asm, vm, 1, DryCost(skipped, |d.input| - skipped) - 1, NoInput);
  }
}
