/** The shared memory refines the separated one: as long as no `STORE` reaches a stack region,
    neither stack, nor the other stack, nor the dictionary block can disturb one another. */
module Separation {
  import opened Wrappers
  import opened Isa
  import opened Cpu
  import opened Layout
  import opened Stacks
  import opened Machine
  import A = AbstractMachine

  function DataStack(m: State): Stack requires Sound(m) { StackAt(m.mem, m.dsp, DATA_STACK_BASE) }

  function ReturnStack(m: State): Stack requires Sound(m) { StackAt(m.mem, m.rsp, RETURN_STACK_BASE) }

  /** The separated reading of a machine state. */
  function View(m: State): A.Vm
    requires Sound(m)
  {
    A.Vm(m.pc, m.halted, m.regs,
         A.Data(m.mem[..DICTIONARY_SIZE], DataStack(m), ReturnStack(m), m.input, m.output))
  }

  /** The effect the next step has, if it gets that far. */
  function NextEffect(program: seq<InstructionDto>, m: State): Result<Effect, MachineError> {
    EffectAt(program, m.pc, m.regs)
  }

  /** A `STORE` that lands in one of the two stack regions. */
  predicate HitsStack(e: Effect) {
    e.Store? && ListIndex(e.address, MEMORY_SIZE).Some? && ListIndex(e.address, MEMORY_SIZE).value >= DICTIONARY_SIZE
  }

  /** What an effect does to a LIFO that sits alone in the world. */
  function DataAfter(e: Effect, s: Stack): Stack {
    match e
    case PushData(v) => Push(v, s)
    case PopData(_) => if s.Push? then s.rest else s
    case _ => s
  }

  function ReturnAfter(e: Effect, s: Stack): Stack {
    match e
    case PushReturn(v) => Push(v, s)
    case PopReturn(_) => if s.Push? then s.rest else s
    case _ => s
  }

  /** What an effect does to the dictionary block. */
  function BlockAfter(e: Effect, low: seq<int>): seq<int>
    requires |low| == DICTIONARY_SIZE
  {
    if e.Store? && ListIndex(e.address, MEMORY_SIZE).Some? && ListIndex(e.address, MEMORY_SIZE).value < DICTIONARY_SIZE
    then low[ListIndex(e.address, MEMORY_SIZE).value := e.value] else low
  }

  lemma WriteBelow(mem: seq<int>, k: nat, v: int, pointer: int, base: int)
    requires k < |mem|
    requires 0 <= pointer <= base <= |mem|
    requires k < pointer || base <= k
    ensures StackAt(mem[k := v], pointer, base) == StackAt(mem, pointer, base)
  {
    StackAtFrame(mem, mem[k := v], pointer, base);
  }

  /** One effect on the shared memory acts on each region exactly as it would on that region alone. */
  lemma ApplySeparates(e: Effect, m: State)
    requires Sound(m) && !HitsStack(e)
    requires Apply(e, m).Ok?
    ensures var m' := Apply(e, m).value;
      && Sound(m')
      && DataStack(m') == DataAfter(e, DataStack(m))
      && ReturnStack(m') == ReturnAfter(e, ReturnStack(m))
      && m'.mem[..DICTIONARY_SIZE] == BlockAfter(e, m.mem[..DICTIONARY_SIZE])
  {
    match e
    case Store(a, v) =>
      var k := ListIndex(a, |m.mem|).value;
      WriteBelow(m.mem, k, v, m.dsp, DATA_STACK_BASE);
      WriteBelow(m.mem, k, v, m.rsp, RETURN_STACK_BASE);
    case PushData(v) =>
      WriteBelow(m.mem, m.dsp - 1, v, m.dsp, DATA_STACK_BASE);
      WriteBelow(m.mem, m.dsp - 1, v, m.rsp, RETURN_STACK_BASE);
      assert m.mem[m.dsp - 1 := v][..DICTIONARY_SIZE] == m.mem[..DICTIONARY_SIZE];
    case PushReturn(v) =>
      WriteBelow(m.mem, m.rsp - 1, v, m.dsp, DATA_STACK_BASE);
      WriteBelow(m.mem, m.rsp - 1, v, m.rsp, RETURN_STACK_BASE);
      assert m.mem[m.rsp - 1 := v][..DICTIONARY_SIZE] == m.mem[..DICTIONARY_SIZE];
    case _ =>
  }

  /** The first `n` effects of a run, oldest first. */
  function Effects(program: seq<InstructionDto>, m: State, n: nat): seq<Effect>
    requires Sound(m) && Steps(program, m, n).Ok?
    decreases n
  {
    if n == 0 then []
    else
      StepSound(program, m);
      [NextEffect(program, m).value] + Effects(program, Step(program, m).value, n - 1)
  }

  function FoldData(es: seq<Effect>, s: Stack): Stack {
    if es == [] then s else FoldData(es[1..], DataAfter(es[0], s))
  }

  function FoldReturn(es: seq<Effect>, s: Stack): Stack {
    if es == [] then s else FoldReturn(es[1..], ReturnAfter(es[0], s))
  }

  lemma StepApplies(program: seq<InstructionDto>, m: State)
    requires Sound(m) && Step(program, m).Ok?
    ensures NextEffect(program, m).Ok?
    ensures Apply(NextEffect(program, m).value, m.(pc := m.pc + 1)) == Step(program, m)
  {
  }

  /** Whole runs: after any number of steps whose `STORE`s avoid the stack regions, each stack is
      the LIFO obtained by replaying its own pushes and pops and nothing else, and its depth is
      the distance of its pointer from its base. */
  lemma {:induction false} RunSeparates(program: seq<InstructionDto>, m: State, n: nat)
    requires Sound(m) && Steps(program, m, n).Ok?
    requires forall e :: e in Effects(program, m, n) ==> !HitsStack(e)
    ensures var m' := Steps(program, m, n).value;
      && DataStack(m') == FoldData(Effects(program, m, n), DataStack(m))
      && ReturnStack(m') == FoldReturn(Effects(program, m, n), ReturnStack(m))
      && Depth(DataStack(m')) == DATA_STACK_BASE - m'.dsp <= DATA_STACK_SIZE
      && Depth(ReturnStack(m')) == RETURN_STACK_BASE - m'.rsp <= RETURN_STACK_SIZE
      && ((forall e :: e in Effects(program, m, n) ==> !e.Store?) ==>
            m'.mem[..DICTIONARY_SIZE] == m.mem[..DICTIONARY_SIZE])
    decreases n
  {
    hide Step, Apply, NextEffect, DataAfter, ReturnAfter, HitsStack, StackAt;
    if n == 0 {
      StackAtDepth(m.mem, m.dsp, DATA_STACK_BASE);
      StackAtDepth(m.mem, m.rsp, RETURN_STACK_BASE);
    } else {
      StepSound(program, m);
      StepApplies(program, m);
      var es := Effects(program, m, n);
      assert es[0] in es && es[1..] == Effects(program, Step(program, m).value, n - 1);
      assert forall e :: e in es[1..] ==> e in es;
      ApplySeparates(es[0], m.(pc := m.pc + 1));
      RunSeparates(program, Step(program, m).value, n - 1);
    }
  }

  /** A `LOAD` or `STORE` at an address outside the dictionary block. */
  predicate Leaves(e: Effect) { (e.Load? || e.Store?) && !(0 <= e.address < DICTIONARY_SIZE) }

  lemma ApplyRefines(e: Effect, m: State)
    requires Sound(m)
    ensures var v := A.Apply(e, View(m));
      && (v.Ok? ==> Apply(e, m).Ok? && Sound(Apply(e, m).value) && View(Apply(e, m).value) == v.value)
      && (v.Err? ==> if v.error == OutsideDictionary then Leaves(e) else Apply(e, m) == Err(v.error))
  {
    StackAtDepth(m.mem, m.dsp, DATA_STACK_BASE);
    StackAtDepth(m.mem, m.rsp, RETURN_STACK_BASE);
    if Apply(e, m).Ok? && !HitsStack(e) {
      ApplySeparates(e, m);
    }
  }

  /** The step after `k` more is a `LOAD` or `STORE` outside the dictionary block. */
  ghost predicate LeavesAfter(program: seq<InstructionDto>, m: State, k: nat)
    requires Sound(m)
  {
    && Steps(program, m, k).Ok?
    && NextEffect(program, Steps(program, m, k).value).Ok?
    && Leaves(NextEffect(program, Steps(program, m, k).value).value)
  }

  lemma DecodesInside(i: InstructionDto, pc: int, regs: Regs)
    ensures Decode(i, pc, regs) != Err(OutsideDictionary)
  {
  }

  /** Every step of the separated machine is a step of the real one, error for error, until one leaves
      the dictionary block. */
  lemma StepRefines(program: seq<InstructionDto>, m: State)
    requires Sound(m)
    ensures var v := A.Step(program, View(m));
      && (v.Ok? ==> Step(program, m).Ok? && Sound(Step(program, m).value) && View(Step(program, m).value) == v.value)
      && (v.Err? ==> if v.error == OutsideDictionary then LeavesAfter(program, m, 0) else Step(program, m) == Err(v.error))
  {
    hide Apply, A.Apply, Decode, Leaves;
    if NextEffect(program, m).Ok? {
      ApplyRefines(NextEffect(program, m).value, m.(pc := m.pc + 1));
      assert View(m.(pc := m.pc + 1)) == View(m).(pc := m.pc + 1);
    } else if Fetch(program, m.pc).Ok? {
      DecodesInside(Fetch(program, m.pc).value, m.pc + 1, m.regs);
    }
  }

  /** Any number of steps. */
  lemma {:induction false} StepsRefine(program: seq<InstructionDto>, m: State, n: nat)
    requires Sound(m)
    ensures var v := A.Steps(program, View(m), n);
      && (v.Ok? ==> Steps(program, m, n).Ok? && View(Steps(program, m, n).value) == v.value)
      && (v.Err? ==>
            if v.error == OutsideDictionary then exists k: nat :: k < n && LeavesAfter(program, m, k)
            else Steps(program, m, n) == Err(v.error))
    decreases n
  {
    hide Step, A.Step, View, NextEffect, Leaves;
    if n > 0 {
      assert View(m).halted == m.halted by { ViewHalts(m); }
      if !m.halted {
        StepRefines(program, m);
        if A.Step(program, View(m)).Ok? {
          StepsRefine(program, Step(program, m).value, n - 1);
          var v := A.Steps(program, View(m), n);
          if v.Err? && v.error == OutsideDictionary {
            var k: nat :| k < n - 1 && LeavesAfter(program, Step(program, m).value, k);
            assert Steps(program, m, k + 1) == Steps(program, Step(program, m).value, k);
            assert LeavesAfter(program, m, k + 1);
          }
        }
      }
    }
  }

  lemma ViewHalts(m: State)
    requires Sound(m)
    ensures View(m).halted == m.halted
  {
  }
}
