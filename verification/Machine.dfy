/** The emulator with both stacks inside one memory (`services/emulator.py` over the adapters
    that `containers.py` wires), as a function from state to state. */
module Machine {
  import opened Wrappers
  import opened Isa
  import opened Cpu
  import opened Layout

  /** `dsp` and `rsp` are the pointers of the data and of the return stack. */
  datatype State = State(
    pc: int, halted: bool, regs: Regs, mem: seq<int>, dsp: int, rsp: int, input: seq<int>, output: seq<int>)

  /** What construction establishes and every step keeps. */
  predicate Sound(m: State) {
    && |m.mem| == MEMORY_SIZE
    && DICTIONARY_SIZE <= m.dsp <= DATA_STACK_BASE
    && DATA_STACK_BASE <= m.rsp <= RETURN_STACK_BASE
  }

  function Apply(e: Effect, m: State): Result<State, MachineError>
    requires Sound(m)
  {
    match e
    case Write(r, v) => Ok(m.(regs := Bind(m.regs, r, v)))
    case Jump(t) => Ok(m.(pc := t))
    case Skip => Ok(m)
    case Load(r, a) =>
      (match ListIndex(a, |m.mem|)
       case None => Err(BadIndex)
       case Some(k) => Ok(m.(regs := Bind(m.regs, r, m.mem[k]))))
    case Store(a, v) =>
      (match ListIndex(a, |m.mem|)
       case None => Err(BadIndex)
       case Some(k) => Ok(m.(mem := m.mem[k := v])))
    case PushData(v) =>
      if m.dsp <= DATA_STACK_BASE - DATA_STACK_SIZE then Err(StackOverflow)
      else Ok(m.(mem := m.mem[m.dsp - 1 := v], dsp := m.dsp - 1))
    case PopData(r) =>
      if m.dsp >= DATA_STACK_BASE then Err(StackUnderflow)
      else Ok(m.(regs := Bind(m.regs, r, m.mem[m.dsp]), dsp := m.dsp + 1))
    case PushReturn(v) =>
      if m.rsp <= RETURN_STACK_BASE - RETURN_STACK_SIZE then Err(StackOverflow)
      else Ok(m.(mem := m.mem[m.rsp - 1 := v], rsp := m.rsp - 1))
    case PopReturn(r) =>
      if m.rsp >= RETURN_STACK_BASE then Err(StackUnderflow)
      else Ok(m.(regs := Bind(m.regs, r, m.mem[m.rsp]), rsp := m.rsp + 1))
    case ReadInput(r) =>
      if m.input == [] then Err(InputExhausted)
      else Ok(m.(regs := Bind(m.regs, r, m.input[0]), input := m.input[1..]))
    case WriteOutput(v) => Ok(m.(output := m.output + [v]))
    case Halt => Ok(m.(halted := true))
  }

  /** `EmulatorService.step`. */
  function Step(program: seq<InstructionDto>, m: State): Result<State, MachineError>
    requires Sound(m)
  {
    match EffectAt(program, m.pc, m.regs)
    case Err(e) => Err(e)
    case Ok(effect) => Apply(effect, m.(pc := m.pc + 1))
  }

  lemma StepSound(program: seq<InstructionDto>, m: State)
    requires Sound(m)
    ensures Step(program, m).Ok? ==> Sound(Step(program, m).value)
  {
  }

  /** Exactly `n` steps, none of them taken by a halted machine. */
  function Steps(program: seq<InstructionDto>, m: State, n: nat): Result<State, MachineError>
    requires Sound(m)
    ensures Steps(program, m, n).Ok? ==> Sound(Steps(program, m, n).value)
    decreases n
  {
    if n == 0 then Ok(m)
    else if m.halted then Err(StepLimit)
    else
      match Step(program, m)
      case Err(e) => Err(e)
      case Ok(m') => StepSound(program, m); Steps(program, m', n - 1)
  }

  /** `EmulatorService.run`: step until halted, raising past `maxSteps`. */
  function Run(program: seq<InstructionDto>, m: State, maxSteps: nat): Result<State, MachineError>
    requires Sound(m)
    decreases maxSteps
  {
    if m.halted then Ok(m)
    else if maxSteps == 0 then Err(StepLimit)
    else
      match Step(program, m)
      case Err(e) => Err(e)
      case Ok(m') => StepSound(program, m); Run(program, m', maxSteps - 1)
  }

  /** A run of exactly `n` steps to a halt fixes what `run` answers for every step budget. */
  lemma {:induction false} RunOfSteps(program: seq<InstructionDto>, m: State, n: nat, maxSteps: nat)
    requires Sound(m)
    requires Steps(program, m, n).Ok? && Steps(program, m, n).value.halted
    ensures Run(program, m, maxSteps) == if n <= maxSteps then Steps(program, m, n) else Err(StepLimit)
    decreases n
  {
    hide Step;
    if n > 0 {
      StepSound(program, m);
      if maxSteps > 0 {
        RunOfSteps(program, Step(program, m).value, n - 1, maxSteps - 1);
      }
    }
  }

  /** A run of exactly `n` steps to one that raises. */
  lemma {:induction false} RunOfError(program: seq<InstructionDto>, m: State, n: nat, maxSteps: nat)
    requires Sound(m)
    requires Steps(program, m, n).Ok? && !Steps(program, m, n).value.halted
    requires Step(program, Steps(program, m, n).value).Err?
    ensures Run(program, m, maxSteps)
         == if n < maxSteps then Err(Step(program, Steps(program, m, n).value).error) else Err(StepLimit)
    decreases n
  {
    hide Step;
    if n > 0 {
      StepSound(program, m);
      if maxSteps > 0 {
        RunOfError(program, Step(program, m).value, n - 1, maxSteps - 1);
      }
    }
  }

  /** A run still going after `maxSteps` steps is one too long for that budget. */
  lemma {:induction false} RunTooLong(program: seq<InstructionDto>, m: State, maxSteps: nat)
    requires Sound(m)
    requires Steps(program, m, maxSteps).Ok? && !Steps(program, m, maxSteps).value.halted
    ensures Run(program, m, maxSteps) == Err(StepLimit)
    decreases maxSteps
  {
    hide Step;
    if maxSteps > 0 {
      StepSound(program, m);
      RunTooLong(program, Step(program, m).value, maxSteps - 1);
    }
  }

  /** Runs compose. */
  lemma {:induction false} StepsAdd(program: seq<InstructionDto>, m: State, n: nat, k: nat)
    requires Sound(m) && Steps(program, m, n).Ok?
    ensures Steps(program, m, n + k) == Steps(program, Steps(program, m, n).value, k)
    decreases n
  {
    hide Step;
    if n > 0 {
      StepSound(program, m);
      StepsAdd(program, Step(program, m).value, n - 1, k);
    }
  }
}
