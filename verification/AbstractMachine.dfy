/** The same machine with its memory taken apart: the dictionary block as cells, the two stack
    regions as LIFO values. Nothing here shares storage with anything else. */
module AbstractMachine {
  import opened Wrappers
  import opened Isa
  import opened Cpu
  import opened Layout
  import opened Stacks

  /** Everything a Forth word can observe: `low` is the dictionary block. */
  datatype Data = Data(low: seq<int>, ds: Stack, rs: Stack, input: seq<int>, output: seq<int>)

  datatype Vm = Vm(pc: int, halted: bool, regs: Regs, d: Data)

  predicate InBlock(d: Data, address: int) { 0 <= address < |d.low| }

  function Apply(e: Effect, m: Vm): Result<Vm, MachineError> {
    match e
    case Write(r, v) => Ok(m.(regs := Bind(m.regs, r, v)))
    case Jump(t) => Ok(m.(pc := t))
    case Skip => Ok(m)
    case Load(r, a) =>
      if InBlock(m.d, a) then Ok(m.(regs := Bind(m.regs, r, m.d.low[a]))) else Err(OutsideDictionary)
    case Store(a, v) =>
      if InBlock(m.d, a) then Ok(m.(d := m.d.(low := m.d.low[a := v]))) else Err(OutsideDictionary)
    case PushData(v) =>
      if Depth(m.d.ds) >= DATA_STACK_SIZE then Err(StackOverflow) else Ok(m.(d := m.d.(ds := Push(v, m.d.ds))))
    case PopData(r) =>
      if m.d.ds.Empty? then Err(StackUnderflow)
      else Ok(m.(regs := Bind(m.regs, r, m.d.ds.top), d := m.d.(ds := m.d.ds.rest)))
    case PushReturn(v) =>
      if Depth(m.d.rs) >= RETURN_STACK_SIZE then Err(StackOverflow) else Ok(m.(d := m.d.(rs := Push(v, m.d.rs))))
    case PopReturn(r) =>
      if m.d.rs.Empty? then Err(StackUnderflow)
      else Ok(m.(regs := Bind(m.regs, r, m.d.rs.top), d := m.d.(rs := m.d.rs.rest)))
    case ReadInput(r) =>
      if m.d.input == [] then Err(InputExhausted)
      else Ok(m.(regs := Bind(m.regs, r, m.d.input[0]), d := m.d.(input := m.d.input[1..])))
    case WriteOutput(v) => Ok(m.(d := m.d.(output := m.d.output + [v])))
    case Halt => Ok(m.(halted := true))
  }

  function Step(program: seq<InstructionDto>, m: Vm): Result<Vm, MachineError> {
    match EffectAt(program, m.pc, m.regs)
    case Err(e) => Err(e)
    case Ok(effect) => Apply(effect, m.(pc := m.pc + 1))
  }

  /** The next step is refused, for want of what `fault` names. */
  ghost predicate Raises(program: seq<InstructionDto>, m: Vm, fault: Fault) {
    && !m.halted && EffectAt(program, m.pc, m.regs).Ok?
    && FaultOf(EffectAt(program, m.pc, m.regs).value) == Some(fault)
    && Step(program, m) == Err(ErrorOf(fault))
  }

  /** Exactly `n` steps, none of them taken by a halted machine. */
  function Steps(program: seq<InstructionDto>, m: Vm, n: nat): Result<Vm, MachineError>
    decreases n
  {
    if n == 0 then Ok(m)
    else if m.halted then Err(StepLimit)
    else
      match Step(program, m)
      case Err(e) => Err(e)
      case Ok(m') => Steps(program, m', n - 1)
  }

  /** Runs compose. */
  lemma {:induction false} StepsAdd(program: seq<InstructionDto>, m: Vm, n: nat, k: nat)
    requires Steps(program, m, n).Ok?
    ensures Steps(program, m, n + k) == Steps(program, Steps(program, m, n).value, k)
    decreases n
  {
    hide Step;
    if n > 0 {
      StepsAdd(program, Step(program, m).value, n - 1, k);
    }
  }
}
