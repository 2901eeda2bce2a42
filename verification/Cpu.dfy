/** What one instruction asks for, from the registers alone: the register half of the
    `_exec_*` handlers of `services/emulator.py`, shared by every machine below. */
module Cpu {
  import opened Wrappers
  import opened Isa
  import Bits

  /** `OutsideDictionary` is an error the program never raises: the machine with separated memory
      answers it for a `LOAD` or `STORE` that leaves the dictionary block. */
  datatype MachineError =
    | StackOverflow | StackUnderflow | InputExhausted
    | NotARegister | MissingOffset | BadIndex | StepLimit | OutsideDictionary

  /** The register file. */
  datatype Regs = Regs(written: map<Name, int>)

  /** A register never written reads as zero. */
  function Read(regs: Regs, name: Name): int {
    if name in regs.written then regs.written[name] else 0
  }

  function Bind(regs: Regs, name: Name, value: int): Regs { Regs(regs.written[name := value]) }

  /** A write is read back until the next write of the same register. */
  lemma RegisterFile(regs: Regs, name: Name, other: Name, value: int)
    ensures Read(Regs(map[]), name) == 0
    ensures Read(Bind(regs, name, value), other) == if other == name then value else Read(regs, other)
  {
  }

  datatype Effect =
    | Write(r: Name, value: int)
    | Jump(target: int)
    | Skip
    | Load(r: Name, address: int)
    | Store(address: int, value: int)
    | PushData(value: int)
    | PopData(r: Name)
    | PushReturn(value: int)
    | PopReturn(r: Name)
    | ReadInput(r: Name)
    | WriteOutput(value: int)
    | Halt

  /** `_operand_value`: an immediate, or the content of a register. */
  function OperandValue(b: Option<Operand>, regs: Regs): Result<int, MachineError> {
    match b
    case None => Err(NotARegister)
    case Some(Imm(v)) => Ok(v)
    case Some(InReg(r)) => Ok(Read(regs, r))
  }

  function Arithmetic(opcode: Opcode, x: int, y: int): int {
    match opcode
    case ADD => x + y
    case SUB => x - y
    case AND => Bits.And(x, y)
    case _ => Bits.Or(x, y)
  }

  /** The handler of `i`, with `pc` already advanced past it. */
  function Decode(i: InstructionDto, pc: int, regs: Regs): Result<Effect, MachineError> {
    if i.opcode == HALT then Ok(Halt)
    else if i.a.None? then Err(NotARegister)
    else
      var r := i.a.value;
      var v := Read(regs, r);
      match i.opcode
      case LOAD =>
        if i.b.None? || i.b.value.Imm? then Err(NotARegister) else Ok(Load(r, Read(regs, i.b.value.name)))
      case STORE =>
        if i.b.None? || i.b.value.Imm? then Err(NotARegister) else Ok(Store(v, Read(regs, i.b.value.name)))
      case INVERT => Ok(Write(r, Bits.Invert(v)))
      case JMP => Ok(Jump(v))
      case JZ =>
        if i.offset.None? then Err(MissingOffset) else Ok(if v == 0 then Jump(pc + i.offset.value) else Skip)
      case JS =>
        if i.offset.None? then Err(MissingOffset) else Ok(if v < 0 then Jump(pc + i.offset.value) else Skip)
      case PUSH_D => Ok(PushData(v))
      case POP_D => Ok(PopData(r))
      case PUSH_R => Ok(PushReturn(v))
      case POP_R => Ok(PopReturn(r))
      case IN => Ok(ReadInput(r))
      case OUT => Ok(WriteOutput(v))
      case _ =>
        match OperandValue(i.b, regs)
        case Err(e) => Err(e)
        case Ok(w) => Ok(Write(r, Arithmetic(i.opcode, v, w)))
  }

  /** A Python list index: negative indices count from the end. */
  function ListIndex(index: int, length: nat): Option<nat> {
    if 0 <= index < length then Some(index)
    else if 0 <= index + length < length then Some(index + length)
    else None
  }

  /** `self._program[self._pc]`. */
  function Fetch(program: seq<InstructionDto>, pc: int): Result<InstructionDto, MachineError> {
    match ListIndex(pc, |program|)
    case None => Err(BadIndex)
    case Some(k) => Ok(program[k])
  }

  /** The effect of the instruction at `pc`. */
  function EffectAt(program: seq<InstructionDto>, pc: int, regs: Regs): Result<Effect, MachineError> {
    match Fetch(program, pc)
    case Err(e) => Err(e)
    case Ok(i) => Decode(i, pc + 1, regs)
  }

  // ---- faults ----

  /** What a push, a pop or a read of a device can run into. */
  datatype Fault = EmptyData | FullData | EmptyReturn | FullReturn | NoInput

  function ErrorOf(fault: Fault): MachineError {
    match fault
    case EmptyData => StackUnderflow
    case FullData => StackOverflow
    case EmptyReturn => StackUnderflow
    case FullReturn => StackOverflow
    case NoInput => InputExhausted
  }

  /** The two stacks raise the same two errors, the input its own. */
  lemma FaultErrors()
    ensures ErrorOf(EmptyData) == StackUnderflow && ErrorOf(EmptyReturn) == StackUnderflow
    ensures ErrorOf(FullData) == StackOverflow && ErrorOf(FullReturn) == StackOverflow
    ensures ErrorOf(NoInput) == InputExhausted
  {
  }

  /** What an effect may run into, other than a bad address. */
  function FaultOf(e: Effect): Option<Fault> {
    match e
    case PushData(_) => Some(FullData)
    case PopData(_) => Some(EmptyData)
    case PushReturn(_) => Some(FullReturn)
    case PopReturn(_) => Some(EmptyReturn)
    case ReadInput(_) => Some(NoInput)
    case _ => None
  }
}
