/** The fetch-decode-execute machine itself, updating its program counter, registers, memory,
    stacks and devices in place (`services/emulator.py`, wired as in `containers.py`). */
module Emulator {
  import opened Wrappers
  import opened Isa
  import opened Cpu
  import opened Layout
  import opened StackAdapter
  import M = Machine
  import Bits

  /** The handler of an instruction as a function of the state, `pc` already advanced. */
  function Execute(i: InstructionDto, m: M.State): Result<M.State, MachineError>
    requires M.Sound(m)
  {
    match Decode(i, m.pc, m.regs)
    case Err(e) => Err(e)
    case Ok(effect) => M.Apply(effect, m)
  }

  class EmulatorService {
    var program: seq<InstructionDto>
    var pc: int
    var halted: bool
    var registers: Regs
    var input: seq<int>
    var output: seq<int>
    const memory: array<int>
    const dataStack: DownwardStack
    const returnStack: DownwardStack

    ghost predicate Valid()
      reads this, dataStack, returnStack
    {
      && memory.Length == MEMORY_SIZE
      && dataStack != returnStack
      && dataStack.memory == memory && returnStack.memory == memory
      && dataStack.base == DATA_STACK_BASE && dataStack.floor == DATA_STACK_BASE - DATA_STACK_SIZE
      && returnStack.base == RETURN_STACK_BASE && returnStack.floor == RETURN_STACK_BASE - RETURN_STACK_SIZE
      && dataStack.Valid() && returnStack.Valid()
    }

    ghost function State(): (m: M.State)
      reads this, dataStack, returnStack, memory
      requires Valid()
      ensures M.Sound(m)
    {
      M.State(pc, halted, registers, memory[..], dataStack.pointer, returnStack.pointer, input, output)
    }

    /** A machine over `memory`, with both stacks empty and every register unset. */
    constructor (memory: array<int>, input: seq<int>)
      requires memory.Length == MEMORY_SIZE
      ensures Valid() && this.memory == memory && fresh(dataStack) && fresh(returnStack)
      ensures State() == M.State(0, false, Regs(map[]), memory[..], DATA_STACK_BASE, RETURN_STACK_BASE, input, [])
      ensures program == []
    {
      this.memory := memory;
      program, pc, halted := [], 0, false;
      registers := Regs(map[]);
      this.input, output := input, [];
      dataStack := new DownwardStack(memory, DATA_STACK_BASE, DATA_STACK_SIZE);
      returnStack := new DownwardStack(memory, RETURN_STACK_BASE, RETURN_STACK_SIZE);
    }

    /** `load`: take a program and go back to its first instruction. */
    method Load(program: seq<InstructionDto>)
      requires Valid()
      modifies this`program, this`pc, this`halted
      ensures Valid() && this.program == program
      ensures State() == old(State()).(pc := 0, halted := false)
    {
      this.program := program;
      pc, halted := 0, false;
    }

    /** Write one register, as `boot` does for `IP`. */
    method WriteRegister(name: Name, value: int)
      requires Valid()
      modifies this`registers
      ensures Valid() && State() == old(State()).(regs := Bind(old(registers), name, value))
    {
      registers := Bind(registers, name, value);
    }

    /** `self._memory.read`: a Python list read. */
    method ReadMemory(address: int) returns (r: Result<int, MachineError>)
      requires Valid()
      ensures r == match ListIndex(address, MEMORY_SIZE) case None => Err(BadIndex) case Some(k) => Ok(memory[..][k])
    {
      var k := if address < 0 then address + memory.Length else address;
      if k < 0 || k >= memory.Length {
        return Err(BadIndex);
      }
      return Ok(memory[k]);
    }

    /** The opcodes that only touch registers and the program counter. */
    method ExecuteRegisters(i: InstructionDto) returns (r: Result<(), MachineError>)
      requires Valid()
      requires i.opcode == ADD || i.opcode == SUB || i.opcode == AND || i.opcode == OR || i.opcode == INVERT
            || i.opcode == JMP || i.opcode == JZ || i.opcode == JS
      modifies this`registers, this`pc
      ensures Valid() && program == old(program)
      ensures r.Ok? ==> Execute(i, old(State())) == Ok(State())
      ensures r.Err? ==> Execute(i, old(State())) == Err(r.error)
    {
      if i.a.None? {
        return Err(NotARegister);
      }
      var name := i.a.value;
      var v := Read(registers, name);
      if i.opcode == INVERT {
        registers := Bind(registers, name, Bits.Invert(v));
      } else if i.opcode == JMP {
        pc := v;
      } else if i.opcode == JZ || i.opcode == JS {
        if i.offset.None? {
          return Err(MissingOffset);
        }
        if (v == 0 && i.opcode == JZ) || (v < 0 && i.opcode == JS) {
          pc := pc + i.offset.value;
        }
      } else {
        if i.b.None? {
          return Err(NotARegister);
        }
        var w := if i.b.value.Imm? then i.b.value.value else Read(registers, i.b.value.name);
        registers := Bind(registers, name, Arithmetic(i.opcode, v, w));
      }
      return Ok(());
    }

    /** `LOAD` and `STORE`. */
    method ExecuteMemory(i: InstructionDto) returns (r: Result<(), MachineError>)
      requires Valid() && (i.opcode == LOAD || i.opcode == STORE)
      modifies this`registers, memory
      ensures Valid() && program == old(program)
      ensures r.Ok? ==> Execute(i, old(State())) == Ok(State())
      ensures r.Err? ==> Execute(i, old(State())) == Err(r.error)
    {
      if i.a.None? || i.b.None? || i.b.value.Imm? {
        return Err(NotARegister);
      }
      var other := Read(registers, i.b.value.name);
      if i.opcode == LOAD {
        var cell := ReadMemory(other);
        if cell.Err? {
          return Err(cell.error);
        }
        registers := Bind(registers, i.a.value, cell.value);
      } else {
        var address := Read(registers, i.a.value);
        var k := if address < 0 then address + memory.Length else address;
        if k < 0 || k >= memory.Length {
          return Err(BadIndex);
        }
        memory[k] := other;
      }
      return Ok(());
    }

    /** `PUSH_D` and `PUSH_R`. */
    method ExecutePush(i: InstructionDto) returns (r: Result<(), MachineError>)
      requires Valid() && (i.opcode == PUSH_D || i.opcode == PUSH_R)
      modifies memory, dataStack`pointer, returnStack`pointer
      ensures Valid() && program == old(program)
      ensures r.Ok? ==> Execute(i, old(State())) == Ok(State())
      ensures r.Err? ==> Execute(i, old(State())) == Err(r.error)
    {
      if i.a.None? {
        return Err(NotARegister);
      }
      var value := Read(registers, i.a.value);
      if i.opcode == PUSH_D {
        Stacks.StackAtDepth(memory[..], dataStack.pointer, dataStack.base);
        r := dataStack.Push(value);
      } else {
        Stacks.StackAtDepth(memory[..], returnStack.pointer, returnStack.base);
        r := returnStack.Push(value);
      }
    }

    /** `POP_D` and `POP_R`. */
    method ExecutePop(i: InstructionDto) returns (r: Result<(), MachineError>)
      requires Valid() && (i.opcode == POP_D || i.opcode == POP_R)
      modifies this`registers, dataStack`pointer, returnStack`pointer
      ensures Valid() && program == old(program)
      ensures r.Ok? ==> Execute(i, old(State())) == Ok(State())
      ensures r.Err? ==> Execute(i, old(State())) == Err(r.error)
    {
      if i.a.None? {
        return Err(NotARegister);
      }
      var popped: Result<int, MachineError>;
      if i.opcode == POP_D {
        popped := dataStack.Pop();
      } else {
        popped := returnStack.Pop();
      }
      if popped.Err? {
        return Err(popped.error);
      }
      registers := Bind(registers, i.a.value, popped.value);
      return Ok(());
    }

    /** The character devices, and `HALT`. */
    method ExecuteDevices(i: InstructionDto) returns (r: Result<(), MachineError>)
      requires Valid() && (i.opcode == IN || i.opcode == OUT || i.opcode == HALT)
      modifies this`registers, this`input, this`output, this`halted
      ensures Valid() && program == old(program)
      ensures r.Ok? ==> Execute(i, old(State())) == Ok(State())
      ensures r.Err? ==> Execute(i, old(State())) == Err(r.error)
    {
      if i.opcode == HALT {
        halted := true;
        return Ok(());
      }
      if i.a.None? {
        return Err(NotARegister);
      }
      if i.opcode == IN {
        if input == [] {
          return Err(InputExhausted);
        }
        registers := Bind(registers, i.a.value, input[0]);
        input := input[1..];
      } else {
        output := output + [Read(registers, i.a.value)];
      }
      return Ok(());
    }

    /** The handler table. */
    method Dispatch(i: InstructionDto) returns (r: Result<(), MachineError>)
      requires Valid()
      modifies this, memory, dataStack`pointer, returnStack`pointer
      ensures Valid() && program == old(program)
      ensures r.Ok? ==> Execute(i, old(State())) == Ok(State())
      ensures r.Err? ==> Execute(i, old(State())) == Err(r.error)
    {
      hide Execute, State;
      if i.opcode == LOAD || i.opcode == STORE {
        r := ExecuteMemory(i);
      } else if i.opcode == PUSH_D || i.opcode == PUSH_R {
        r := ExecutePush(i);
      } else if i.opcode == POP_D || i.opcode == POP_R {
        r := ExecutePop(i);
      } else if i.opcode == IN || i.opcode == OUT || i.opcode == HALT {
        r := ExecuteDevices(i);
      } else {
        r := ExecuteRegisters(i);
      }
    }

    /** `step`: fetch, advance, execute. On an error nothing is said of the state left behind. */
    method Step() returns (r: Result<(), MachineError>)
      requires Valid()
      modifies this, memory, dataStack`pointer, returnStack`pointer
      ensures Valid() && program == old(program)
      ensures r.Ok? ==> M.Step(program, old(State())) == Ok(State())
      ensures r.Err? ==> M.Step(program, old(State())) == Err(r.error)
    {
      hide Decode, M.Apply;
      var k := if pc < 0 then pc + |program| else pc;
      if k < 0 || k >= |program| {
        return Err(BadIndex);
      }
      pc := pc + 1;
      assert State() == old(State()).(pc := pc);
      r := Dispatch(program[k]);
    }

    /** `run`: step until halted, raising once `maxSteps` steps have not been enough. */
    method Run(maxSteps: nat) returns (r: Result<(), MachineError>)
      requires Valid()
      modifies this, memory, dataStack`pointer, returnStack`pointer
      ensures Valid() && program == old(program)
      ensures r.Ok? ==> M.Run(program, old(State()), maxSteps) == Ok(State())
      ensures r.Err? ==> M.Run(program, old(State()), maxSteps) == Err(r.error)
    {
      var steps := 0;
      while !halted
        invariant Valid() && program == old(program) && steps <= maxSteps
        invariant M.Run(program, old(State()), maxSteps) == M.Run(program, State(), maxSteps - steps)
        decreases maxSteps - steps
      {
        if steps >= maxSteps {
          return Err(StepLimit);
        }
        r := Step();
        if r.Err? {
          return;
        }
        steps := steps + 1;
      }
      return Ok(());
    }
  }
}
