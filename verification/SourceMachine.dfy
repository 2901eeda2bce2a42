/** A machine that runs assembler lines instead of instructions: `SET` and `MOV` are single
    assignments, and branches go to labels. Each line asks for one effect, and the assembler's
    expansion asks for the same. */
module SourceMachine {
  import opened Wrappers
  import opened Isa
  import opened Cpu
  import opened Layout
  import opened Stacks
  import opened Assembler
  import opened AbstractMachine
  import Bits

  // ---- what a line asks for ----

  /** Nothing, one effect with control past the line's `size` instructions, or no meaning: the line
      does not assemble. */
  datatype Request = Blank | Does(effect: Effect, size: nat) | Senseless

  /** The constant a token denotes, if any. */
  function Constant(t: Token, labels: Labels): Option<int> {
    match t
    case Int(v) => Some(v)
    case Ident(n) => if n in labels then Some(labels[n]) else None
    case Junk(_) => None
  }

  /** The value of an operand that may be a constant or a register. */
  function Value(t: Token, labels: Labels, regs: Regs): Option<int> {
    if Constant(t, labels).Some? then Constant(t, labels)
    else if t.Ident? then Some(Read(regs, t.name))
    else None
  }

  /** Where a branch at `address` goes: to a label, or a literal distance past itself. */
  function Target(t: Token, labels: Labels, address: int): Option<int> {
    match t
    case Int(k) => Some(address + 1 + k)
    case Ident(n) => if n in labels then Some(labels[n]) else None
    case Junk(_) => None
  }

  function Branch(taken: bool, target: Option<int>): Option<Effect> {
    if target.None? then None else Some(if taken then Jump(target.value) else Skip)
  }

  /** A line whose opcode takes the single register `r`. */
  function UnaryEffect(opcode: Opcode, r: Name, regs: Regs): Option<Effect> {
    var v := Read(regs, r);
    match opcode
    case INVERT => Some(Write(r, Bits.Invert(v)))
    case JMP => Some(Jump(v))
    case PUSH_D => Some(PushData(v))
    case PUSH_R => Some(PushReturn(v))
    case POP_D => Some(PopData(r))
    case POP_R => Some(PopReturn(r))
    case IN => Some(ReadInput(r))
    case OUT => Some(WriteOutput(v))
    case _ => None
  }

  predicate Arithmetical(opcode: Opcode) { opcode == ADD || opcode == SUB || opcode == AND || opcode == OR }

  /** A line at `address` whose opcode takes the register `r` and the token `t`. */
  function BinaryEffect(opcode: Opcode, r: Name, t: Token, labels: Labels, address: int, regs: Regs): Option<Effect> {
    var v := Read(regs, r);
    match opcode
    case LOAD => if t.Ident? then Some(Load(r, Read(regs, t.name))) else None
    case STORE => if t.Ident? then Some(Store(v, Read(regs, t.name))) else None
    case JZ => Branch(v == 0, Target(t, labels, address))
    case JS => Branch(v < 0, Target(t, labels, address))
    case _ =>
      if !Arithmetical(opcode) || Value(t, labels, regs).None? then None
      else Some(Write(r, Arithmetic(opcode, v, Value(t, labels, regs).value)))
  }

  function Requested(e: Option<Effect>, size: nat): Request {
    if e.None? then Senseless else Does(e.value, size)
  }

  /** What the line at `address` asks for. `MOV r, r` clears `r`, as its expansion does. */
  function Asks(line: Line, labels: Labels, address: int, regs: Regs): Request {
    var ops := line.operands;
    if line.mnemonic.None? then Blank
    else if line.mnemonic == Some(Real(HALT)) then
      if ops == [] then Does(Halt, 1) else Senseless
    else if ops == [] || !ops[0].Ident? then Senseless
    else
      var r := ops[0].name;
      match line.mnemonic.value
      case Unknown(_) => Senseless
      case Set =>
        if |ops| != 2 || Constant(ops[1], labels).None? then Senseless
        else Does(Write(r, Constant(ops[1], labels).value), 2)
      case Mov =>
        if |ops| != 2 || !ops[1].Ident? then Senseless
        else Does(Write(r, if ops[1].name == r then 0 else Read(regs, ops[1].name)), 2)
      case Real(opcode) =>
        if |ops| == 1 then Requested(UnaryEffect(opcode, r, regs), 1)
        else if |ops| == 2 then Requested(BinaryEffect(opcode, r, ops[1], labels, address, regs), 1)
        else Senseless
  }

  // ---- its instructions ask for the same ----

  /** The one instruction a real opcode's line assembles to. */
  lemma RealLineCode(line: Line, address: int, labels: Labels)
    requires EmitLine(line, address, labels).Ok?
    requires line.mnemonic.Some? && line.mnemonic.value.Real?
    ensures var op, ops := line.mnemonic.value.opcode, line.operands;
      var code := EmitLine(line, address, labels).value;
      var blank := InstructionDto(op, None, None, None);
      && |ops| == |OperandSpecs(op)|
      && (|ops| == 0 ==> code == [blank])
      && (|ops| >= 1 ==> ops[0].Ident?)
      && (|ops| == 1 ==> code == [blank.(a := Some(ops[0].name))])
      && (|ops| == 2 ==>
            FillOperand(OperandSpecs(op)[1], ops[1], labels, address, blank.(a := Some(ops[0].name))).Ok?
            && code == [FillOperand(OperandSpecs(op)[1], ops[1], labels, address, blank.(a := Some(ops[0].name))).value])
  {
    var op, ops := line.mnemonic.value.opcode, line.operands;
    var specs := OperandSpecs(op);
    var blank := InstructionDto(op, None, None, None);
    if |specs| == 1 {
      FillOne(specs, ops, labels, address, blank);
    } else if |specs| == 2 {
      FillTwo(specs, ops, labels, address, blank);
    }
  }

  lemma FillOne(specs: seq<OperandSpec>, ops: seq<Token>, labels: Labels, address: int, dto: InstructionDto)
    requires |specs| == |ops| == 1
    ensures FillOperands(specs, ops, labels, address, dto) == FillOperand(specs[0], ops[0], labels, address, dto)
  {
    assert specs[1..] == [] && ops[1..] == [];
  }

  lemma FillTwo(specs: seq<OperandSpec>, ops: seq<Token>, labels: Labels, address: int, dto: InstructionDto)
    requires |specs| == |ops| == 2
    ensures var first := FillOperand(specs[0], ops[0], labels, address, dto);
      FillOperands(specs, ops, labels, address, dto)
      == if first.Err? then first else FillOperand(specs[1], ops[1], labels, address, first.value)
  {
    var first := FillOperand(specs[0], ops[0], labels, address, dto);
    if first.Ok? {
      FillOne(specs[1..], ops[1..], labels, address, first.value);
    }
  }

  lemma UnaryDecodes(op: Opcode, r: Name, pc: int, regs: Regs)
    requires |OperandSpecs(op)| == 1
    ensures UnaryEffect(op, r, regs).Some?
    ensures Decode(InstructionDto(op, Some(r), None, None), pc, regs) == Ok(UnaryEffect(op, r, regs).value)
  {
  }

  lemma BinaryDecodes(op: Opcode, r: Name, t: Token, labels: Labels, address: int, regs: Regs)
    requires |OperandSpecs(op)| == 2
    requires FillOperand(OperandSpecs(op)[1], t, labels, address, InstructionDto(op, Some(r), None, None)).Ok?
    ensures var i := FillOperand(OperandSpecs(op)[1], t, labels, address, InstructionDto(op, Some(r), None, None)).value;
      && BinaryEffect(op, r, t, labels, address, regs).Some?
      && Decode(i, address + 1, regs) == Ok(BinaryEffect(op, r, t, labels, address, regs).value)
  {
    hide Arithmetic;
  }

  /** A line of one instruction asks for that instruction's effect. */
  lemma RealLineAsks(asm: Assembly, line: Line, pc: int, regs: Regs)
    requires LineAt(asm, line, pc) && line.mnemonic.Some? && line.mnemonic.value.Real?
    ensures 0 <= pc < |asm.program| && EffectAt(asm.program, pc, regs).Ok?
    ensures Asks(line, asm.labels, pc, regs) == Does(EffectAt(asm.program, pc, regs).value, 1)
  {
    hide EmitLine, UnaryEffect, BinaryEffect, FillOperand, Decode;
    RealLineCode(line, pc, asm.labels);
    var op, ops := line.mnemonic.value.opcode, line.operands;
    var code := asm.program[pc..pc + 1];
    assert code[0] == asm.program[pc];
    assert Fetch(asm.program, pc) == Ok(code[0]);
    if |ops| == 0 {
      assert Decode(code[0], pc + 1, regs) == Ok(Halt) by { HaltDecodes(pc + 1, regs); }
    } else if |ops| == 1 {
      UnaryDecodes(op, ops[0].name, pc + 1, regs);
    } else {
      BinaryDecodes(op, ops[0].name, ops[1], asm.labels, pc, regs);
    }
  }

  lemma HaltDecodes(pc: int, regs: Regs)
    ensures Decode(InstructionDto(HALT, None, None, None), pc, regs) == Ok(Halt)
  {
  }

  /** A line of two instructions clears its register and then adds to it what it asks for. */
  lemma PairAsks(asm: Assembly, line: Line, pc: int, regs: Regs)
    requires LineAt(asm, line, pc) && (line.mnemonic == Some(Set) || line.mnemonic == Some(Mov))
    ensures 0 <= pc && pc + 2 <= |asm.program|
    ensures Asks(line, asm.labels, pc, regs).Does? && Asks(line, asm.labels, pc, regs).size == 2
    ensures Asks(line, asm.labels, pc, regs).effect.Write?
    ensures var e := Asks(line, asm.labels, pc, regs).effect;
      && EffectAt(asm.program, pc, regs) == Ok(Write(e.r, 0))
      && EffectAt(asm.program, pc + 1, Bind(regs, e.r, 0)) == Ok(e)
      && (line.mnemonic == Some(Set) ==> asm.program[pc..pc + 2] == ZeroThenAdd(e.r, Imm(e.value)))
  {
    var code := asm.program[pc..pc + 2];
    assert code[0] == asm.program[pc] && code[1] == asm.program[pc + 1];
    assert Fetch(asm.program, pc) == Ok(code[0]) && Fetch(asm.program, pc + 1) == Ok(code[1]);
  }

  /** Whatever assembles has a meaning. */
  lemma LineMakesSense(asm: Assembly, line: Line, pc: int, regs: Regs)
    requires LineAt(asm, line, pc)
    ensures var ask := Asks(line, asm.labels, pc, regs);
      if ask.Does? then Size(line) == ask.size else ask.Blank? && Size(line) == 0
  {
    hide FillOperands, OperandSpecs, UnaryEffect, BinaryEffect;
    if line.mnemonic.Some? {
      match line.mnemonic.value
      case Real(_) => RealLineAsks(asm, line, pc, regs);
      case Set => PairAsks(asm, line, pc, regs);
      case Mov => PairAsks(asm, line, pc, regs);
      case Unknown(_) =>
    }
  }

  // ---- the machine with separated memory ----

  /** Running one line: control falls to the next line, goes somewhere, is refused, or there is
      nothing to say: a line without a meaning, or an address outside the dictionary block. */
  datatype Flow = Falls(vm: Vm) | Goes(vm: Vm) | Faults(fault: Fault) | Strays

  function Carried(e: Effect, size: nat, vm: Vm): Flow {
    match Apply(e, vm.(pc := vm.pc + size))
    case Ok(vm') => if e.Jump? || e.Halt? then Goes(vm') else Falls(vm')
    case Err(_) => if FaultOf(e).Some? then Faults(FaultOf(e).value) else Strays
  }

  function Flowing(ask: Request, vm: Vm): Flow {
    match ask
    case Blank => Falls(vm)
    case Does(e, size) => Carried(e, size, vm)
    case Senseless => Strays
  }

  /** Run the line at `vm.pc`. */
  function RunLine(line: Line, labels: Labels, vm: Vm): Flow { Flowing(Asks(line, labels, vm.pc, vm.regs), vm) }

  lemma OneStep(program: seq<InstructionDto>, vm: Vm)
    requires !vm.halted
    ensures Steps(program, vm, 1) == Step(program, vm)
  {
    match Step(program, vm)
    case Err(_) =>
    case Ok(vm') => assert Steps(program, vm', 0) == Ok(vm');
  }

  /** Only a jump leaves the next instruction, only `HALT` halts, and the error of a refusal is its
      fault's. */
  lemma CarriedIs(e: Effect, size: nat, vm: Vm)
    requires !vm.halted
    ensures var flow, applied := Carried(e, size, vm), Apply(e, vm.(pc := vm.pc + size));
      && (flow.Falls? ==> applied == Ok(flow.vm) && flow.vm.pc == vm.pc + size && !flow.vm.halted)
      && (flow.Goes? ==> applied == Ok(flow.vm))
      && (flow.Faults? ==> FaultOf(e) == Some(flow.fault) && applied == Err(ErrorOf(flow.fault)))
  {
  }

  /** A real opcode's instruction does what its line says. */
  lemma RealLineRuns(asm: Assembly, line: Line, vm: Vm)
    requires LineAt(asm, line, vm.pc) && !vm.halted
    requires line.mnemonic.Some? && line.mnemonic.value.Real?
    ensures var flow := RunLine(line, asm.labels, vm);
      && (flow.Falls? ==> Step(asm.program, vm) == Ok(flow.vm) && flow.vm.pc == vm.pc + 1 && !flow.vm.halted)
      && (flow.Goes? ==> Step(asm.program, vm) == Ok(flow.vm))
      && (flow.Faults? ==> Raises(asm.program, vm, flow.fault))
  {
    hide Asks, Apply, EffectAt, FaultOf, Carried, LineAt;
    RealLineAsks(asm, line, vm.pc, vm.regs);
    CarriedIs(EffectAt(asm.program, vm.pc, vm.regs).value, 1, vm);
  }

  /** `SET` and `MOV`: two instructions, one assignment. */
  lemma PairRuns(asm: Assembly, line: Line, vm: Vm)
    requires LineAt(asm, line, vm.pc) && !vm.halted
    requires line.mnemonic == Some(Set) || line.mnemonic == Some(Mov)
    ensures Asks(line, asm.labels, vm.pc, vm.regs).Does? && Asks(line, asm.labels, vm.pc, vm.regs).effect.Write?
    ensures var e := Asks(line, asm.labels, vm.pc, vm.regs).effect;
      var vm1 := vm.(pc := vm.pc + 1, regs := Bind(vm.regs, e.r, 0));
      var vm2 := vm.(pc := vm.pc + 2, regs := Bind(vm.regs, e.r, e.value));
      && Step(asm.program, vm) == Ok(vm1) && Step(asm.program, vm1) == Ok(vm2)
      && Steps(asm.program, vm, 2) == Ok(vm2)
      && RunLine(line, asm.labels, vm) == Falls(vm2)
  {
    hide Asks, EffectAt, LineAt;
    PairAsks(asm, line, vm.pc, vm.regs);
    var e := Asks(line, asm.labels, vm.pc, vm.regs).effect;
    var vm1 := vm.(pc := vm.pc + 1, regs := Bind(vm.regs, e.r, 0));
    assert Bind(vm1.regs, e.r, e.value) == Bind(vm.regs, e.r, e.value);
    OneStep(asm.program, vm1);
  }

  /** The simulation, line by line: a line that falls through takes as many instructions as its
      size, one that branches or is refused takes one, and both machines end in the same state. */
  lemma LineRuns(asm: Assembly, line: Line, vm: Vm)
    requires LineAt(asm, line, vm.pc) && !vm.halted
    ensures var flow := RunLine(line, asm.labels, vm);
      && (flow.Falls? ==>
            && Steps(asm.program, vm, Size(line)) == Ok(flow.vm)
            && flow.vm.pc == vm.pc + Size(line) && !flow.vm.halted)
      && (flow.Goes? ==> Size(line) == 1 && Steps(asm.program, vm, 1) == Ok(flow.vm))
      && (flow.Faults? ==> Size(line) == 1 && Raises(asm.program, vm, flow.fault))
  {
    hide Step, EmitLine, Carried;
    if line.mnemonic.Some? {
      match line.mnemonic.value
      case Real(_) =>
        RealLineRuns(asm, line, vm);
        OneStep(asm.program, vm);
      case Set => PairRuns(asm, line, vm);
      case Mov => PairRuns(asm, line, vm);
      case Unknown(_) =>
    }
  }
}
