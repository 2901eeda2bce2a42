/** The last two assembler stages: label resolution and instruction emission
    (`services/assembler/resolver.py`, `emitter.py`, `specs.py`). */
module Assembler {
  import opened Wrappers
  import opened Isa

  /** A mnemonic as the emitter classifies it: `SET`, `MOV`, an opcode, or anything else. */
  datatype Mnemonic = Real(opcode: Opcode) | Set | Mov | Unknown(text: string)

  /** An operand token: an integer literal, an identifier, or neither. */
  datatype Token = Int(value: int) | Ident(name: Name) | Junk(text: string)

  datatype Line = Line(labels: seq<Name>, mnemonic: Option<Mnemonic>, operands: seq<Token>)

  datatype PlacedLine = PlacedLine(line: Line, address: int)

  type Labels = map<Name, int>

  datatype Resolved = Resolved(lines: seq<PlacedLine>, labels: Labels)

  datatype Assembly = Assembly(program: seq<InstructionDto>, labels: Labels)

  datatype AssemblerError =
    | DuplicateLabel(name: Name) | UnknownMnemonic(text: string) | OperandCount
    | ExpectedRegister | UndefinedLabel | ExpectedConstant

  // ---- specs.py ----

  datatype Field = FieldA | FieldB | FieldOffset
  datatype Kind = KindRegister | KindRegisterOrImmediate | KindOffset
  datatype OperandSpec = OperandSpec(field: Field, kind: Kind)

  function OperandSpecs(opcode: Opcode): seq<OperandSpec> {
    match opcode
    case LOAD => [OperandSpec(FieldA, KindRegister), OperandSpec(FieldB, KindRegister)]
    case STORE => [OperandSpec(FieldA, KindRegister), OperandSpec(FieldB, KindRegister)]
    case ADD => [OperandSpec(FieldA, KindRegister), OperandSpec(FieldB, KindRegisterOrImmediate)]
    case SUB => [OperandSpec(FieldA, KindRegister), OperandSpec(FieldB, KindRegisterOrImmediate)]
    case AND => [OperandSpec(FieldA, KindRegister), OperandSpec(FieldB, KindRegisterOrImmediate)]
    case OR => [OperandSpec(FieldA, KindRegister), OperandSpec(FieldB, KindRegisterOrImmediate)]
    case JZ => [OperandSpec(FieldA, KindRegister), OperandSpec(FieldOffset, KindOffset)]
    case JS => [OperandSpec(FieldA, KindRegister), OperandSpec(FieldOffset, KindOffset)]
    case HALT => []
    case _ => [OperandSpec(FieldA, KindRegister)]
  }

  // ---- resolver.py ----

  /** `_size`: how many instructions a line emits. */
  function Size(line: Line): nat {
    match line.mnemonic
    case None => 0
    case Some(Set) => 2
    case Some(Mov) => 2
    case Some(_) => 1
  }

  function TotalSize(lines: seq<Line>): nat {
    if lines == [] then 0 else Size(lines[0]) + TotalSize(lines[1..])
  }

  function AddLabels(names: seq<Name>, address: int, labels: Labels): Result<Labels, AssemblerError> {
    if names == [] then Ok(labels)
    else if names[0] in labels then Err(DuplicateLabel(names[0]))
    else AddLabels(names[1..], address, labels[names[0] := address])
  }

  function ResolveFrom(lines: seq<Line>, address: int, labels: Labels): Result<Resolved, AssemblerError> {
    if lines == [] then Ok(Resolved([], labels))
    else
      match AddLabels(lines[0].labels, address, labels)
      case Err(e) => Err(e)
      case Ok(labels') =>
        match ResolveFrom(lines[1..], address + Size(lines[0]), labels')
        case Err(e) => Err(e)
        case Ok(r) => Ok(Resolved([PlacedLine(lines[0], address)] + r.lines, r.labels))
  }

  function Resolve(lines: seq<Line>): Result<Resolved, AssemblerError> {
    ResolveFrom(lines, 0, map[])
  }

  // ---- emitter.py ----

  function ResolveRegister(token: Token): Result<Name, AssemblerError> {
    if token.Ident? then Ok(token.name) else Err(ExpectedRegister)
  }

  function ResolveRegisterOrImmediate(token: Token, labels: Labels): Result<Operand, AssemblerError> {
    match token
    case Int(v) => Ok(Imm(v))
    case Ident(n) => Ok(if n in labels then Imm(labels[n]) else InReg(n))
    case Junk(_) => Err(ExpectedRegister)
  }

  function ResolveOffset(token: Token, labels: Labels, address: int): Result<int, AssemblerError> {
    match token
    case Int(v) => Ok(v)
    case Ident(n) => if n in labels then Ok(labels[n] - (address + 1)) else Err(UndefinedLabel)
    case Junk(_) => Err(UndefinedLabel)
  }

  function ResolveConstant(token: Token, labels: Labels): Result<int, AssemblerError> {
    match token
    case Int(v) => Ok(v)
    case Ident(n) => if n in labels then Ok(labels[n]) else Err(ExpectedConstant)
    case Junk(_) => Err(ExpectedConstant)
  }

  /** One turn of the operand loop: fill the field `spec` names from `token`. */
  function FillOperand(spec: OperandSpec, token: Token, labels: Labels, address: int, dto: InstructionDto)
    : Result<InstructionDto, AssemblerError>
  {
    match spec.kind
    case KindRegister =>
      (match ResolveRegister(token)
       case Err(e) => Err(e)
       case Ok(n) => Ok(if spec.field == FieldA then dto.(a := Some(n)) else dto.(b := Some(InReg(n)))))
    case KindRegisterOrImmediate =>
      (match ResolveRegisterOrImmediate(token, labels)
       case Err(e) => Err(e)
       case Ok(b) => Ok(dto.(b := Some(b))))
    case KindOffset =>
      (match ResolveOffset(token, labels, address)
       case Err(e) => Err(e)
       case Ok(k) => Ok(dto.(offset := Some(k))))
  }

  function FillOperands(specs: seq<OperandSpec>, tokens: seq<Token>, labels: Labels, address: int, dto: InstructionDto)
    : Result<InstructionDto, AssemblerError>
    requires |specs| == |tokens|
  {
    if specs == [] then Ok(dto)
    else
      match FillOperand(specs[0], tokens[0], labels, address, dto)
      case Err(e) => Err(e)
      case Ok(dto') => FillOperands(specs[1..], tokens[1..], labels, address, dto')
  }

  /** `SET` and `MOV`: zero the destination, then add the source. */
  function ZeroThenAdd(r: Name, b: Operand): seq<InstructionDto> {
    [InstructionDto(SUB, Some(r), Some(InReg(r)), None), InstructionDto(ADD, Some(r), Some(b), None)]
  }

  /** `_emit_line`. */
  function EmitLine(line: Line, address: int, labels: Labels): Result<seq<InstructionDto>, AssemblerError> {
    match line.mnemonic
    case None => Ok([])
    case Some(Set) =>
      if |line.operands| != 2 then Err(OperandCount)
      else if !line.operands[0].Ident? then Err(ExpectedRegister)
      else
        (match ResolveConstant(line.operands[1], labels)
         case Err(e) => Err(e)
         case Ok(v) => Ok(ZeroThenAdd(line.operands[0].name, Imm(v))))
    case Some(Mov) =>
      if |line.operands| != 2 then Err(OperandCount)
      else if !line.operands[0].Ident? || !line.operands[1].Ident? then Err(ExpectedRegister)
      else Ok(ZeroThenAdd(line.operands[0].name, InReg(line.operands[1].name)))
    case Some(Unknown(text)) => Err(UnknownMnemonic(text))
    case Some(Real(opcode)) =>
      var specs := OperandSpecs(opcode);
      if |line.operands| != |specs| then Err(OperandCount)
      else
        (match FillOperands(specs, line.operands, labels, address, InstructionDto(opcode, None, None, None))
         case Err(e) => Err(e)
         case Ok(dto) => Ok([dto]))
  }

  function Emit(lines: seq<PlacedLine>, labels: Labels): Result<seq<InstructionDto>, AssemblerError> {
    if lines == [] then Ok([])
    else
      match EmitLine(lines[0].line, lines[0].address, labels)
      case Err(e) => Err(e)
      case Ok(code) =>
        match Emit(lines[1..], labels)
        case Err(e) => Err(e)
        case Ok(rest) => Ok(code + rest)
  }

  function Assemble(lines: seq<Line>): Result<Assembly, AssemblerError> {
    match Resolve(lines)
    case Err(e) => Err(e)
    case Ok(r) =>
      match Emit(r.lines, r.labels)
      case Err(e) => Err(e)
      case Ok(program) => Ok(Assembly(program, r.labels))
  }

  // ---- resolver and emitter agree ----

  /** `line` sits at `address` of the assembly: its code is there and its labels say so. */
  ghost predicate LineAt(asm: Assembly, line: Line, address: int) {
    && 0 <= address && address + Size(line) <= |asm.program|
    && EmitLine(line, address, asm.labels) == Ok(asm.program[address..address + Size(line)])
    && forall n :: n in line.labels ==> n in asm.labels && asm.labels[n] == address
  }

  /** `lines` sit one after the other from `address` on: each at the total size of those before it. */
  ghost predicate Placed(asm: Assembly, lines: seq<Line>, address: int) {
    forall i {:trigger lines[..i]} ::
      0 <= i < |lines| ==> LineAt(asm, lines[i], address + TotalSize(lines[..i]))
  }

  lemma TotalSizeTail(lines: seq<Line>, i: nat)
    requires 0 < i <= |lines|
    ensures TotalSize(lines[..i]) == Size(lines[0]) + TotalSize(lines[1..][..i - 1])
  {
    assert lines[..i][1..] == lines[1..][..i - 1];
  }

  /** The same, one line at a time. */
  lemma PlacedCons(asm: Assembly, lines: seq<Line>, address: int)
    requires lines != []
    ensures Placed(asm, lines, address)
       <==> LineAt(asm, lines[0], address) && Placed(asm, lines[1..], address + Size(lines[0]))
  {
    hide LineAt, Size, TotalSize;
    var rest := lines[1..];
    assert TotalSize(lines[..0]) == 0 by { TotalSizeNil(lines[..0]); }
    forall i | 0 < i < |lines|
      ensures lines[i] == rest[i - 1]
      ensures TotalSize(lines[..i]) == Size(lines[0]) + TotalSize(rest[..i - 1])
    {
      TotalSizeTail(lines, i);
    }
    if LineAt(asm, lines[0], address) && Placed(asm, rest, address + Size(lines[0])) {
      forall i | 0 <= i < |lines|
        ensures LineAt(asm, lines[i], address + TotalSize(lines[..i]))
      {
        if i > 0 {
          assert LineAt(asm, rest[i - 1], address + Size(lines[0]) + TotalSize(rest[..i - 1]));
        }
      }
    }
    if Placed(asm, lines, address) {
      assert LineAt(asm, lines[0], address + TotalSize(lines[..0]));
      forall k | 0 <= k < |rest|
        ensures LineAt(asm, rest[k], address + Size(lines[0]) + TotalSize(rest[..k]))
      {
        var i := k + 1;
        assert rest[..i - 1] == rest[..k];
        assert LineAt(asm, lines[i], address + TotalSize(lines[..i]));
      }
    }
  }

  lemma TotalSizeNil(lines: seq<Line>)
    requires lines == []
    ensures TotalSize(lines) == 0
  {
  }

  lemma FillKeepsOpcode(specs: seq<OperandSpec>, tokens: seq<Token>, labels: Labels, address: int, dto: InstructionDto)
    requires |specs| == |tokens|
    requires FillOperands(specs, tokens, labels, address, dto).Ok?
    ensures FillOperands(specs, tokens, labels, address, dto).value.opcode == dto.opcode
  {
  }

  /** The resolver's size table is the emitter's code length. */
  lemma EmitLineSize(line: Line, address: int, labels: Labels)
    requires EmitLine(line, address, labels).Ok?
    ensures |EmitLine(line, address, labels).value| == Size(line)
  {
  }

  lemma {:induction false} AddLabelsAll(names: seq<Name>, address: int, labels: Labels)
    requires AddLabels(names, address, labels).Ok?
    ensures var labels' := AddLabels(names, address, labels).value;
      && (forall n :: n in labels ==> n in labels' && labels'[n] == labels[n])
      && (forall n :: n in names ==> n in labels' && labels'[n] == address)
      && (forall n :: n in labels' ==> n in labels || n in names)
      && (forall n :: n in names ==> n !in labels)
  {
    if names != [] {
      AddLabelsAll(names[1..], address, labels[names[0] := address]);
    }
  }

  lemma {:induction false} ResolveKeepsLabels(lines: seq<Line>, address: int, labels: Labels)
    requires ResolveFrom(lines, address, labels).Ok?
    ensures var r := ResolveFrom(lines, address, labels).value;
      && |r.lines| == |lines|
      && (forall n :: n in labels ==> n in r.labels && r.labels[n] == labels[n])
      && (forall n :: n in r.labels ==> n in labels || exists i :: 0 <= i < |lines| && n in lines[i].labels)
  {
    if lines != [] {
      AddLabelsAll(lines[0].labels, address, labels);
      var labels' := AddLabels(lines[0].labels, address, labels).value;
      ResolveKeepsLabels(lines[1..], address + Size(lines[0]), labels');
      var r := ResolveFrom(lines, address, labels).value;
      forall n | n in r.labels && n !in labels
        ensures exists i :: 0 <= i < |lines| && n in lines[i].labels
      {
        if n in lines[0].labels {
        } else {
          var i :| 0 <= i < |lines[1..]| && n in lines[1..][i].labels;
          assert n in lines[i + 1].labels;
        }
      }
    }
  }

  lemma {:induction false} EmitPlaces(lines: seq<Line>, address: int, labels: Labels, asm: Assembly)
    requires ResolveFrom(lines, address, labels).Ok?
    requires asm.labels == ResolveFrom(lines, address, labels).value.labels
    requires Emit(ResolveFrom(lines, address, labels).value.lines, asm.labels).Ok?
    requires 0 <= address <= |asm.program|
    requires asm.program[address..] == Emit(ResolveFrom(lines, address, labels).value.lines, asm.labels).value
    ensures Placed(asm, lines, address)
    ensures address + TotalSize(lines) == |asm.program|
  {
    hide EmitLine, Placed;
    if lines == [] {
      PlacedNil(asm, lines, address);
    } else {
      var labels' := AddLabels(lines[0].labels, address, labels).value;
      var next := address + Size(lines[0]);
      var rest := ResolveFrom(lines[1..], next, labels').value;
      AddLabelsAll(lines[0].labels, address, labels);
      ResolveKeepsLabels(lines[1..], next, labels');
      var placed := ResolveFrom(lines, address, labels).value.lines;
      assert placed[1..] == rest.lines;
      var code := EmitLine(lines[0], address, asm.labels).value;
      EmitLineSize(lines[0], address, asm.labels);
      var tail := Emit(rest.lines, asm.labels).value;
      assert asm.program[address..] == code + tail;
      assert asm.program[next..] == asm.program[address..][|code|..];
      assert asm.program[address..next] == asm.program[address..][..|code|];
      EmitPlaces(lines[1..], next, labels', asm);
      PlacedCons(asm, lines, address);
    }
  }

  /** Whatever assembles: every line's address is the number of instructions emitted before it,
      every label names the index of the next emitted instruction, and the program holds each
      line's own code at the line's address. */
  lemma AssemblePlaces(lines: seq<Line>)
    requires Assemble(lines).Ok?
    ensures Placed(Assemble(lines).value, lines, 0)
    ensures |Assemble(lines).value.program| == TotalSize(lines)
    ensures forall n :: n in Assemble(lines).value.labels ==> exists i :: 0 <= i < |lines| && n in lines[i].labels
  {
    var asm := Assemble(lines).value;
    assert asm.program[0..] == asm.program;
    EmitPlaces(lines, 0, map[], asm);
    ResolveKeepsLabels(lines, 0, map[]);
  }

  lemma {:induction false} TotalSizeAppend(xs: seq<Line>, ys: seq<Line>)
    ensures TotalSize(xs + ys) == TotalSize(xs) + TotalSize(ys)
  {
    if xs == [] {
      assert xs + ys == ys;
    } else {
      assert (xs + ys)[1..] == xs[1..] + ys;
      TotalSizeAppend(xs[1..], ys);
    }
  }

  lemma {:induction false} PlacedSplit(asm: Assembly, xs: seq<Line>, ys: seq<Line>, address: int)
    requires Placed(asm, xs + ys, address)
    ensures Placed(asm, xs, address) && Placed(asm, ys, address + TotalSize(xs))
    decreases |xs|
  {
    hide LineAt, Placed, Size;
    if xs == [] {
      assert xs + ys == ys;
      assert Placed(asm, xs, address) by { PlacedNil(asm, xs, address); }
    } else {
      assert (xs + ys)[1..] == xs[1..] + ys;
      PlacedCons(asm, xs + ys, address);
      PlacedCons(asm, xs, address);
      PlacedSplit(asm, xs[1..], ys, address + Size(xs[0]));
    }
  }

  lemma PlacedNil(asm: Assembly, lines: seq<Line>, address: int)
    requires lines == []
    ensures Placed(asm, lines, address)
  {
  }
}
