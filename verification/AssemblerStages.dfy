/** The assembler stages as the loops they are, proved against their recursive definitions. */
module AssemblerStages {
  import opened Wrappers
  import opened Isa
  import opened Assembler

  /** `placed` put in front of what the remaining lines resolve to. */
  function Before(placed: seq<PlacedLine>, r: Result<Resolved, AssemblerError>): Result<Resolved, AssemblerError> {
    match r
    case Err(e) => Err(e)
    case Ok(v) => Ok(Resolved(placed + v.lines, v.labels))
  }

  lemma BeforeNext(placed: seq<PlacedLine>, line: PlacedLine, r: Result<Resolved, AssemblerError>)
    ensures Before(placed, Before([line], r)) == Before(placed + [line], r)
  {
    if r.Ok? {
      assert placed + ([line] + r.value.lines) == placed + [line] + r.value.lines;
    }
  }

  lemma BeforeEnds(placed: seq<PlacedLine>, labels: Labels, r: Result<Resolved, AssemblerError>)
    ensures Before([], r) == r
    ensures Before(placed, Ok(Resolved([], labels))) == Ok(Resolved(placed, labels))
  {
    if r.Ok? {
      assert [] + r.value.lines == r.value.lines;
    }
    assert placed + [] == placed;
  }

  /** `LabelAddressResolver.resolve`. */
  method ResolveLines(lines: seq<Line>) returns (r: Result<Resolved, AssemblerError>)
    ensures r == Resolve(lines)
  {
    var labels: Labels := map[];
    var placed: seq<PlacedLine> := [];
    var address := 0;
    assert lines[0..] == lines;
    BeforeEnds(placed, labels, Resolve(lines));
    for i := 0 to |lines|
      invariant Resolve(lines) == Before(placed, ResolveFrom(lines[i..], address, labels))
    {
      var line := lines[i];
      assert lines[i..][0] == line && lines[i..][1..] == lines[i + 1..];
      var names := line.labels;
      ghost var known := labels;
      for j := 0 to |names|
        invariant AddLabels(names, address, known) == AddLabels(names[j..], address, labels)
      {
        assert names[j..][0] == names[j] && names[j..][1..] == names[j + 1..];
        if names[j] in labels {
          return Err(DuplicateLabel(names[j]));
        }
        labels := labels[names[j] := address];
      }
      BeforeNext(placed, PlacedLine(line, address), ResolveFrom(lines[i + 1..], address + Size(line), labels));
      placed := placed + [PlacedLine(line, address)];
      address := address + Size(line);
    }
    BeforeEnds(placed, labels, Resolve(lines));
    return Ok(Resolved(placed, labels));
  }

  /** The operand loop of `_emit_line`. */
  method FillFields(specs: seq<OperandSpec>, tokens: seq<Token>, labels: Labels, address: int, opcode: Opcode)
    returns (r: Result<InstructionDto, AssemblerError>)
    requires |specs| == |tokens|
    ensures r == FillOperands(specs, tokens, labels, address, InstructionDto(opcode, None, None, None))
  {
    var a: Option<Name> := None;
    var b: Option<Operand> := None;
    var offset: Option<int> := None;
    for i := 0 to |specs|
      invariant FillOperands(specs, tokens, labels, address, InstructionDto(opcode, None, None, None))
             == FillOperands(specs[i..], tokens[i..], labels, address, InstructionDto(opcode, a, b, offset))
    {
      assert specs[i..][1..] == specs[i + 1..] && tokens[i..][1..] == tokens[i + 1..];
      match specs[i].kind {
        case KindRegister =>
          var register := ResolveRegister(tokens[i]);
          if register.Err? {
            return Err(register.error);
          }
          if specs[i].field == FieldA {
            a := Some(register.value);
          } else {
            b := Some(InReg(register.value));
          }
        case KindRegisterOrImmediate =>
          var operand := ResolveRegisterOrImmediate(tokens[i], labels);
          if operand.Err? {
            return Err(operand.error);
          }
          b := Some(operand.value);
        case KindOffset =>
          var distance := ResolveOffset(tokens[i], labels, address);
          if distance.Err? {
            return Err(distance.error);
          }
          offset := Some(distance.value);
      }
    }
    return Ok(InstructionDto(opcode, a, b, offset));
  }

  /** `InstructionEmitter._emit_line`. */
  method EmitOne(placed: PlacedLine, labels: Labels) returns (r: Result<seq<InstructionDto>, AssemblerError>)
    ensures r == EmitLine(placed.line, placed.address, labels)
  {
    var line := placed.line;
    if line.mnemonic.None? || !line.mnemonic.value.Real? {
      return EmitLine(line, placed.address, labels);
    }
    var opcode := line.mnemonic.value.opcode;
    var specs := OperandSpecs(opcode);
    if |line.operands| != |specs| {
      return Err(OperandCount);
    }
    var dto := FillFields(specs, line.operands, labels, placed.address, opcode);
    return if dto.Ok? then Ok([dto.value]) else Err(dto.error);
  }

  /** `program` put in front of what the remaining lines emit. */
  function Extend(program: seq<InstructionDto>, r: Result<seq<InstructionDto>, AssemblerError>)
    : Result<seq<InstructionDto>, AssemblerError>
  {
    match r
    case Err(e) => Err(e)
    case Ok(rest) => Ok(program + rest)
  }

  lemma ExtendEnds(program: seq<InstructionDto>, r: Result<seq<InstructionDto>, AssemblerError>)
    ensures Extend([], r) == r
    ensures Extend(program, Ok([])) == Ok(program)
  {
    if r.Ok? {
      assert [] + r.value == r.value;
    }
    assert program + [] == program;
  }

  /** `InstructionEmitter.emit`. */
  method EmitLines(lines: seq<PlacedLine>, labels: Labels) returns (r: Result<seq<InstructionDto>, AssemblerError>)
    ensures r == Emit(lines, labels)
  {
    var program: seq<InstructionDto> := [];
    assert lines[0..] == lines;
    ExtendEnds(program, Emit(lines, labels));
    for i := 0 to |lines|
      invariant Emit(lines, labels) == Extend(program, Emit(lines[i..], labels))
    {
      assert lines[i..][0] == lines[i] && lines[i..][1..] == lines[i + 1..];
      var code := EmitOne(lines[i], labels);
      if code.Err? {
        return Err(code.error);
      }
      if Emit(lines[i + 1..], labels).Ok? {
        assert program + (code.value + Emit(lines[i + 1..], labels).value)
            == program + code.value + Emit(lines[i + 1..], labels).value;
      }
      program := program + code.value;
    }
    ExtendEnds(program, Emit(lines, labels));
    return Ok(program);
  }

  /** `AssemblerService.assemble`, from parsed lines on. */
  method AssembleLines(lines: seq<Line>) returns (r: Result<Assembly, AssemblerError>)
    ensures r == Assemble(lines)
  {
    var resolved := ResolveLines(lines);
    if resolved.Err? {
      return Err(resolved.error);
    }
    var program := EmitLines(resolved.value.lines, resolved.value.labels);
    if program.Err? {
      return Err(program.error);
    }
    return Ok(Assembly(program.value, resolved.value.labels));
  }
}
