/** Exactly which sources assemble, and what `MOV` of a register onto itself does. */
module AssemblerAcceptance {
  import opened Wrappers
  import opened Isa
  import opened Cpu
  import opened Assembler
  import opened AbstractMachine
  import SourceMachine

  /** Every label definition of the source, in order. */
  function Defined(lines: seq<Line>): seq<Name> {
    if lines == [] then [] else lines[0].labels + Defined(lines[1..])
  }

  predicate Distinct(names: seq<Name>) { forall i, j :: 0 <= i < j < |names| ==> names[i] != names[j] }

  /** A token that fits an operand of this kind, when the labels `known` are defined. */
  predicate TokenFits(kind: Kind, token: Token, known: set<Name>) {
    match kind
    case KindRegister => token.Ident?
    case KindRegisterOrImmediate => !token.Junk?
    case KindOffset => token.Int? || (token.Ident? && token.name in known)
  }

  predicate TokensFit(specs: seq<OperandSpec>, tokens: seq<Token>, known: set<Name>) {
    |specs| == |tokens| && forall i :: 0 <= i < |tokens| ==> TokenFits(specs[i].kind, tokens[i], known)
  }

  /** A line without a fault: a mnemonic the assembler knows, with the operands it takes. */
  predicate LineFits(line: Line, known: set<Name>) {
    var ops := line.operands;
    match line.mnemonic
    case None => true
    case Some(Unknown(_)) => false
    case Some(Set) =>
      |ops| == 2 && ops[0].Ident? && (ops[1].Int? || (ops[1].Ident? && ops[1].name in known))
    case Some(Mov) => |ops| == 2 && ops[0].Ident? && ops[1].Ident?
    case Some(Real(opcode)) => TokensFit(OperandSpecs(opcode), ops, known)
  }

  lemma DistinctAppend(xs: seq<Name>, ys: seq<Name>)
    ensures Distinct(xs + ys) <==> Distinct(xs) && Distinct(ys) && forall n :: n in xs ==> n !in ys
  {
    var s := xs + ys;
    if Distinct(s) {
      forall i, j | 0 <= i < j < |xs|
        ensures xs[i] != xs[j]
      {
        assert s[i] != s[j];
      }
      forall i, j | 0 <= i < j < |ys|
        ensures ys[i] != ys[j]
      {
        assert s[|xs| + i] != s[|xs| + j];
      }
      forall i, j | 0 <= i < |xs| && 0 <= j < |ys|
        ensures xs[i] != ys[j]
      {
        assert s[i] != s[|xs| + j];
      }
    }
    if Distinct(xs) && Distinct(ys) && forall n :: n in xs ==> n !in ys {
      forall i, j | 0 <= i < j < |s|
        ensures s[i] != s[j]
      {
        if i < |xs| <= j {
          assert s[i] in xs && s[j] == ys[j - |xs|];
        }
      }
    }
  }

  lemma {:induction false} AddLabelsAccepts(names: seq<Name>, address: int, labels: Labels)
    ensures AddLabels(names, address, labels).Ok? <==> Distinct(names) && forall n :: n in names ==> n !in labels
  {
    if names != [] && names[0] !in labels {
      AddLabelsAccepts(names[1..], address, labels[names[0] := address]);
      assert names == [names[0]] + names[1..];
      DistinctAppend([names[0]], names[1..]);
    }
  }

  lemma DistinctNil(names: seq<Name>)
    requires names == []
    ensures Distinct(names)
  {
  }

  lemma {:induction false} ResolveAccepts(lines: seq<Line>, address: int, labels: Labels)
    ensures ResolveFrom(lines, address, labels).Ok?
       <==> Distinct(Defined(lines)) && forall n :: n in Defined(lines) ==> n !in labels
    ensures ResolveFrom(lines, address, labels).Ok? ==>
      var r := ResolveFrom(lines, address, labels).value;
      && |r.lines| == |lines| && (forall i :: 0 <= i < |lines| ==> r.lines[i].line == lines[i])
      && forall n :: n in r.labels <==> n in labels || n in Defined(lines)
  {
    hide Distinct, AddLabels;
    if lines == [] {
      DistinctNil(Defined(lines));
    } else {
      var names := lines[0].labels;
      AddLabelsAccepts(names, address, labels);
      DistinctAppend(names, Defined(lines[1..]));
      if AddLabels(names, address, labels).Ok? {
        AddLabelsAll(names, address, labels);
        ResolveAccepts(lines[1..], address + Size(lines[0]), AddLabels(names, address, labels).value);
      }
    }
  }

  lemma {:induction false} FillAccepts(
    specs: seq<OperandSpec>, tokens: seq<Token>, labels: Labels, address: int, dto: InstructionDto)
    requires |specs| == |tokens|
    ensures FillOperands(specs, tokens, labels, address, dto).Ok? <==> TokensFit(specs, tokens, labels.Keys)
  {
    if specs != [] {
      var first := FillOperand(specs[0], tokens[0], labels, address, dto);
      assert first.Ok? <==> TokenFits(specs[0].kind, tokens[0], labels.Keys);
      if first.Ok? {
        FillAccepts(specs[1..], tokens[1..], labels, address, first.value);
        assert forall i :: 0 < i < |tokens| ==> specs[i] == specs[1..][i - 1] && tokens[i] == tokens[1..][i - 1];
      }
    }
  }

  lemma EmitLineAccepts(line: Line, address: int, labels: Labels)
    ensures EmitLine(line, address, labels).Ok? <==> LineFits(line, labels.Keys)
  {
    hide OperandSpecs, FillOperands, TokensFit;
    match line.mnemonic
    case Some(Real(opcode)) =>
      if |line.operands| == |OperandSpecs(opcode)| {
        FillAccepts(OperandSpecs(opcode), line.operands, labels, address, InstructionDto(opcode, None, None, None));
      } else {
        TokensFitSize(OperandSpecs(opcode), line.operands, labels.Keys);
      }
    case _ =>
  }

  lemma TokensFitSize(specs: seq<OperandSpec>, tokens: seq<Token>, known: set<Name>)
    requires |specs| != |tokens|
    ensures !TokensFit(specs, tokens, known)
  {
  }

  lemma {:induction false} EmitAccepts(lines: seq<PlacedLine>, labels: Labels)
    ensures Emit(lines, labels).Ok? <==> forall i :: 0 <= i < |lines| ==> LineFits(lines[i].line, labels.Keys)
  {
    hide EmitLine, LineFits;
    if lines != [] {
      EmitLineAccepts(lines[0].line, lines[0].address, labels);
      EmitAccepts(lines[1..], labels);
      assert forall i :: 0 < i < |lines| ==> lines[i] == lines[1..][i - 1];
    }
  }

  /** A source assembles exactly when it defines no label twice and each of its lines is without
      fault; whether a line is depends on which labels there are, never on where anything sits. */
  lemma AssembleAccepts(lines: seq<Line>)
    ensures Assemble(lines).Ok?
       <==> Distinct(Defined(lines))
            && forall i :: 0 <= i < |lines| ==> LineFits(lines[i], set n | n in Defined(lines))
  {
    hide Distinct, LineFits, Emit;
    ResolveAccepts(lines, 0, map[]);
    if Resolve(lines).Ok? {
      var r := Resolve(lines).value;
      EmitAccepts(r.lines, r.labels);
      assert r.labels.Keys == set n | n in Defined(lines);
    }
  }

  // ---- MOV onto itself ----

  /** `MOV r, s` copies `s` into `r` exactly when the two differ or `s` holds zero: the expansion
      clears `r` before it reads `s`. */
  lemma MovCopies(asm: Assembly, vm: Vm, r: Name, s: Name)
    requires 0 <= vm.pc && vm.pc + 2 <= |asm.program| && !vm.halted
    requires asm.program[vm.pc..vm.pc + 2] == ZeroThenAdd(r, InReg(s))
    ensures Steps(asm.program, vm, 2).Ok?
    ensures Read(Steps(asm.program, vm, 2).value.regs, r) == Read(vm.regs, s) <==> r != s || Read(vm.regs, s) == 0
  {
    var code := asm.program[vm.pc..vm.pc + 2];
    assert code[0] == asm.program[vm.pc] && code[1] == asm.program[vm.pc + 1];
    var w := if r == s then 0 else Read(vm.regs, s);
    var vm1 := vm.(pc := vm.pc + 1, regs := Bind(vm.regs, r, 0));
    assert Step(asm.program, vm) == Ok(vm1);
    var vm2 := vm1.(pc := vm1.pc + 1, regs := Bind(vm1.regs, r, w));
    assert Step(asm.program, vm1) == Ok(vm2);
    assert Steps(asm.program, vm1, 1) == Ok(vm2) by { SourceMachine.OneStep(asm.program, vm1); }
  }
}
