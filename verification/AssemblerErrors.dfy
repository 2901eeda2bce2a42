/** Which error a source that does not assemble is refused with: the first repeated label, or else the
    first fault of the first faulty line. */
module AssemblerErrors {
  import opened Wrappers
  import opened Isa
  import opened Assembler
  import opened AssemblerAcceptance

  // ---- one line ----

  /** A token that names a label of the source or is an integer. */
  predicate Constant(token: Token, known: set<Name>) { token.Int? || (token.Ident? && token.name in known) }

  predicate TwoRegisters(op: Opcode) { op in {LOAD, STORE} }

  predicate RegisterAndValue(op: Opcode) { op in {ADD, SUB, AND, OR} }

  predicate Branch(op: Opcode) { op in {JZ, JS} }

  predicate OneRegister(op: Opcode) { op in {INVERT, JMP, PUSH_D, POP_D, PUSH_R, POP_R, IN, OUT} }

  /** What is wrong with the operands of an instruction, the first fault first. */
  predicate OperandFault(op: Opcode, ops: seq<Token>, known: set<Name>, e: AssemblerError) {
    if |ops| != (if op == HALT then 0 else if OneRegister(op) then 1 else 2) then e == OperandCount
    else if op == HALT then false
    else if !ops[0].Ident? then e == ExpectedRegister
    else if OneRegister(op) then false
    else if TwoRegisters(op) then !ops[1].Ident? && e == ExpectedRegister
    else if RegisterAndValue(op) then ops[1].Junk? && e == ExpectedRegister
    else !Constant(ops[1], known) && e == UndefinedLabel
  }

  predicate PseudoFault(set_: bool, ops: seq<Token>, known: set<Name>, e: AssemblerError) {
    if |ops| != 2 then e == OperandCount
    else if !ops[0].Ident? then e == ExpectedRegister
    else if set_ then !Constant(ops[1], known) && e == ExpectedConstant
    else !ops[1].Ident? && e == ExpectedRegister
  }

  /** What is wrong with a line. */
  predicate LineFault(line: Line, known: set<Name>, e: AssemblerError) {
    match line.mnemonic
    case None => false
    case Some(Unknown(text)) => e == UnknownMnemonic(text)
    case Some(Set) => PseudoFault(true, line.operands, known, e)
    case Some(Mov) => PseudoFault(false, line.operands, known, e)
    case Some(Real(op)) => OperandFault(op, line.operands, known, e)
  }

  lemma FillTwo(specs: seq<OperandSpec>, tokens: seq<Token>, labels: Labels, address: int, dto: InstructionDto)
    requires |specs| == |tokens| <= 2
    ensures FillOperands(specs, tokens, labels, address, dto)
         == if |specs| == 0 then Ok(dto)
            else
              var first := FillOperand(specs[0], tokens[0], labels, address, dto);
              if first.Err? || |specs| == 1 then first
              else FillOperand(specs[1], tokens[1], labels, address, first.value)
  {
    hide FillOperand;
    if |specs| == 2 {
      assert specs[1..] == [specs[1]] && tokens[1..] == [tokens[1]];
      FillOne(specs[1..], tokens[1..], labels, address, FillOperand(specs[0], tokens[0], labels, address, dto));
    } else if |specs| == 1 {
      FillOne(specs, tokens, labels, address, Ok(dto));
    }
  }

  lemma FillOne(specs: seq<OperandSpec>, tokens: seq<Token>, labels: Labels, address: int,
                dto: Result<InstructionDto, AssemblerError>)
    requires |specs| == |tokens| == 1
    ensures dto.Ok? ==>
      FillOperands(specs, tokens, labels, address, dto.value) == FillOperand(specs[0], tokens[0], labels, address, dto.value)
  {
    hide FillOperand;
    assert specs[1..] == [];
  }

  lemma RealFaults(op: Opcode, line: Line, address: int, labels: Labels, e: AssemblerError)
    requires line.mnemonic == Some(Real(op))
    ensures EmitLine(line, address, labels) == Err(e) <==> OperandFault(op, line.operands, labels.Keys, e)
  {
    hide FillOperands;
    if |line.operands| == |OperandSpecs(op)| {
      FillTwo(OperandSpecs(op), line.operands, labels, address, InstructionDto(op, None, None, None));
    }
  }

  /** A line is refused with exactly its fault. */
  lemma EmitLineFaults(line: Line, address: int, labels: Labels, e: AssemblerError)
    ensures EmitLine(line, address, labels) == Err(e) <==> LineFault(line, labels.Keys, e)
  {
    match line.mnemonic
    case Some(Real(op)) => RealFaults(op, line, address, labels, e);
    case _ =>
  }

  // ---- the whole source ----

  /** Line `i` has the fault `e`, and no line before it has any. */
  ghost predicate FirstFaulty(lines: seq<Line>, known: set<Name>, i: nat, e: AssemblerError)
    requires i < |lines|
  {
    LineFault(lines[i], known, e) && forall k :: 0 <= k < i ==> NoFault(lines[k], known)
  }

  ghost predicate NoFault(line: Line, known: set<Name>) { forall e :: !LineFault(line, known, e) }

  lemma {:induction false} EmitRefuses(lines: seq<PlacedLine>, labels: Labels, e: AssemblerError)
    ensures Emit(lines, labels) == Err(e)
       <==> exists i :: 0 <= i < |lines| && LineFault(lines[i].line, labels.Keys, e)
                        && forall k :: 0 <= k < i ==> NoFault(lines[k].line, labels.Keys)
  {
    hide EmitLine, LineFault;
    if lines != [] {
      var rest := lines[1..];
      EmitRefuses(rest, labels, e);
      var first := EmitLine(lines[0].line, lines[0].address, labels);
      forall e'
        ensures first == Err(e') <==> LineFault(lines[0].line, labels.Keys, e')
      {
        EmitLineFaults(lines[0].line, lines[0].address, labels, e');
      }
      if first.Err? {
        assert !NoFault(lines[0].line, labels.Keys);
      } else {
        assert NoFault(lines[0].line, labels.Keys);
        if Emit(rest, labels) == Err(e) {
          var i :| 0 <= i < |rest| && LineFault(rest[i].line, labels.Keys, e)
                   && forall k :: 0 <= k < i ==> NoFault(rest[k].line, labels.Keys);
          assert lines[i + 1] == rest[i];
          assert forall k :: 0 < k < i + 1 ==> lines[k] == rest[k - 1];
        }
        if i :| 0 <= i < |lines| && LineFault(lines[i].line, labels.Keys, e)
                && forall k :: 0 <= k < i ==> NoFault(lines[k].line, labels.Keys) {
          assert rest[i - 1] == lines[i];
          assert forall k :: 0 <= k < i - 1 ==> rest[k] == lines[k + 1];
        }
      }
    }
  }

  function Members(names: seq<Name>): set<Name> { set n | n in names }

  /** The first name that is known already, or was there before. */
  function Collision(names: seq<Name>, known: set<Name>): Option<Name> {
    if names == [] then None
    else if names[0] in known then Some(names[0])
    else Collision(names[1..], known + {names[0]})
  }

  /** The name at `k` is the first that collides. */
  predicate CollidesAt(names: seq<Name>, known: set<Name>, k: nat)
    requires k < |names|
  {
    (names[k] in known || names[k] in names[..k]) && Distinct(names[..k]) && forall j :: 0 <= j < k ==> names[j] !in known
  }

  lemma CollidesFirst(names: seq<Name>, known: set<Name>)
    requires names != []
    ensures CollidesAt(names, known, 0) <==> names[0] in known
  {
    DistinctNil(names[..0]);
  }

  lemma CollidesLater(names: seq<Name>, known: set<Name>, k: nat)
    requires 0 < k < |names|
    ensures CollidesAt(names, known, k) <==> names[0] !in known && CollidesAt(names[1..], known + {names[0]}, k - 1)
  {
    hide Distinct;
    var rest := names[1..];
    assert names[..k] == [names[0]] + rest[..k - 1];
    DistinctAppend([names[0]], rest[..k - 1]);
    DistinctOne(names[0]);
    assert forall j :: 0 < j < k ==> names[j] == rest[j - 1];
    assert (forall j :: 0 <= j < k - 1 ==> rest[j] != names[0]) <==> names[0] !in rest[..k - 1];
    if names[0] !in known && (forall j :: 0 <= j < k - 1 ==> rest[j] !in known + {names[0]}) {
      assert forall j :: 0 < j < k ==> names[j] !in known;
    }
  }

  lemma DistinctOne(n: Name)
    ensures Distinct([n])
  {
  }

  lemma {:induction false} CollisionIs(names: seq<Name>, known: set<Name>, n: Name)
    ensures Collision(names, known) == Some(n) <==> exists k :: 0 <= k < |names| && names[k] == n && CollidesAt(names, known, k)
  {
    hide CollidesAt;
    if names != [] {
      var rest, known' := names[1..], known + {names[0]};
      CollisionIs(rest, known', n);
      CollidesFirst(names, known);
      forall k | 0 < k < |names|
        ensures names[k] == rest[k - 1]
        ensures CollidesAt(names, known, k) <==> names[0] !in known && CollidesAt(rest, known', k - 1)
      {
        CollidesLater(names, known, k);
      }
      if names[0] !in known {
        if k :| 0 <= k < |rest| && rest[k] == n && CollidesAt(rest, known', k) {
          assert names[k + 1] == n && CollidesAt(names, known, k + 1);
        }
      }
    }
  }

  /** `name` is the first of `names` that stands there before. */
  ghost predicate FirstRepeated(names: seq<Name>, name: Name) {
    exists k :: 0 <= k < |names| && names[k] == name && name in names[..k] && Distinct(names[..k])
  }

  lemma CollisionRepeats(names: seq<Name>, n: Name)
    ensures Collision(names, {}) == Some(n) <==> FirstRepeated(names, n)
  {
    hide Distinct, Collision;
    CollisionIs(names, {}, n);
  }

  lemma {:induction false} CollisionAppend(xs: seq<Name>, ys: seq<Name>, known: set<Name>)
    ensures Collision(xs + ys, known)
         == if Collision(xs, known).Some? then Collision(xs, known) else Collision(ys, known + Members(xs))
  {
    if xs == [] {
      assert xs + ys == ys && known + Members(xs) == known;
    } else {
      assert (xs + ys)[1..] == xs[1..] + ys;
      CollisionAppend(xs[1..], ys, known + {xs[0]});
      assert known + {xs[0]} + Members(xs[1..]) == known + Members(xs);
    }
  }

  lemma {:induction false} AddLabelsCollides(names: seq<Name>, address: int, labels: Labels)
    ensures AddLabels(names, address, labels).Err? <==> Collision(names, labels.Keys).Some?
    ensures AddLabels(names, address, labels).Err? ==>
      AddLabels(names, address, labels).error == DuplicateLabel(Collision(names, labels.Keys).value)
    ensures AddLabels(names, address, labels).Ok? ==> AddLabels(names, address, labels).value.Keys == labels.Keys + Members(names)
  {
    if names != [] && names[0] !in labels {
      AddLabelsCollides(names[1..], address, labels[names[0] := address]);
      assert labels[names[0] := address].Keys == labels.Keys + {names[0]};
      assert labels.Keys + {names[0]} + Members(names[1..]) == labels.Keys + Members(names);
    }
  }

  lemma {:induction false} ResolveCollides(lines: seq<Line>, address: int, labels: Labels)
    ensures ResolveFrom(lines, address, labels).Err? <==> Collision(Defined(lines), labels.Keys).Some?
    ensures ResolveFrom(lines, address, labels).Err? ==>
      ResolveFrom(lines, address, labels).error == DuplicateLabel(Collision(Defined(lines), labels.Keys).value)
  {
    hide AddLabels, Collision;
    if lines == [] {
      NoCollision(Defined(lines), labels.Keys);
    } else {
      var names := lines[0].labels;
      AddLabelsCollides(names, address, labels);
      CollisionAppend(names, Defined(lines[1..]), labels.Keys);
      if AddLabels(names, address, labels).Ok? {
        ResolveCollides(lines[1..], address + Size(lines[0]), AddLabels(names, address, labels).value);
      }
    }
  }

  lemma NoCollision(names: seq<Name>, known: set<Name>)
    requires names == []
    ensures Collision(names, known).None?
  {
  }

  /** A source that does not assemble is refused with its first repeated label, wherever the faulty lines
      are, or else with the first fault of its first faulty line. */
  lemma AssembleRefuses(lines: seq<Line>, e: AssemblerError)
    ensures Assemble(lines) == Err(e)
       <==> || (e.DuplicateLabel? && FirstRepeated(Defined(lines), e.name))
            || (Distinct(Defined(lines))
                && exists i :: 0 <= i < |lines| && FirstFaulty(lines, Members(Defined(lines)), i, e))
  {
    hide Distinct, LineFault, Emit, ResolveFrom, FirstRepeated;
    ResolveAccepts(lines, 0, map[]);
    ResolveCollides(lines, 0, map[]);
    var none: Labels := map[];
    assert none.Keys == {};
    if e.DuplicateLabel? {
      CollisionRepeats(Defined(lines), e.name);
    }
    if Resolve(lines).Ok? {
      var r := Resolve(lines).value;
      assert r.labels.Keys == Members(Defined(lines));
      EmitRefuses(r.lines, r.labels, e);
      assert forall i: nat :: i < |lines| ==>
        (FirstFaulty(lines, Members(Defined(lines)), i, e)
         <==> LineFault(r.lines[i].line, r.labels.Keys, e) && forall k :: 0 <= k < i ==> NoFault(r.lines[k].line, r.labels.Keys));
    }
  }
}
