/** The shapes of line the kernel is written in. */
module Forms {
  import opened Wrappers
  import opened Isa
  import opened Assembler

  /** The shapes the kernel's lines have. */
  datatype Form =
    | At(l: Label)
    | One(opcode: Opcode, r: Register)
    | Two(opcode: Opcode, r: Register, s: Register)
    | WithInt(opcode: Opcode, r: Register, k: int)
    | To(opcode: Opcode, r: Register, l: Label)
    | SetInt(r: Register, k: int)
    | SetLabel(r: Register, l: Label)
    | Copy(r: Register, s: Register)
    | Halts

  /** The line a form stands for: a label on its own, or a mnemonic with its operands. */
  function Text(form: Form): Line {
    match form
    case At(l) => Line([Lbl(l)], None, [])
    case One(opcode, r) => Line([], Some(Real(opcode)), [Ident(Reg(r))])
    case Two(opcode, r, s) => Line([], Some(Real(opcode)), [Ident(Reg(r)), Ident(Reg(s))])
    case WithInt(opcode, r, k) => Line([], Some(Real(opcode)), [Ident(Reg(r)), Int(k)])
    case To(opcode, r, l) => Line([], Some(Real(opcode)), [Ident(Reg(r)), Ident(Lbl(l))])
    case SetInt(r, k) => Line([], Some(Set), [Ident(Reg(r)), Int(k)])
    case SetLabel(r, l) => Line([], Some(Set), [Ident(Reg(r)), Ident(Lbl(l))])
    case Copy(r, s) => Line([], Some(Mov), [Ident(Reg(r)), Ident(Reg(s))])
    case Halts => Line([], Some(Real(HALT)), [])
  }

  function Lines(forms: seq<Form>): (lines: seq<Line>)
    ensures |lines| == |forms|
    ensures forall i :: 0 <= i < |forms| ==> lines[i] == Text(forms[i])
  {
    seq(|forms|, i requires 0 <= i < |forms| => Text(forms[i]))
  }
}
