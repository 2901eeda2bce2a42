/** The assembler from source text on (`services/assembler/service.py`): lines parsed, mnemonics looked up,
    operands classified, labels resolved, instructions emitted. */
module SourceText {
  import opened Wrappers
  import opened Isa
  import opened Assembler
  import opened AssemblerStages
  import Parser
  import ParserLayouts
  import IntegerText

  // ---- specs.py: the mnemonics ----

  /** The lookups of `_emit_line`: `SET`, `MOV`, then the opcodes by their values. */
  function MnemonicOf(m: string): Mnemonic {
    if m == "SET" then Set
    else if m == "MOV" then Mov
    else if m == "LOAD" then Real(LOAD)
    else if m == "STORE" then Real(STORE)
    else if m == "ADD" then Real(ADD)
    else if m == "SUB" then Real(SUB)
    else if m == "JMP" then Real(JMP)
    else if m == "JZ" then Real(JZ)
    else if m == "JS" then Real(JS)
    else if m == "PUSH_D" then Real(PUSH_D)
    else if m == "POP_D" then Real(POP_D)
    else if m == "PUSH_R" then Real(PUSH_R)
    else if m == "POP_R" then Real(POP_R)
    else if m == "AND" then Real(AND)
    else if m == "OR" then Real(OR)
    else if m == "INVERT" then Real(INVERT)
    else if m == "IN" then Real(IN)
    else if m == "OUT" then Real(OUT)
    else if m == "HALT" then Real(HALT)
    else Unknown(m)
  }

  /** The text of a mnemonic. */
  function TextOf(m: Mnemonic): string {
    match m
    case Set => "SET"
    case Mov => "MOV"
    case Unknown(text) => text
    case Real(op) =>
      match op
      case LOAD => "LOAD" case STORE => "STORE" case ADD => "ADD" case SUB => "SUB"
      case JMP => "JMP" case JZ => "JZ" case JS => "JS"
      case PUSH_D => "PUSH_D" case POP_D => "POP_D" case PUSH_R => "PUSH_R" case POP_R => "POP_R"
      case AND => "AND" case OR => "OR" case INVERT => "INVERT"
      case IN => "IN" case OUT => "OUT" case HALT => "HALT"
  }

  const KNOWN := ["SET", "MOV", "LOAD", "STORE", "ADD", "SUB", "JMP", "JZ", "JS", "PUSH_D", "POP_D", "PUSH_R", "POP_R",
                  "AND", "OR", "INVERT", "IN", "OUT", "HALT"]

  /** `text` is how `m` is written: one of the nineteen, or none of them. */
  predicate Spelled(text: string, m: Mnemonic) { text == TextOf(m) && (m.Unknown? <==> text !in KNOWN) }

  lemma LookedUp(text: string)
    ensures text in KNOWN <==> !MnemonicOf(text).Unknown?
  {
  }

  lemma FoundAsWritten(text: string)
    ensures TextOf(MnemonicOf(text)) == text
  {
  }

  lemma PseudosFound()
    ensures MnemonicOf("SET") == Set && MnemonicOf("MOV") == Mov
    ensures MnemonicOf("LOAD") == Real(LOAD) && MnemonicOf("STORE") == Real(STORE)
    ensures MnemonicOf("ADD") == Real(ADD) && MnemonicOf("SUB") == Real(SUB)
  {
  }

  lemma JumpsFound()
    ensures MnemonicOf("JMP") == Real(JMP) && MnemonicOf("JZ") == Real(JZ) && MnemonicOf("JS") == Real(JS)
    ensures MnemonicOf("IN") == Real(IN) && MnemonicOf("OUT") == Real(OUT) && MnemonicOf("HALT") == Real(HALT)
  {
  }

  lemma StacksFound()
    ensures MnemonicOf("PUSH_D") == Real(PUSH_D) && MnemonicOf("POP_D") == Real(POP_D)
    ensures MnemonicOf("PUSH_R") == Real(PUSH_R) && MnemonicOf("POP_R") == Real(POP_R)
    ensures MnemonicOf("AND") == Real(AND) && MnemonicOf("OR") == Real(OR) && MnemonicOf("INVERT") == Real(INVERT)
  {
  }

  /** A mnemonic is found under its own spelling and no other. */
  lemma SpelledIs(text: string, m: Mnemonic)
    ensures MnemonicOf(text) == m <==> Spelled(text, m)
  {
    hide MnemonicOf, KNOWN;
    LookedUp(text);
    FoundAsWritten(text);
    PseudosFound();
    JumpsFound();
    StacksFound();
  }

  // ---- operands ----

  /** An operand: an integer if it reads as one, a name if it is an identifier. */
  function TokenOf(t: string): Token {
    if IntegerText.ParseInt(t).Some? then Int(IntegerText.ParseInt(t).value)
    else if IsIdentifier(t) then Ident(Other(t))
    else Junk(t)
  }

  /** `str.isidentifier`. */
  predicate IsIdentifier(s: string) {
    && s != "" && (Parser.IsLetter(s[0]) || s[0] == '_')
    && forall i :: 0 <= i < |s| ==> Parser.IsWordChar(s[i])
  }

  /** `text` stands for the token: one of the ways of writing the integer, or the name itself. */
  ghost predicate StandsFor(text: string, t: Token) {
    match t
    case Int(v) => IntegerText.Writes(text, v)
    case Ident(n) => n == Other(text) && ParserLayouts.Identifier(text)
    case Junk(junk) => junk == text && !ParserLayouts.Identifier(text) && forall v :: !IntegerText.Writes(text, v)
  }

  lemma IdentifierIs(s: string)
    ensures IsIdentifier(s) <==> ParserLayouts.Identifier(s)
  {
    ParserLayouts.CharsAgree();
    hide Parser.IsWordChar, ParserLayouts.NameChar;
    if s != "" {
      FirstCharacter(s);
      assert IsIdentifier(s) ==> ParserLayouts.NameChar(s[0]);
    }
  }

  lemma FirstCharacter(s: string)
    requires s != ""
    ensures ParserLayouts.NameChar(s[0]) && !ParserLayouts.Numeral(s[0]) <==> Parser.IsLetter(s[0]) || s[0] == '_'
  {
  }

  /** An identifier is no integer: integers start with a sign or a digit. */
  lemma NoIntegerName(s: string)
    requires ParserLayouts.Identifier(s)
    ensures IntegerText.ParseInt(s).None?
  {
    hide ParserLayouts.NameChar;
    assert ParserLayouts.NameChar(s[0]);
    if IntegerText.ParseInt(s).Some? {
      var t := IntegerText.SignedFound(s);
      IntegerText.NumeralRead(t.numeral);
      StartsOutside(s[0]);
    }
  }

  lemma StartsOutside(c: char)
    requires ParserLayouts.NameChar(c) && !ParserLayouts.Numeral(c)
    ensures c != '-' && c != '+' && !('0' <= c <= '9')
  {
  }

  lemma StandsForIs(text: string, t: Token)
    ensures TokenOf(text) == t <==> StandsFor(text, t)
  {
    hide IntegerText.ParseInt, IntegerText.Writes, IsIdentifier, ParserLayouts.Identifier;
    IdentifierIs(text);
    if ParserLayouts.Identifier(text) {
      NoIntegerName(text);
    }
    forall v
      ensures IntegerText.ParseInt(text) == Some(v) <==> IntegerText.Writes(text, v)
    {
      IntegerText.ReadsExactly(text, v);
    }
    if t.Int? {
      IntegerText.ReadsExactly(text, t.value);
    }
  }

  // ---- lines ----

  function NamesOf(labels: seq<string>): (names: seq<Name>)
    ensures |names| == |labels| && forall i :: 0 <= i < |labels| ==> names[i] == Other(labels[i])
  {
    seq(|labels|, i requires 0 <= i < |labels| => Other(labels[i]))
  }

  function TokensOf(operands: seq<string>): (tokens: seq<Token>)
    ensures |tokens| == |operands| && forall i :: 0 <= i < |operands| ==> tokens[i] == TokenOf(operands[i])
  {
    seq(|operands|, i requires 0 <= i < |operands| => TokenOf(operands[i]))
  }

  /** What the resolver and the emitter see of a parsed line. */
  function LineOf(sl: Parser.SourceLine): Line {
    Line(NamesOf(sl.labels), if sl.mnemonic.Some? then Some(MnemonicOf(sl.mnemonic.value)) else None, TokensOf(sl.operands))
  }

  function ReadLine(raw: string): Result<Line, Parser.ParseError> {
    match Parser.ParseLine(raw)
    case Err(e) => Err(e)
    case Ok(sl) => Ok(LineOf(sl))
  }

  /** The parsed line says what `line` is, word for word. */
  ghost predicate Says(sl: Parser.SourceLine, line: Line) {
    && |line.labels| == |sl.labels| && (forall i :: 0 <= i < |sl.labels| ==> line.labels[i] == Other(sl.labels[i]))
    && (line.mnemonic.Some? <==> sl.mnemonic.Some?)
    && (sl.mnemonic.Some? ==> Spelled(sl.mnemonic.value, line.mnemonic.value))
    && |line.operands| == |sl.operands|
    && forall i :: 0 <= i < |sl.operands| ==> StandsFor(sl.operands[i], line.operands[i])
  }

  /** `raw` is one of the ways of writing `line`: any layout, any spelling of its integers. */
  ghost predicate Depicts(raw: string, line: Line) {
    exists sl: Parser.SourceLine :: ParserLayouts.Lays(raw, sl) && Says(sl, line)
  }

  lemma SaysIs(sl: Parser.SourceLine, line: Line)
    ensures LineOf(sl) == line <==> Says(sl, line)
  {
    hide TokenOf, StandsFor, MnemonicOf, Spelled;
    if sl.mnemonic.Some? && line.mnemonic.Some? {
      SpelledIs(sl.mnemonic.value, line.mnemonic.value);
    }
    if |sl.operands| == |line.operands| {
      forall i | 0 <= i < |sl.operands|
        ensures TokenOf(sl.operands[i]) == line.operands[i] <==> StandsFor(sl.operands[i], line.operands[i])
      {
        StandsForIs(sl.operands[i], line.operands[i]);
      }
    }
    if Says(sl, line) {
      assert NamesOf(sl.labels) == line.labels && TokensOf(sl.operands) == line.operands;
    }
  }

  /** A text line is read as `line` exactly when it is one of the ways of writing it. */
  lemma ReadsExactly(raw: string, line: Line)
    ensures ReadLine(raw) == Ok(line) <==> Depicts(raw, line)
  {
    hide Parser.ParseLine, LineOf, Says, ParserLayouts.Lays;
    if ReadLine(raw) == Ok(line) {
      var sl := Parser.ParseLine(raw).value;
      ParserLayouts.ParsesExactly(raw, sl);
      SaysIs(sl, line);
      assert ParserLayouts.Lays(raw, sl) && Says(sl, line);
    }
    if Depicts(raw, line) {
      var sl: Parser.SourceLine :| ParserLayouts.Lays(raw, sl) && Says(sl, line);
      ParserLayouts.ParsesExactly(raw, sl);
      SaysIs(sl, line);
    }
  }

  // ---- the assembler ----

  datatype TextError = NotParsed(cause: Parser.ParseError) | NotAssembled(error: AssemblerError)

  function ReadLines(raws: seq<string>): Result<seq<Line>, Parser.ParseError> {
    if raws == [] then Ok([])
    else
      var front := ReadLines(raws[..|raws| - 1]);
      if front.Err? then front
      else
        match ReadLine(raws[|raws| - 1])
        case Err(e) => Err(e)
        case Ok(line) => Ok(front.value + [line])
  }

  /** `TextAssembler.assemble`, on the lines of the source. */
  function AssembleText(raws: seq<string>): Result<Assembly, TextError> {
    match ReadLines(raws)
    case Err(e) => Err(NotParsed(e))
    case Ok(lines) =>
      match Assemble(lines)
      case Err(e) => Err(NotAssembled(e))
      case Ok(asm) => Ok(asm)
  }

  /** Line by line, then the two stages after it: what one line lacks is told before any label is looked at. */
  method AssembleSource(raws: seq<string>) returns (r: Result<Assembly, TextError>)
    ensures r == AssembleText(raws)
  {
    hide ReadLine;
    var lines: seq<Line> := [];
    for i := 0 to |raws|
      invariant ReadLines(raws[..i]) == Ok(lines)
    {
      assert raws[..i + 1][..i] == raws[..i];
      var parsed := Parser.PeelAndParse(raws[i]);
      assert ReadLine(raws[i]) == if parsed.Ok? then Ok(LineOf(parsed.value)) else Err(parsed.error) by { ReadLineIs(raws[i]); }
      if parsed.Err? {
        ReadStops(raws, i);
        return Err(NotParsed(parsed.error));
      }
      lines := lines + [LineOf(parsed.value)];
    }
    assert raws[..|raws|] == raws;
    var assembled := AssembleLines(lines);
    return if assembled.Ok? then Ok(assembled.value) else Err(NotAssembled(assembled.error));
  }

  lemma ReadLineIs(raw: string)
    ensures ReadLine(raw) == match Parser.ParseLine(raw) case Err(e) => Err(e) case Ok(sl) => Ok(LineOf(sl))
  {
  }

  lemma {:induction false} ReadStops(raws: seq<string>, i: nat)
    requires i < |raws| && ReadLines(raws[..i]).Ok? && ReadLine(raws[i]).Err?
    ensures ReadLines(raws).Err? && ReadLines(raws).error == ReadLine(raws[i]).error
    decreases |raws|
  {
    hide ReadLine;
    var front := raws[..|raws| - 1];
    if i < |front| {
      assert front[..i] == raws[..i];
      ReadStops(front, i);
    } else {
      assert raws[..i] == front;
    }
  }

  /** The source is read as `lines` exactly when each of its lines is a way of writing the one there. */
  lemma {:induction false} LinesRead(raws: seq<string>, lines: seq<Line>)
    ensures ReadLines(raws) == Ok(lines)
       <==> |raws| == |lines| && forall i :: 0 <= i < |raws| ==> Depicts(raws[i], lines[i])
    decreases |raws|
  {
    hide ReadLine, Depicts;
    if raws != [] {
      var n := |raws| - 1;
      if lines != [] {
        LinesRead(raws[..n], lines[..|lines| - 1]);
        ReadsExactly(raws[n], lines[|lines| - 1]);
        assert lines == lines[..|lines| - 1] + [lines[|lines| - 1]];
      }
    }
  }

  /** However a program is laid out and its integers are written, it assembles to the same: what its lines
      assemble to. */
  lemma TextAssembles(raws: seq<string>, lines: seq<Line>)
    requires |raws| == |lines| && forall i :: 0 <= i < |raws| ==> Depicts(raws[i], lines[i])
    ensures Assemble(lines).Ok? ==> AssembleText(raws) == Ok(Assemble(lines).value)
    ensures Assemble(lines).Err? ==> AssembleText(raws) == Err(NotAssembled(Assemble(lines).error))
  {
    hide Depicts, Assemble;
    LinesRead(raws, lines);
  }
}
