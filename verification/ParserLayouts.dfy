/** What the line parser reads, told without it: every way of laying a line out in text. A text parses to
    a line exactly when it is one of the line's layouts. */
module ParserLayouts {
  import opened Wrappers
  import opened Parser

  // ---- ASCII, by code point ----

  predicate Blank(c: char) { c as int == 32 || 9 <= c as int <= 13 || 28 <= c as int <= 31 }

  predicate Letter(c: char) { 65 <= c as int <= 90 || 97 <= c as int <= 122 }

  predicate Numeral(c: char) { 48 <= c as int <= 57 }

  predicate Underscore(c: char) { c as int == 95 }

  predicate NameChar(c: char) { Letter(c) || Numeral(c) || Underscore(c) }

  predicate Blanks(s: string) { forall i :: 0 <= i < |s| ==> Blank(s[i]) }

  predicate Identifier(s: string) { s != "" && !Numeral(s[0]) && forall i :: 0 <= i < |s| ==> NameChar(s[i]) }

  /** Letters, digits and underscores, and not underscores only. */
  predicate MnemonicText(s: string) {
    && (forall i :: 0 <= i < |s| ==> NameChar(s[i]))
    && exists i :: 0 <= i < |s| && !Underscore(s[i])
  }

  predicate Free(s: string, c: char) { forall i :: 0 <= i < |s| ==> s[i] != c }

  predicate OperandText(s: string) {
    s != "" && !Blank(s[0]) && !Blank(s[|s| - 1]) && Free(s, ',') && Free(s, ';')
  }

  // ---- layouts ----

  /** A label behind some blanks; what stands between two commas, an operand or nothing, in its blanks. */
  datatype LabelText = LabelText(pad: string, name: string)
  datatype Part = Part(before: string, text: string, after: string)

  datatype Body = Nothing | Instruction(mnemonic: string, gap: string, parts: seq<Part>)

  datatype Layout = Layout(labels: seq<LabelText>, indent: string, body: Body, comment: Option<string>)

  predicate ValidLabel(l: LabelText) { Blanks(l.pad) && Identifier(l.name) }

  predicate ValidPart(p: Part) { Blanks(p.before) && Blanks(p.after) && (p.text == "" || OperandText(p.text)) }

  predicate ValidBody(b: Body) {
    b.Instruction? ==>
      && MnemonicText(b.mnemonic) && Blanks(b.gap)
      && (b.parts != [] ==> b.gap != "")
      && forall i :: 0 <= i < |b.parts| ==> ValidPart(b.parts[i])
  }

  predicate ValidLabels(labels: seq<LabelText>) { forall i :: 0 <= i < |labels| ==> ValidLabel(labels[i]) }

  predicate ValidLayout(l: Layout) { ValidLabels(l.labels) && Blanks(l.indent) && ValidBody(l.body) }

  function WriteLabels(labels: seq<LabelText>): string {
    if labels == [] then "" else labels[0].pad + (labels[0].name + (":" + WriteLabels(labels[1..])))
  }

  function WritePart(p: Part): string { p.before + (p.text + p.after) }

  function WriteParts(parts: seq<Part>): string {
    if parts == [] then ""
    else if |parts| == 1 then WritePart(parts[0])
    else WritePart(parts[0]) + ("," + WriteParts(parts[1..]))
  }

  function WriteBody(b: Body): string {
    match b
    case Nothing => ""
    case Instruction(m, gap, parts) => m + (gap + WriteParts(parts))
  }

  function WriteComment(c: Option<string>): string { if c.Some? then ";" + c.value else "" }

  /** The text of a layout. */
  function Write(l: Layout): string { WriteLabels(l.labels) + (l.indent + WriteBody(l.body)) + WriteComment(l.comment) }

  function NamesOf(labels: seq<LabelText>): seq<string> {
    if labels == [] then [] else [labels[0].name] + NamesOf(labels[1..])
  }

  function TextsOf(parts: seq<Part>): seq<string> {
    if parts == [] then []
    else (if parts[0].text == "" then [] else [parts[0].text]) + TextsOf(parts[1..])
  }

  /** The line of a layout; blank operands do not count. */
  function Content(l: Layout): SourceLine {
    match l.body
    case Nothing => SourceLine(NamesOf(l.labels), None, [])
    case Instruction(m, _, parts) => SourceLine(NamesOf(l.labels), Some(m), TextsOf(parts))
  }

  // ---- the parser's characters ----

  lemma CharsAgree()
    ensures forall c: char :: IsSpace(c) <==> Blank(c)
    ensures forall c: char :: IsLetter(c) <==> Letter(c)
    ensures forall c: char :: IsWordChar(c) <==> NameChar(c)
    ensures forall c: char :: c == '_' <==> Underscore(c)
  {
  }

  lemma MnemonicAgrees(m: string)
    ensures WellFormedMnemonic(m) <==> MnemonicText(m)
  {
    CharsAgree();
    hide IsWordChar, NameChar, Underscore;
  }

  // ---- runs of characters ----

  lemma {:induction false} SpacesRun(pad: string, s: string)
    requires Blanks(pad)
    ensures Spaces(pad + s) == |pad| + Spaces(s) && (pad + s)[|pad|..] == s
  {
    CharsAgree();
    if pad == "" {
      assert pad + s == s;
    } else {
      assert (pad + s)[1..] == pad[1..] + s;
      SpacesRun(pad[1..], s);
    }
  }

  lemma {:induction false} WordRun(word: string, rest: string)
    requires forall i :: 0 <= i < |word| ==> NameChar(word[i])
    requires rest == "" || !NameChar(rest[0])
    ensures WordLength(word + rest) == |word|
  {
    CharsAgree();
    hide IsWordChar, NameChar;
    if word == "" {
      assert word + rest == rest;
    } else {
      assert (word + rest)[1..] == word[1..] + rest;
      WordRun(word[1..], rest);
    }
  }

  lemma {:induction false} TokenRun(word: string, rest: string)
    requires forall i :: 0 <= i < |word| ==> !Blank(word[i])
    requires rest == "" || Blank(rest[0])
    ensures TokenLength(word + rest) == |word|
  {
    CharsAgree();
    hide IsSpace, Blank;
    if word == "" {
      assert word + rest == rest;
    } else {
      assert (word + rest)[1..] == word[1..] + rest;
      TokenRun(word[1..], rest);
    }
  }

  /** What the counts count. */
  lemma {:induction false} SpacesAre(s: string)
    ensures Blanks(s[..Spaces(s)]) && (Spaces(s) < |s| ==> !Blank(s[Spaces(s)]))
  {
    CharsAgree();
    hide IsSpace, Blank;
    if s != "" && IsSpace(s[0]) {
      SpacesAre(s[1..]);
      assert s[..Spaces(s)] == [s[0]] + s[1..][..Spaces(s) - 1];
    }
  }

  lemma {:induction false} WordIs(s: string)
    ensures forall i :: 0 <= i < WordLength(s) ==> NameChar(s[i])
  {
    CharsAgree();
    hide IsWordChar, NameChar;
    if s != "" && IsWordChar(s[0]) {
      WordIs(s[1..]);
      forall i | 0 <= i < WordLength(s)
        ensures NameChar(s[i])
      {
        assert i > 0 ==> s[i] == s[1..][i - 1];
      }
    }
  }

  lemma {:induction false} TokenIs(s: string)
    ensures forall i :: 0 <= i < TokenLength(s) ==> !Blank(s[i])
    ensures TokenLength(s) < |s| ==> Blank(s[TokenLength(s)])
  {
    CharsAgree();
    hide IsSpace, Blank;
    if s != "" && !IsSpace(s[0]) {
      TokenIs(s[1..]);
      forall i | 0 <= i < TokenLength(s)
        ensures !Blank(s[i])
      {
        assert i > 0 ==> s[i] == s[1..][i - 1];
      }
    }
  }

  // ---- stripping ----

  lemma {:induction false} StripRightKeeps(s: string, tail: string)
    requires s != "" && !Blank(s[|s| - 1])
    ensures StripRight(s + tail) == s + StripRight(tail)
    decreases |tail|
  {
    CharsAgree();
    hide IsSpace, Blank;
    if tail == "" {
      assert s + tail == s;
    } else {
      var n := |tail| - 1;
      assert (s + tail)[..|s + tail| - 1] == s + tail[..n];
      assert (s + tail)[|s + tail| - 1] == tail[n];
      if IsSpace(tail[n]) {
        StripRightKeeps(s, tail[..n]);
      }
    }
  }

  lemma {:induction false} StripRightBlanks(s: string)
    requires Blanks(s)
    ensures StripRight(s) == ""
  {
    CharsAgree();
    hide IsSpace, Blank;
    if s != "" {
      StripRightBlanks(s[..|s| - 1]);
    }
  }

  /** What is stripped off on the right. */
  lemma {:induction false} StripRightIs(s: string)
    ensures |StripRight(s)| <= |s| && s == StripRight(s) + s[|StripRight(s)|..]
    ensures Blanks(s[|StripRight(s)|..])
    ensures StripRight(s) != "" ==> !Blank(StripRight(s)[|StripRight(s)| - 1])
  {
    hide IsSpace, Blank, Blanks;
    if s != "" && IsSpace(s[|s| - 1]) {
      var n := |s| - 1;
      StripRightIs(s[..n]);
      OneMoreBlank(s, |StripRight(s)|);
    } else {
      assert s[|s|..] == "";
      NoBlanks();
      if s != "" {
        SpaceIsBlank(s[|s| - 1]);
      }
    }
  }

  lemma NoBlanks()
    ensures Blanks("")
  {
  }

  lemma SpaceIsBlank(c: char)
    ensures IsSpace(c) <==> Blank(c)
  {
  }

  lemma OneMoreBlank(s: string, k: nat)
    requires k < |s| && IsSpace(s[|s| - 1]) && Blanks(s[..|s| - 1][k..]) && s[..|s| - 1] == s[..|s| - 1][..k] + s[..|s| - 1][k..]
    ensures s == s[..k] + s[k..] && Blanks(s[k..])
  {
    hide IsSpace, Blank;
    SpaceIsBlank(s[|s| - 1]);
    assert s[k..] == s[..|s| - 1][k..] + [s[|s| - 1]];
  }

  lemma StripLeftIs(s: string)
    ensures s == s[..Spaces(s)] + StripLeft(s) && Blanks(s[..Spaces(s)])
    ensures StripLeft(s) != "" ==> !Blank(StripLeft(s)[0])
  {
    SpacesAre(s);
  }

  /** Blanks on either side do not matter to what is left. */
  lemma StripIgnoresLeft(pad: string, s: string)
    requires Blanks(pad)
    ensures Strip(pad + s) == Strip(s)
  {
    hide Spaces, StripRight;
    SpacesRun(pad, s);
    var k := Spaces(s);
    assert (pad + s)[|pad| + k..] == s[k..];
  }

  lemma {:induction false} StripIgnoresRight(s: string, pad: string)
    requires Blanks(pad)
    ensures Strip(s + pad) == Strip(s)
  {
    hide Spaces, Blank;
    StripLeftIs(s);
    var t := StripLeft(s);
    var b := s[..Spaces(s)];
    assert s + pad == b + (t + pad);
    StripIgnoresLeft(b, t + pad);
    StripIgnoresLeft(b, t);
    if t == "" {
      assert t + pad == pad && t + "" == t;
      BlanksStrip(pad);
      BlanksStrip("");
    } else {
      StartsSolid(t, pad);
      StartsSolid(t, "");
      assert t + "" == t;
      EndBlanks(t, pad);
    }
  }

  lemma BlanksStrip(s: string)
    requires Blanks(s)
    ensures Strip(s) == ""
  {
    hide Blank;
    assert s + "" == s;
    SpacesRun(s, "");
    assert StripLeft(s) == "";
  }

  lemma StartsSolid(t: string, tail: string)
    requires t != "" && !Blank(t[0])
    ensures StripLeft(t + tail) == t + tail
  {
    CharsAgree();
    assert (t + tail)[0] == t[0];
  }

  lemma {:induction false} EndBlanks(s: string, pad: string)
    requires Blanks(pad)
    ensures StripRight(s + pad) == StripRight(s)
    decreases |pad|
  {
    CharsAgree();
    hide IsSpace, Blank;
    if pad == "" {
      assert s + pad == s;
    } else {
      var n := |pad| - 1;
      assert (s + pad)[..|s + pad| - 1] == s + pad[..n] && (s + pad)[|s + pad| - 1] == pad[n];
      EndBlanks(s, pad[..n]);
    }
  }

  lemma SolidStrips(t: string)
    requires t == "" || (!Blank(t[0]) && !Blank(t[|t| - 1]))
    ensures Strip(t) == t
  {
    CharsAgree();
  }

  lemma PartStrips(p: Part)
    requires ValidPart(p)
    ensures Strip(WritePart(p)) == p.text
  {
    hide Strip, Blank, Blanks, Free;
    StripIgnoresLeft(p.before, p.text + p.after);
    StripIgnoresRight(p.text, p.after);
    SolidStrips(p.text);
  }

  // ---- commas ----

  lemma {:induction false} CommaSplit(o: string, rest: string)
    requires Free(o, ',')
    ensures SplitCommas(o + rest) == [o + SplitCommas(rest)[0]] + SplitCommas(rest)[1..]
  {
    var parts := SplitCommas(rest);
    if o == "" {
      assert o + rest == rest;
      assert "" + parts[0] == parts[0];
    } else {
      assert (o + rest)[1..] == o[1..] + rest;
      CommaSplit(o[1..], rest);
      assert [o[0]] + (o[1..] + parts[0]) == o + parts[0];
    }
  }

  lemma LastSplit(part: string)
    requires Free(part, ',')
    ensures SplitCommas(part) == [part]
  {
    CommaSplit(part, "");
    assert part + "" == part;
  }

  lemma NextSplit(part: string, tail: string)
    requires Free(part, ',')
    ensures SplitCommas(part + ("," + tail)) == [part] + SplitCommas(tail)
  {
    assert ("," + tail)[1..] == tail;
    CommaSplit(part, "," + tail);
    assert part + "" == part;
  }

  lemma {:induction false} OperandsAppend(xs: seq<string>, ys: seq<string>)
    ensures Operands(xs + ys) == Operands(xs) + Operands(ys)
  {
    hide Strip;
    if xs == [] {
      assert xs + ys == ys;
    } else {
      assert (xs + ys)[1..] == xs[1..] + ys;
      OperandsAppend(xs[1..], ys);
    }
  }

  lemma OneOperand(s: string)
    ensures Operands([s]) == if Strip(s) == "" then [] else [Strip(s)]
  {
    hide Strip;
    assert [s][1..] == [];
  }

  lemma BlanksFree(s: string)
    requires Blanks(s)
    ensures Free(s, ',') && Free(s, ';')
  {
  }

  /** Blanks around the whole of the operands do not matter. */
  lemma OperandsIgnoreLeft(pad: string, s: string)
    requires Blanks(pad)
    ensures Operands(SplitCommas(pad + s)) == Operands(SplitCommas(s))
  {
    hide Strip, Blank, SplitCommas;
    BlanksFree(pad);
    CommaSplit(pad, s);
    var parts := SplitCommas(s);
    StripIgnoresLeft(pad, parts[0]);
    OperandsAppend([pad + parts[0]], parts[1..]);
    OperandsAppend([parts[0]], parts[1..]);
    OneOperand(pad + parts[0]);
    OneOperand(parts[0]);
    assert [parts[0]] + parts[1..] == parts;
  }

  lemma {:induction false} SplitEnd(s: string, pad: string)
    requires Free(pad, ',')
    ensures var parts := SplitCommas(s); var n := |parts| - 1;
      SplitCommas(s + pad) == parts[..n] + [parts[n] + pad]
  {
    if s == "" {
      assert s + pad == pad && "" + pad == pad;
      LastSplit(pad);
    } else {
      assert (s + pad)[1..] == s[1..] + pad;
      SplitEnd(s[1..], pad);
      var tail := SplitCommas(s[1..]);
      var n := |tail| - 1;
      if s[0] != ',' && n == 0 {
        assert [s[0]] + (tail[0] + pad) == ([s[0]] + tail[0]) + pad;
      }
    }
  }

  lemma OperandsIgnoreRight(s: string, pad: string)
    requires Blanks(pad)
    ensures Operands(SplitCommas(s + pad)) == Operands(SplitCommas(s))
  {
    hide Strip, Blank, SplitCommas;
    BlanksFree(pad);
    SplitEnd(s, pad);
    var parts := SplitCommas(s);
    var n := |parts| - 1;
    StripIgnoresRight(parts[n], pad);
    OperandsAppend(parts[..n], [parts[n] + pad]);
    OperandsAppend(parts[..n], [parts[n]]);
    OneOperand(parts[n] + pad);
    OneOperand(parts[n]);
    assert parts[..n] + [parts[n]] == parts;
  }

  lemma FreeAppend(s: string, t: string, c: char)
    requires Free(s, c) && Free(t, c)
    ensures Free(s + t, c)
  {
    forall i | 0 <= i < |s + t|
      ensures (s + t)[i] != c
    {
      assert (s + t)[i] == if i < |s| then s[i] else t[i - |s|];
    }
  }

  lemma PartFree(p: Part)
    requires ValidPart(p)
    ensures Free(WritePart(p), ',') && Free(WritePart(p), ';')
  {
    hide Blank, Free;
    BlanksFree(p.before);
    BlanksFree(p.after);
    assert p.text == "" ==> Free(p.text, ',') && Free(p.text, ';') by { NothingFree(); }
    FreeAppend(p.text, p.after, ',');
    FreeAppend(p.text, p.after, ';');
    FreeAppend(p.before, p.text + p.after, ',');
    FreeAppend(p.before, p.text + p.after, ';');
  }

  lemma NothingFree()
    ensures Free("", ',') && Free("", ';')
  {
  }

  /** The parts come apart at their commas. */
  lemma {:induction false} PartsRead(parts: seq<Part>)
    requires parts != [] && forall i :: 0 <= i < |parts| ==> ValidPart(parts[i])
    ensures Operands(SplitCommas(WriteParts(parts))) == TextsOf(parts)
    decreases |parts|
  {
    hide SplitCommas, Strip, ValidPart, WritePart, Operands;
    var p := parts[0];
    PartFree(p);
    PartStrips(p);
    OneOperand(WritePart(p));
    if |parts| == 1 {
      LastSplit(WritePart(p));
      assert parts[1..] == [];
    } else {
      NextSplit(WritePart(p), WriteParts(parts[1..]));
      OperandsAppend([WritePart(p)], SplitCommas(WriteParts(parts[1..])));
      PartsRead(parts[1..]);
    }
  }

  // ---- a layout is read back ----

  lemma NameFree(s: string)
    requires forall i :: 0 <= i < |s| ==> NameChar(s[i])
    ensures Free(s, ';')
  {
  }

  lemma {:induction false} LabelsFree(labels: seq<LabelText>)
    requires ValidLabels(labels)
    ensures Free(WriteLabels(labels), ';')
  {
    if labels != [] {
      var l := labels[0];
      assert ValidLabel(l);
      LabelsFree(labels[1..]);
      hide Blank, NameChar, Free;
      BlanksFree(l.pad);
      NameFree(l.name);
      assert Free(":", ';') by { ColonFree(); }
      FreeAppend(":", WriteLabels(labels[1..]), ';');
      FreeAppend(l.name, ":" + WriteLabels(labels[1..]), ';');
      FreeAppend(l.pad, l.name + (":" + WriteLabels(labels[1..])), ';');
    }
  }

  lemma ColonFree()
    ensures Free(":", ';') && Free(",", ';')
  {
  }

  lemma {:induction false} PartsFree(parts: seq<Part>)
    requires forall i :: 0 <= i < |parts| ==> ValidPart(parts[i])
    ensures Free(WriteParts(parts), ';')
    decreases |parts|
  {
    hide WritePart, ValidPart, Free;
    NothingFree();
    ColonFree();
    if parts != [] {
      PartFree(parts[0]);
      if |parts| > 1 {
        PartsFree(parts[1..]);
        FreeAppend(",", WriteParts(parts[1..]), ';');
        FreeAppend(WritePart(parts[0]), "," + WriteParts(parts[1..]), ';');
      }
    }
  }

  lemma BodyFree(b: Body)
    requires ValidBody(b)
    ensures Free(WriteBody(b), ';')
  {
    hide Blank, NameChar, Free, ValidPart, WriteParts;
    NothingFree();
    if b.Instruction? {
      NameFree(b.mnemonic);
      BlanksFree(b.gap);
      PartsFree(b.parts);
      FreeAppend(b.gap, WriteParts(b.parts), ';');
      FreeAppend(b.mnemonic, b.gap + WriteParts(b.parts), ';');
    }
  }

  lemma {:induction false} CommentCut(s: string, comment: string)
    requires Free(s, ';')
    ensures BeforeComment(s + comment) == s + BeforeComment(comment)
  {
    if s == "" {
      assert s + comment == comment;
    } else {
      assert (s + comment)[1..] == s[1..] + comment;
      CommentCut(s[1..], comment);
    }
  }

  lemma WrittenCuts(l: Layout)
    requires ValidLayout(l)
    ensures BeforeComment(Write(l)) == WriteLabels(l.labels) + (l.indent + WriteBody(l.body))
  {
    hide WriteLabels, WriteBody, Blank, Free, ValidBody, ValidLabels;
    var text := WriteLabels(l.labels) + (l.indent + WriteBody(l.body));
    LabelsFree(l.labels);
    BlanksFree(l.indent);
    BodyFree(l.body);
    FreeAppend(l.indent, WriteBody(l.body), ';');
    FreeAppend(WriteLabels(l.labels), l.indent + WriteBody(l.body), ';');
    CommentCut(text, WriteComment(l.comment));
    assert BeforeComment(WriteComment(l.comment)) == "";
    assert text + "" == text;
  }

  /** A label with its colon is peeled off, whatever follows it. */
  lemma LabelPeels(l: LabelText, rest: string)
    requires ValidLabel(l)
    ensures var s := l.pad + (l.name + (":" + rest)); var n := |l.pad| + |l.name| + 1;
      LabelPrefix(s) == Some(Prefix(l.name, n)) && n <= |s| && s[n..] == rest
  {
    hide Spaces, WordLength, Blank, NameChar, Letter, Numeral, IsLetter, IsSpace;
    var s := l.name + (":" + rest);
    LabelMeasured(l.name, rest);
    SpacesRun(l.pad, s);
    NoSpaces(s);
    assert s[..|l.name|] == l.name;
    assert (l.pad + s)[|l.pad| + |l.name| + 1..] == s[|l.name| + 1..] == rest;
  }

  lemma NoSpaces(s: string)
    requires s != "" && !Blank(s[0])
    ensures Spaces(s) == 0
  {
    CharsAgree();
  }

  lemma LabelMeasured(name: string, rest: string)
    requires Identifier(name)
    ensures LabelLength(name + (":" + rest)) == Some(|name|)
    ensures !Blank((name + (":" + rest))[0])
  {
    hide WordLength;
    CharsAgree();
    var s := name + (":" + rest);
    WordRun(name, ":" + rest);
    assert s[0] == name[0] && NameChar(name[0]);
    assert s[|name|] == (":" + rest)[0];
  }

  /** A body has no label in front. */
  lemma BodyKeeps(indent: string, b: Body)
    requires Blanks(indent) && ValidBody(b)
    ensures LabelPrefix(indent + WriteBody(b)).None?
  {
    hide Spaces, WordLength, Blank, IsSpace;
    var body := WriteBody(b);
    SpacesRun(indent, body);
    if b.Instruction? {
      var tail := b.gap + WriteParts(b.parts);
      MnemonicStarts(b.mnemonic, tail);
      NoSpaces(body);
      GapStarts(b.gap, b.parts);
      BlankIsNoName();
      WordRun(b.mnemonic, tail);
      if |b.mnemonic| < |body| {
        assert body[|b.mnemonic|] == tail[0];
        assert ':' != tail[0] by { ColonIsNoBlank(); }
      }
    } else {
      NoText();
    }
  }

  lemma NoText()
    ensures Spaces("") == 0 && LabelLength("").None?
  {
  }

  lemma BlankIsNoName()
    ensures forall c: char :: Blank(c) ==> !NameChar(c)
  {
  }

  lemma ColonIsNoBlank()
    ensures !Blank(':')
  {
  }

  lemma MnemonicStarts(m: string, tail: string)
    requires MnemonicText(m)
    ensures m != "" && !Blank((m + tail)[0]) && !Blank(m[|m| - 1])
  {
    BlankIsNoName();
    assert (m + tail)[0] == m[0] && NameChar(m[0]) && NameChar(m[|m| - 1]);
  }

  lemma GapStarts(gap: string, parts: seq<Part>)
    requires Blanks(gap) && (parts != [] ==> gap != "")
    ensures var tail := gap + WriteParts(parts); tail == "" || Blank(tail[0])
  {
    hide Blank, WritePart;
  }

  lemma {:induction false} LabelsPeel(labels: seq<LabelText>, indent: string, b: Body)
    requires ValidLabels(labels) && Blanks(indent) && ValidBody(b)
    ensures Peel(WriteLabels(labels) + (indent + WriteBody(b))) == Peeled(NamesOf(labels), indent + WriteBody(b))
    decreases |labels|
  {
    hide WriteBody, LabelPrefix, Blank, ValidBody, Identifier;
    var rest := indent + WriteBody(b);
    if labels == [] {
      assert WriteLabels(labels) + rest == rest;
      BodyKeeps(indent, b);
    } else {
      var l, tail := labels[0], WriteLabels(labels[1..]) + rest;
      assert ValidLabel(l);
      assert WriteLabels(labels) + rest == l.pad + (l.name + (":" + tail));
      LabelPeels(l, tail);
      LabelsPeel(labels[1..], indent, b);
    }
  }

  lemma BodyStrips(indent: string, b: Body)
    requires Blanks(indent) && ValidBody(b)
    ensures Strip(indent + WriteBody(b))
         == if b.Nothing? then "" else b.mnemonic + StripRight(b.gap + WriteParts(b.parts))
  {
    hide Blank, StripRight, WriteParts, StripLeft;
    if b.Nothing? {
      assert indent + "" == indent;
      hide Strip;
      BlanksStrip(indent);
    } else {
      var tail := b.gap + WriteParts(b.parts);
      MnemonicStarts(b.mnemonic, tail);
      StripIgnoresLeft(indent, b.mnemonic + tail);
      assert (b.mnemonic + tail) + "" == b.mnemonic + tail;
      StartsSolid(b.mnemonic + tail, "");
      StripRightKeeps(b.mnemonic, tail);
    }
  }

  lemma BodyReads(labels: seq<string>, b: Body)
    requires ValidBody(b) && b.Instruction?
    ensures ParseBody(labels, b.mnemonic + StripRight(b.gap + WriteParts(b.parts)))
         == Ok(SourceLine(labels, Some(b.mnemonic), TextsOf(b.parts)))
  {
    hide Operands, SplitCommas, StripLeft, StripRight, TokenLength, WriteParts, Blank, WellFormedMnemonic, TextsOf;
    var m, tail := b.mnemonic, b.gap + WriteParts(b.parts);
    var rest := StripRight(tail);
    MnemonicAgrees(m);
    MnemonicStarts(m, rest);
    GapStarts(b.gap, b.parts);
    StripRightIs(tail);
    assert rest == "" || rest[0] == tail[0];
    MnemonicSolid(m);
    TokenRun(m, rest);
    assert (m + rest)[..|m|] == m && (m + rest)[|m|..] == rest;
    TailReads(b);
  }

  lemma MnemonicSolid(m: string)
    requires MnemonicText(m)
    ensures forall i :: 0 <= i < |m| ==> !Blank(m[i])
  {
    BlankIsNoName();
  }

  lemma TailReads(b: Body)
    requires ValidBody(b) && b.Instruction?
    ensures Operands(SplitCommas(StripLeft(StripRight(b.gap + WriteParts(b.parts))))) == TextsOf(b.parts)
  {
    hide Operands, SplitCommas, StripRight, Blank, ValidPart;
    var tail := b.gap + WriteParts(b.parts);
    if b.parts == [] {
      assert tail == b.gap;
      StripRightBlanks(tail);
      BlankOperands();
    } else {
      hide WriteParts, TextsOf, StripLeft;
      var rest := StripRight(tail);
      StripRightIs(tail);
      StripLeftIs(rest);
      OperandsIgnoreLeft(rest[..Spaces(rest)], StripLeft(rest));
      OperandsIgnoreRight(rest, tail[|rest|..]);
      OperandsIgnoreLeft(b.gap, WriteParts(b.parts));
      PartsRead(b.parts);
    }
  }

  lemma BlankOperands()
    ensures Operands(SplitCommas(StripLeft(""))) == []
  {
    assert Strip("") == "";
  }

  /** However a line is laid out, with blanks before and after its labels, mnemonic, operands and commas,
      with blank operands and with any comment, it parses to what it says. */
  lemma RenderParses(l: Layout)
    requires ValidLayout(l)
    ensures ParseLine(Write(l)) == Ok(Content(l))
  {
    hide Write, Peel, ParseBody, WriteBody, WriteLabels, WriteParts, BeforeComment, Strip, StripRight, Blanks,
         ValidBody, ValidLabels, NamesOf, TextsOf;
    WrittenCuts(l);
    LabelsPeel(l.labels, l.indent, l.body);
    BodyStrips(l.indent, l.body);
    if l.body.Instruction? {
      BodyReads(NamesOf(l.labels), l.body);
    } else {
      NothingReads(NamesOf(l.labels));
    }
  }

  lemma NothingReads(labels: seq<string>)
    ensures ParseBody(labels, "") == Ok(SourceLine(labels, None, []))
  {
  }

  // ---- whatever parses is a layout ----

  /** A text in front of its first ';' and behind it. */
  lemma {:induction false} CommentFound(raw: string) returns (comment: Option<string>)
    ensures raw == BeforeComment(raw) + WriteComment(comment) && Free(BeforeComment(raw), ';')
  {
    if raw == "" {
      comment := None;
    } else if raw[0] == ';' {
      comment := Some(raw[1..]);
      assert raw == ";" + raw[1..];
    } else {
      comment := CommentFound(raw[1..]);
      assert raw == [raw[0]] + raw[1..];
      FreeAppend([raw[0]], BeforeComment(raw[1..]), ';');
    }
  }

  lemma PrefixFound(s: string) returns (l: LabelText)
    requires LabelPrefix(s).Some?
    ensures ValidLabel(l) && l.name == LabelPrefix(s).value.name
    ensures s == l.pad + (l.name + (":" + s[LabelPrefix(s).value.length..]))
  {
    CharsAgree();
    hide IsWordChar, NameChar, IsLetter, IsSpace, Blank, Spaces, WordLength;
    var k := Spaces(s);
    var t := s[k..];
    var n := WordLength(t);
    SpacesAre(s);
    WordIs(t);
    NumeralsApart();
    l := LabelText(s[..k], t[..n]);
    assert t == t[..n] + ([t[n]] + t[n + 1..]);
    assert s == s[..k] + t && s[k + n + 1..] == t[n + 1..];
  }

  lemma NumeralsApart()
    ensures forall c: char :: IsLetter(c) || c == '_' ==> !Numeral(c)
  {
  }

  lemma {:induction false} LabelsFound(s: string) returns (labels: seq<LabelText>)
    ensures ValidLabels(labels) && NamesOf(labels) == Peel(s).labels
    ensures s == WriteLabels(labels) + Peel(s).rest
    decreases |s|
  {
    hide LabelPrefix, ValidLabel, WriteLabels, ValidLabels;
    var prefix := LabelPrefix(s);
    if prefix.None? {
      labels := [];
      NoLabels();
      assert s == "" + s;
    } else {
      var l := PrefixFound(s);
      var rest := s[prefix.value.length..];
      var tail := LabelsFound(rest);
      labels := [l] + tail;
      MoreLabels(l, tail, Peel(rest).rest);
    }
  }

  lemma NoLabels()
    ensures WriteLabels([]) == "" && ValidLabels([])
  {
  }

  lemma MoreLabels(l: LabelText, labels: seq<LabelText>, rest: string)
    requires ValidLabel(l) && ValidLabels(labels)
    ensures ValidLabels([l] + labels) && NamesOf([l] + labels) == [l.name] + NamesOf(labels)
    ensures WriteLabels([l] + labels) + rest == l.pad + (l.name + (":" + (WriteLabels(labels) + rest)))
  {
    hide ValidLabel;
    assert ([l] + labels)[1..] == labels;
  }

  /** A text in the blanks around it. */
  lemma Stripped(s: string) returns (before: string, after: string)
    ensures Blanks(before) && Blanks(after) && s == before + (Strip(s) + after)
    ensures Strip(s) == "" || (!Blank(Strip(s)[0]) && !Blank(Strip(s)[|Strip(s)| - 1]))
  {
    hide Blank, Spaces, StripRight;
    StripLeftIs(s);
    var t := StripLeft(s);
    StripRightIs(t);
    before, after := s[..Spaces(s)], t[|StripRight(t)|..];
    if Strip(s) != "" {
      assert Strip(s)[0] == t[0];
    }
  }

  lemma SubFree(s: string, a: string, b: string, c: string, x: char)
    requires s == a + (b + c) && Free(s, x)
    ensures Free(a, x) && Free(b, x) && Free(c, x)
  {
    assert forall i :: 0 <= i < |a| ==> a[i] == s[i];
    assert forall i :: 0 <= i < |b| ==> b[i] == s[|a| + i];
    assert forall i :: 0 <= i < |c| ==> c[i] == s[|a| + |b| + i];
  }

  lemma {:induction false} SplitsFree(s: string)
    requires Free(s, ';')
    ensures forall i :: 0 <= i < |SplitCommas(s)| ==> Free(SplitCommas(s)[i], ',') && Free(SplitCommas(s)[i], ';')
  {
    if s != "" {
      SplitsFree(s[1..]);
      var parts := SplitCommas(s[1..]);
      if s[0] != ',' {
        FreeAppend([s[0]], parts[0], ',');
        FreeAppend([s[0]], parts[0], ';');
      }
    }
  }

  /** Texts with a comma between each and the next. */
  function Commas(xs: seq<string>): string {
    if xs == [] then "" else if |xs| == 1 then xs[0] else xs[0] + ("," + Commas(xs[1..]))
  }

  lemma {:induction false} SplitJoins(s: string)
    ensures Commas(SplitCommas(s)) == s
  {
    if s != "" {
      SplitJoins(s[1..]);
      var parts := SplitCommas(s[1..]);
      if s[0] == ',' {
        assert SplitCommas(s)[1..] == parts;
      } else {
        assert SplitCommas(s)[1..] == parts[1..];
      }
    }
  }

  lemma {:induction false} PartsFound(xs: seq<string>) returns (parts: seq<Part>)
    requires forall i :: 0 <= i < |xs| ==> Free(xs[i], ',') && Free(xs[i], ';')
    ensures |parts| == |xs| && forall i :: 0 <= i < |parts| ==> ValidPart(parts[i])
    ensures WriteParts(parts) == Commas(xs) && TextsOf(parts) == Operands(xs)
  {
    hide Strip, Blank, Free;
    if xs == [] {
      parts := [];
    } else {
      var before, after := Stripped(xs[0]);
      var p := Part(before, Strip(xs[0]), after);
      SubFree(xs[0], before, p.text, after, ',');
      SubFree(xs[0], before, p.text, after, ';');
      assert ValidPart(p);
      var tail := PartsFound(xs[1..]);
      parts := [p] + tail;
      assert parts[1..] == tail;
    }
  }

  /** The operands behind a mnemonic, and the blanks at the end. */
  lemma TailFound(tail: string, after: string) returns (gap: string, parts: seq<Part>)
    requires tail == "" || Blank(tail[0])
    requires Blanks(after) && Free(tail, ';') && Free(after, ';')
    ensures Blanks(gap) && (parts != [] ==> gap != "") && forall i :: 0 <= i < |parts| ==> ValidPart(parts[i])
    ensures gap + WriteParts(parts) == tail + after
    ensures TextsOf(parts) == Operands(SplitCommas(StripLeft(tail)))
  {
    hide Blank, Strip, SplitCommas, Operands, Free, ValidPart;
    if tail == "" {
      gap, parts := after, [];
      BlankOperands();
      assert gap + "" == tail + after;
    } else {
      StripLeftIs(tail);
      NotSolid(tail);
      gap := tail[..Spaces(tail)];
      var text := StripLeft(tail);
      SubFree(tail, gap, text, "", ';');
      FreeAppend(text, after, ';');
      OperandsIgnoreRight(text, after);
      SplitsFree(text + after);
      SplitJoins(text + after);
      parts := PartsFound(SplitCommas(text + after));
      assert tail + after == gap + (text + after);
    }
  }

  lemma NotSolid(s: string)
    requires s != "" && Blank(s[0])
    ensures Spaces(s) > 0 && s == s[..Spaces(s)] + (s[Spaces(s)..] + "")
  {
    CharsAgree();
  }

  lemma BodyFound(labels: seq<string>, s: string) returns (indent: string, b: Body)
    requires Free(s, ';') && ParseBody(labels, Strip(s)).Ok?
    ensures Blanks(indent) && ValidBody(b) && s == indent + WriteBody(b)
    ensures ParseBody(labels, Strip(s)).value
         == if b.Nothing? then SourceLine(labels, None, []) else SourceLine(labels, Some(b.mnemonic), TextsOf(b.parts))
  {
    hide Strip, StripLeft, Blank, Free, SplitCommas, Operands, WellFormedMnemonic, MnemonicText, TokenLength, WriteParts,
         TextsOf, ValidPart;
    var before, after := Stripped(s);
    var body := Strip(s);
    if body == "" {
      indent, b := before + after, Nothing;
      BlanksAppend(before, after);
      assert s == (before + after) + "";
    } else {
      var n := TokenLength(body);
      TokenIs(body);
      var m, tail := body[..n], body[n..];
      SubFree(s, before, body, after, ';');
      assert body == "" + (m + tail);
      SubFree(body, "", m, tail, ';');
      var gap, parts := TailFound(tail, after);
      MnemonicAgrees(m);
      indent, b := before, Instruction(m, gap, parts);
      assert m + (gap + WriteParts(parts)) == body + after;
    }
  }

  lemma BlanksAppend(a: string, b: string)
    requires Blanks(a) && Blanks(b)
    ensures Blanks(a + b)
  {
  }

  /** Whatever parses is a layout of the line it parses to. */
  lemma LayoutFound(raw: string) returns (l: Layout)
    requires ParseLine(raw).Ok?
    ensures ValidLayout(l) && Write(l) == raw && Content(l) == ParseLine(raw).value
  {
    hide Peel, ParseBody, BeforeComment, Strip, WriteLabels, WriteBody, Free, Blanks, ValidBody, ValidLabels, NamesOf;
    var text := BeforeComment(raw);
    var comment := CommentFound(raw);
    var labels := LabelsFound(text);
    var rest := Peel(text).rest;
    assert text == "" + (WriteLabels(labels) + rest);
    SubFree(text, "", WriteLabels(labels), rest, ';');
    var indent, body := BodyFound(NamesOf(labels), rest);
    l := Layout(labels, indent, body, comment);
  }

  /** `raw` is one of the ways to write `line`. */
  ghost predicate Lays(raw: string, line: SourceLine) {
    exists l: Layout :: ValidLayout(l) && Write(l) == raw && Content(l) == line
  }

  /** A text parses to a line exactly when it is a layout of it, and to an error exactly when it is a
      layout of none. */
  lemma ParsesExactly(raw: string, line: SourceLine)
    ensures ParseLine(raw) == Ok(line) <==> Lays(raw, line)
  {
    hide ParseLine, Write, Content, ValidLayout;
    if ParseLine(raw) == Ok(line) {
      var l := LayoutFound(raw);
      assert ValidLayout(l) && Write(l) == raw && Content(l) == line;
    }
    if Lays(raw, line) {
      var l: Layout :| ValidLayout(l) && Write(l) == raw && Content(l) == line;
      RenderParses(l);
    }
  }

  /** The error names the first token behind the labels, which is no mnemonic. */
  lemma MalformedToken(raw: string) returns (labels: seq<LabelText>, indent: string, tail: string, comment: Option<string>)
    requires ParseLine(raw).Err?
    ensures var t := ParseLine(raw).error.text;
      && raw == WriteLabels(labels) + (indent + (t + tail)) + WriteComment(comment)
      && ValidLabels(labels) && Blanks(indent) && Free(tail, ';')
      && t != "" && !MnemonicText(t) && (forall i :: 0 <= i < |t| ==> !Blank(t[i]))
      && (tail == "" || Blank(tail[0]))
  {
    hide Peel, BeforeComment, Strip, WriteLabels, Free, Blanks, Blank, ValidLabels, NamesOf, WellFormedMnemonic,
         MnemonicText, TokenLength, Operands, SplitCommas;
    var text := BeforeComment(raw);
    comment := CommentFound(raw);
    labels := LabelsFound(text);
    var rest := Peel(text).rest;
    var body := Strip(rest);
    var before, after := Stripped(rest);
    var n := TokenLength(body);
    TokenIs(body);
    TokenStarts(body);
    MnemonicAgrees(body[..n]);
    indent, tail := before, body[n..] + after;
    assert body == body[..n] + body[n..];
    assert rest == indent + (body[..n] + tail);
    assert text == (WriteLabels(labels) + (indent + body[..n])) + (tail + "");
    SubFree(text, WriteLabels(labels) + (indent + body[..n]), tail, "", ';');
    EndsBlank(body[n..], after);
  }

  lemma TokenStarts(s: string)
    requires s != "" && !Blank(s[0])
    ensures TokenLength(s) > 0
  {
    CharsAgree();
  }

  lemma EndsBlank(s: string, after: string)
    requires (s == "" || Blank(s[0])) && Blanks(after)
    ensures s + after == "" || Blank((s + after)[0])
  {
    hide Blank;
  }

  // ---- the mnemonics there are ----

  /** The seventeen opcodes and the two pseudo-operations are mnemonics. */
  lemma MnemonicsAccepted(m: string)
    requires m in {"LOAD", "STORE", "ADD", "SUB", "AND", "OR", "INVERT", "JMP", "JZ", "JS", "PUSH_D", "POP_D", "PUSH_R",
                   "POP_R", "IN", "OUT", "HALT", "SET", "MOV"}
    ensures MnemonicText(m)
  {
    assert NameChar(m[0]) && !Underscore(m[0]);
  }

  /** Two lines as the kernel's source writes them. */
  lemma HaltLineReads()
    ensures ParseLine("        HALT") == Ok(SourceLine([], Some("HALT"), []))
  {
    hide ParseLine;
    var l := Layout([], "        ", Instruction("HALT", "", []), None);
    MnemonicsAccepted("HALT");
    RenderParses(l);
    assert Write(l) == "        HALT";
    assert Content(l) == SourceLine([], Some("HALT"), []);
  }

  lemma PopLineReads()
    ensures ParseLine("  POP_D X") == Ok(SourceLine([], Some("POP_D"), ["X"]))
  {
    hide ParseLine;
    var parts := [Part("", "X", "")];
    var l := Layout([], "  ", Instruction("POP_D", " ", parts), None);
    MnemonicsAccepted("POP_D");
    assert ValidPart(parts[0]);
    RenderParses(l);
    assert parts[1..] == [];
    hide ValidLayout, MnemonicText;
    assert WriteParts(parts) == "X" && TextsOf(parts) == ["X"];
    assert WriteBody(l.body) == "POP_D X";
    assert Write(l) == "  POP_D X";
    assert Content(l) == SourceLine([], Some("POP_D"), ["X"]);
  }
}
