/** The first assembler stage: a source line taken apart into labels, mnemonic and operands, over ASCII
    (`services/assembler/parser.py`). */
module Parser {
  import opened Wrappers

  /** `LineDto`, its line number and address aside. */
  datatype SourceLine = SourceLine(labels: seq<string>, mnemonic: Option<string>, operands: seq<string>)

  datatype ParseError = MalformedMnemonic(text: string)

  // ---- characters ----

  predicate IsSpace(c: char) { c == ' ' || '\t' <= c <= '\r' || '\U{1c}' <= c <= '\U{1f}' }

  predicate IsDigit(c: char) { '0' <= c <= '9' }

  predicate IsLetter(c: char) { 'A' <= c <= 'Z' || 'a' <= c <= 'z' }

  predicate IsWordChar(c: char) { IsLetter(c) || IsDigit(c) || c == '_' }

  // ---- pieces of a line ----

  /** `raw.split(';', 1)[0]`. */
  function BeforeComment(raw: string): string {
    if raw == "" || raw[0] == ';' then "" else [raw[0]] + BeforeComment(raw[1..])
  }

  /** How many whitespace characters a text starts with. */
  function Spaces(s: string): (n: nat)
    ensures n <= |s|
  {
    if s != "" && IsSpace(s[0]) then 1 + Spaces(s[1..]) else 0
  }

  /** How many identifier characters a text starts with. */
  function WordLength(s: string): (n: nat)
    ensures n <= |s|
  {
    if s != "" && IsWordChar(s[0]) then 1 + WordLength(s[1..]) else 0
  }

  /** How many characters other than whitespace a text starts with. */
  function TokenLength(s: string): (n: nat)
    ensures n <= |s|
  {
    if s != "" && !IsSpace(s[0]) then 1 + TokenLength(s[1..]) else 0
  }

  function StripLeft(s: string): string { s[Spaces(s)..] }

  function StripRight(s: string): string {
    if s != "" && IsSpace(s[|s| - 1]) then StripRight(s[..|s| - 1]) else s
  }

  function Strip(s: string): string { StripRight(StripLeft(s)) }

  datatype Prefix = Prefix(name: string, length: nat)

  /** The length of the identifier a text starts with, when a colon follows it. */
  function LabelLength(s: string): (r: Option<nat>)
    ensures r.Some? ==> r.value < |s|
  {
    var n := WordLength(s);
    if s != "" && (IsLetter(s[0]) || s[0] == '_') && n < |s| && s[n] == ':' then Some(n) else None
  }

  /** A match of whitespace, an identifier and a colon at the start of `s`. */
  function LabelPrefix(s: string): (r: Option<Prefix>)
    ensures r.Some? ==> 0 < r.value.length <= |s|
  {
    var k := Spaces(s);
    match LabelLength(s[k..])
    case None => None
    case Some(n) => Some(Prefix(s[k..][..n], k + n + 1))
  }

  /** Labels peeled off the front, and what is left. */
  datatype Peeled = Peeled(labels: seq<string>, rest: string)

  function Peel(s: string): Peeled
    decreases |s|
  {
    match LabelPrefix(s)
    case None => Peeled([], s)
    case Some(p) => var tail := Peel(s[p.length..]); Peeled([p.name] + tail.labels, tail.rest)
  }

  /** `text.split(',')`. */
  function SplitCommas(s: string): (parts: seq<string>)
    ensures parts != []
  {
    if s == "" then [""]
    else
      var parts := SplitCommas(s[1..]);
      if s[0] == ',' then [""] + parts else [[s[0]] + parts[0]] + parts[1..]
  }

  /** The parts that are not blank, stripped. */
  function Operands(parts: seq<string>): seq<string> {
    if parts == [] then []
    else (if Strip(parts[0]) == "" then [] else [Strip(parts[0])]) + Operands(parts[1..])
  }

  /** Letters and digits only, once the underscores are out, and at least one. */
  predicate WellFormedMnemonic(m: string) {
    && (forall i :: 0 <= i < |m| ==> IsWordChar(m[i]))
    && exists i :: 0 <= i < |m| && m[i] != '_'
  }

  /** The mnemonic and its operands, from a stripped text. */
  function ParseBody(labels: seq<string>, body: string): Result<SourceLine, ParseError> {
    if body == "" then Ok(SourceLine(labels, None, []))
    else
      var n := TokenLength(body);
      if !WellFormedMnemonic(body[..n]) then Err(MalformedMnemonic(body[..n]))
      else Ok(SourceLine(labels, Some(body[..n]), Operands(SplitCommas(StripLeft(body[n..])))))
  }

  /** `_parse_line`. */
  function ParseLine(raw: string): Result<SourceLine, ParseError> {
    var peeled := Peel(BeforeComment(raw));
    ParseBody(peeled.labels, Strip(peeled.rest))
  }

  /** The label-peeling loop: every turn shortens what is left. */
  method PeelAndParse(raw: string) returns (r: Result<SourceLine, ParseError>)
    ensures r == ParseLine(raw)
  {
    var work := BeforeComment(raw);
    var labels: seq<string> := [];
    assert [] + Peel(work).labels == Peel(work).labels;
    var prefix := LabelPrefix(work);
    while prefix.Some?
      invariant prefix == LabelPrefix(work)
      invariant Peel(BeforeComment(raw)) == Peeled(labels + Peel(work).labels, Peel(work).rest)
      decreases |work|
    {
      hide LabelPrefix, BeforeComment;
      var rest := work[prefix.value.length..];
      assert labels + ([prefix.value.name] + Peel(rest).labels) == labels + [prefix.value.name] + Peel(rest).labels;
      labels := labels + [prefix.value.name];
      work := rest;
      prefix := LabelPrefix(work);
    }
    assert labels + [] == labels;
    return ParseBody(labels, Strip(work));
  }
}
